/** What player and staff boosts have in common: verdicts, reports and the check of the live person. */
module Boosts {
  import opened Wrappers
  import opened ScanModel
  import opened ProcessMemory
  import opened PersonLayout
  import opened ValueMutations

  const MAX_ABILITY: int := 200

  datatype BoostFailure =
    | NoBoostFailure | InvalidRequest | UnsupportedGameBuild | NoLiveScan | OtherSourceRequest | PersonNotFound
    | ExpectedValuesMismatch | LiveIdentityMismatch | LiveReadFailed | LiveValueInvalid | CurrentAbilityAtLimit
    | MutationFailed | PartialRollbackUnverified

  datatype Outcome = Verified | NotDone | PartialUnverified

  datatype AbilityReport = AbilityReport(previous: Option<int>, current: Option<int>, potential: Option<int>)

  datatype AbilityBoost = AbilityBoost(outcome: Outcome, rollback: Rollback, report: AbilityReport)

  /** A failure after which the live indexes are kept: nothing was written. */
  predicate PreservesLiveIndex(failure: BoostFailure) {
    failure.ExpectedValuesMismatch? || failure.CurrentAbilityAtLimit?
  }

  function MapMutationFailure(failure: Failure): (f: BoostFailure)
    ensures PreservesLiveIndex(f) <==> failure in {ExpectedValueMismatch, TargetExceedsPotentialAbility}
    ensures f == ExpectedValuesMismatch <==> failure == ExpectedValueMismatch
    ensures PreservesLiveIndex(f) || f == MutationFailed
  {
    if failure.ExpectedValueMismatch? then ExpectedValuesMismatch
    else if failure.TargetExceedsPotentialAbility? then CurrentAbilityAtLimit
    else MutationFailed
  }

  /** How far one boost takes a current ability. */
  function Boosted(ca: int, pa: int, increment: int): int { Min(ca + increment, Min(pa, MAX_ABILITY)) }

  /** Which memory layout a game version has, and whether its exact build is approved for boosts. */
  datatype LayoutRegistry = LayoutRegistry(
    resolve: string -> Option<MutationLayout>,
    supportsPlayerBoosts: string -> bool,
    supportsStaffBoosts: string -> bool)

  /** Memory holds this person, with these abilities. */
  ghost predicate LiveMatches(image: Image, layout: MutationLayout, c: PersonCandidate, ca: int, pa: int) {
    var uid := UidAddress(layout, c);
    && uid.Some? && Mapped(image, uid.value, 4) && U32At(image, uid.value) == c.uid
    && HoldsAbilities(image, layout, c, ca, pa) && IsValidAbility(ca) && IsValidAbility(pa)
  }

  ghost predicate HoldsAbilities(image: Image, layout: MutationLayout, c: PersonCandidate, ca: int, pa: int) {
    var caAddress, paAddress := CaAddress(layout, c), PaAddress(layout, c);
    && caAddress.Some? && paAddress.Some? && Mapped(image, caAddress.value, 2) && Mapped(image, paAddress.value, 2)
    && U16At(image, caAddress.value) == ca && U16At(image, paAddress.value) == pa
  }

  /** Re-reads who is at the indexed address and with which abilities; a pass means memory agrees in full. */
  method TryReadLiveState(memory: Memory, layout: MutationLayout, c: PersonCandidate, players: bool, expectedCa: int,
                          expectedPa: int)
    returns (failure: BoostFailure)
    ensures failure.NoBoostFailure? ==>
                c.facet.Player? == players && LiveMatches(memory.image, layout, c, expectedCa, expectedPa)
    ensures memory.reliable && c.facet.Player? == players
              && LiveMatches(memory.image, layout, c, expectedCa, expectedPa) ==>
              failure.NoBoostFailure?
    ensures failure.LiveIdentityMismatch? ==>
              && UidAddress(layout, c).Some? && Mapped(memory.image, UidAddress(layout, c).value, 4)
              && U32At(memory.image, UidAddress(layout, c).value) != c.uid
    ensures failure.LiveValueInvalid? ==>
              exists ca, pa :: HoldsAbilities(memory.image, layout, c, ca, pa) && !(IsValidAbility(ca) && IsValidAbility(pa))
    ensures failure.ExpectedValuesMismatch? ==>
              exists ca, pa :: LiveMatches(memory.image, layout, c, ca, pa) && (ca != expectedCa || pa != expectedPa)
    ensures failure in {NoBoostFailure, LiveReadFailed, LiveIdentityMismatch, LiveValueInvalid, ExpectedValuesMismatch}
  {
    var uidAddress, caAddress, paAddress := UidAddress(layout, c), CaAddress(layout, c), PaAddress(layout, c);
    if c.facet.Player? != players || uidAddress.None? || caAddress.None? || paAddress.None? {
      return LiveReadFailed;
    }
    var uid := memory.TryReadUInt32(uidAddress.value);
    var ca := memory.TryReadUInt16(caAddress.value);
    var pa := memory.TryReadUInt16(paAddress.value);
    if uid.None? || ca.None? || pa.None? {
      return LiveReadFailed;
    }
    if uid.value != c.uid {
      return LiveIdentityMismatch;
    }
    assert HoldsAbilities(memory.image, layout, c, ca.value, pa.value);
    if !IsValidAbility(ca.value) || !IsValidAbility(pa.value) {
      return LiveValueInvalid;
    }
    assert LiveMatches(memory.image, layout, c, ca.value, pa.value);
    failure := if ca.value == expectedCa && pa.value == expectedPa then NoBoostFailure else ExpectedValuesMismatch;
  }

  /** An ability write that reads back as the target and leaves the potential ability alone. */
  lemma AbilityWritten(image: Image, layout: MutationLayout, c: PersonCandidate, ca: int, pa: int, target: int)
    requires HoldsAbilities(image, layout, c, ca, pa) && Apart(CaAddress(layout, c), 2, PaAddress(layout, c), 2)
    requires 0 <= target < 0x1_0000
    ensures HoldsAbilities(Put(image, CaAddress(layout, c).value, U16(target)), layout, c, target, pa)
  {
    U16RoundTrip(image, CaAddress(layout, c).value, target, PaAddress(layout, c).value);
  }
}
