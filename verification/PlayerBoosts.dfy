/**
 The two player boosts: raising current ability, and lifting a player's low mentality values. A boost either
 happens completely and is verified, or memory is what it was, or the verdict says that this is unknown.
 */
module PlayerBoosts {
  import opened Wrappers
  import opened Requests
  import opened ScanModel
  import opened ProcessMemory
  import opened PersonLayout
  import opened ValueMutations
  import opened Boosts
  import opened Mentality
  import opened MutationIndexes

  const MENTALITY_ELIGIBILITY_MAXIMUM: int := 10
  const MENTALITY_TARGET_MINIMUM: int := 11
  const MENTALITY_TARGET_MAXIMUM_EXCLUSIVE: int := 21

  datatype Report =
    | NoReport
    | AbilityReported(ability: AbilityBoost)
    | MentalityReported(outcome: Outcome, rollback: Rollback, previous: MentalityState, current: MentalityState)

  datatype Execution = Execution(succeeded: bool, failure: BoostFailure, report: Report)

  function Refuse(failure: BoostFailure): Execution { Execution(false, failure, NoReport) }

  // ---------------------------------------------------------------- requests

  /** What every player boost must name. */
  predicate NamesBoost(r: BridgeRequest) {
    && (r.operation == Some(BOOST_CURRENT_ABILITY) || r.operation == Some(WONDERKID_MENTALITY))
    && !IsBlank(r.sourceRequestId) && NamesPerson(r.playerUid)
    && IsAbility(r.expectedCurrentAbility) && IsAbility(r.expectedPotentialAbility)
    && r.expectedCurrentAbility.value <= r.expectedPotentialAbility.value
  }

  predicate NamesIncrement(r: BridgeRequest) {
    && (r.currentAbilityIncrement == Some(5) || r.currentAbilityIncrement == Some(10))
    && r.expectedAmbition.None? && r.expectedProfessionalism.None? && r.expectedDetermination.None?
  }

  predicate NamesMentality(r: BridgeRequest) {
    && r.operation == Some(WONDERKID_MENTALITY) && r.currentAbilityIncrement.None?
    && IsMentality(r.expectedAmbition) && IsMentality(r.expectedProfessionalism) && IsMentality(r.expectedDetermination)
    && (IsEligibleMentality(r.expectedAmbition) || IsEligibleMentality(r.expectedProfessionalism)
        || IsEligibleMentality(r.expectedDetermination))
  }

  /** The service finds nothing to object to in the request itself. */
  predicate Executable(r: BridgeRequest) {
    NamesBoost(r) && if r.operation == Some(BOOST_CURRENT_ABILITY) then NamesIncrement(r) else NamesMentality(r)
  }

  /** A player boost is accepted by shape exactly when the service finds it executable and its envelope is right. */
  lemma ShapeAgreesWithService(r: BridgeRequest)
    requires r.operation == Some(BOOST_CURRENT_ABILITY) || r.operation == Some(WONDERKID_MENTALITY)
    ensures WellFormed(r) <==>
              && Executable(r) && r.protocolVersion == PROTOCOL_VERSION && !IsBlank(r.requestId)
              && r.staffUid.None? && r.playerDatabaseScope == Some(MEN)
  {
  }

  function Expectations(r: BridgeRequest): MentalityState {
    MentalityState(r.expectedAmbition, r.expectedProfessionalism, r.expectedDetermination)
  }

  // ---------------------------------------------------------------- what a boost does

  predicate IsEligible(value: Option<int>) { value.Some? && value.value <= MENTALITY_ELIGIBILITY_MAXIMUM }

  /** One value after the boost: low values end up, encoded, from 11 to 20, other known values are kept. */
  ghost predicate Lifted(before: Image, after: Image, layout: MutationLayout, c: PersonCandidate, f: Field,
                         previous: Option<int>, now: Option<int>)
  {
    && (previous.None? ==> now.None?)
    && (previous.Some? ==>
          && ReadsField(before, layout, c, f, previous) && ReadsField(after, layout, c, f, now)
          && if IsEligible(previous) then
               && MENTALITY_TARGET_MINIMUM <= now.value < MENTALITY_TARGET_MAXIMUM_EXCLUSIVE
               && after[FieldAddress(layout, c, f).value] == Encode(f, now.value)
             else now == previous)
  }

  /** The whole mentality boost: every known value is lifted, every other byte is untouched. */
  ghost predicate MentalityLifted(before: Image, after: Image, layout: MutationLayout, c: PersonCandidate,
                                  previous: MentalityState, now: MentalityState)
  {
    && after.Keys == before.Keys
    && (forall f :: Lifted(before, after, layout, c, f, previous.Of(f), now.Of(f)))
    && forall k :: k in before && (forall f :: IsEligible(previous.Of(f)) ==> FieldAddress(layout, c, f) != Some(k)) ==>
         after[k] == before[k]
  }

  /** A draw from a range whose upper end is excluded. */
  method NextRandom(low: int, highExclusive: int) returns (value: int)
    requires low < highExclusive
    ensures low <= value < highExclusive
  {
    value :| low <= value < highExclusive;
  }

  method ChooseMentalityTarget(current: Option<int>) returns (target: Option<int>)
    ensures target == current || (IsEligible(current) && target.Some?)
    ensures IsEligible(current) ==>
              target.Some? && MENTALITY_TARGET_MINIMUM <= target.value < MENTALITY_TARGET_MAXIMUM_EXCLUSIVE
  {
    target := current;
    if IsEligible(current) {
      var drawn := NextRandom(MENTALITY_TARGET_MINIMUM, MENTALITY_TARGET_MAXIMUM_EXCLUSIVE);
      target := Some(drawn);
    }
  }

  /** The values chosen for the three fields. */
  ghost predicate Chosen(previous: MentalityState, targets: MentalityState) {
    forall f :: if IsEligible(previous.Of(f))
                then targets.Of(f).Some?
                     && MENTALITY_TARGET_MINIMUM <= targets.Of(f).value < MENTALITY_TARGET_MAXIMUM_EXCLUSIVE
                else targets.Of(f) == previous.Of(f)
  }

  function AllChanges(previous: MentalityState, targets: MentalityState): seq<MentalityMutation> {
    Change(Ambition, previous.ambition, targets.ambition) +
    Change(Professionalism, previous.professionalism, targets.professionalism) +
    Change(Determination, previous.determination, targets.determination)
  }

  lemma FieldIsChanged(previous: MentalityState, targets: MentalityState, f: Field)
    requires Chosen(previous, targets) && IsEligible(previous.Of(f))
    ensures exists m :: m in AllChanges(previous, targets) && m.field == f
  {
    var m := MentalityMutation(f, previous.Of(f).value, targets.Of(f).value);
    assert m in Change(f, previous.Of(f), targets.Of(f));
    assert m in AllChanges(previous, targets);
  }

  lemma ChangeIsWanted(previous: MentalityState, targets: MentalityState, m: MentalityMutation)
    requires Chosen(previous, targets) && m in AllChanges(previous, targets)
    ensures IsEligible(previous.Of(m.field)) && targets.Of(m.field) == Some(m.target)
  {
    assert m in Change(m.field, previous.Of(m.field), targets.Of(m.field));
  }

  /** Once all changes are applied, every known value is lifted and nothing else differs. */
  lemma ProgressIsLifted(before: Image, image: Image, layout: MutationLayout, c: PersonCandidate,
                         previous: MentalityState, targets: MentalityState)
    requires SpreadOut(layout, c) && Chosen(previous, targets) && Reads(before, layout, c, previous, previous)
    requires Progress(before, image, layout, c, AllChanges(previous, targets))
    ensures MentalityLifted(before, image, layout, c, previous, targets)
  {
    var applied := AllChanges(previous, targets);
    hide AllChanges;
    forall m | m in applied ensures IsEligible(previous.Of(m.field)) && targets.Of(m.field) == Some(m.target) {
      ChangeIsWanted(previous, targets, m);
    }
    forall f | previous.Of(f).Some? ensures Lifted(before, image, layout, c, f, previous.Of(f), targets.Of(f)) {
      if IsEligible(previous.Of(f)) {
        FieldIsChanged(previous, targets, f);
        var m :| m in applied && m.field == f;
        var j :| 0 <= j < |applied| && applied[j] == m;
        assert Stands(image, layout, c, applied[j], applied[j].target);
        EncodingRoundTrips(f, m.target, 0);
      } else {
        forall j | 0 <= j < |applied| ensures applied[j].field != f {
          assert applied[j] in applied;
        }
        UntouchedField(before, image, layout, c, applied, f, previous.Of(f));
      }
    }
    forall k | k in before && (forall f :: IsEligible(previous.Of(f)) ==> FieldAddress(layout, c, f) != Some(k))
      ensures image[k] == before[k]
    {
      forall j | 0 <= j < |applied| ensures FieldAddress(layout, c, applied[j].field) != Some(k) {
        assert applied[j] in applied;
      }
    }
  }

  lemma NothingApplied(image: Image, layout: MutationLayout, c: PersonCandidate)
    requires c.facet.Player?
    ensures Progress(image, image, layout, c, [])
  {
  }

  lemma ProgressStaysWithin(before: Image, image: Image, layout: MutationLayout, c: PersonCandidate,
                            applied: seq<MentalityMutation>)
    requires Progress(before, image, layout, c, applied)
    ensures OnlyMentalityDiffers(before, image, layout, c)
  {
    forall k | k in before && (forall f :: FieldAddress(layout, c, f) != Some(k)) ensures image[k] == before[k] {
      assert !IsAddressOf(layout, c, applied, k);
    }
  }

  /** The chosen targets are all within the scale. */
  lemma ChosenIsInScale(previous: MentalityState, targets: MentalityState, f: Field)
    requires Chosen(previous, targets) && (previous.Of(f).Some? ==> IsMentalityValue(previous.Of(f).value))
    ensures targets.Of(f).Some? ==> IsMentalityValue(targets.Of(f).value)
  {
  }

  /** The report says what the verdict says. */
  predicate Truthful(r: Execution) {
    match r.report
    case NoReport => !r.succeeded && !r.failure.PartialRollbackUnverified?
    case AbilityReported(ability) => Agrees(r, ability.outcome, ability.rollback)
    case MentalityReported(outcome, rollback, _, _) => Agrees(r, outcome, rollback)
  }

  predicate Agrees(r: Execution, outcome: Outcome, rollback: Rollback) {
    && (outcome.Verified? <==> r.succeeded)
    && (outcome.PartialUnverified? <==> r.failure.PartialRollbackUnverified?)
    && (rollback.Unverified? <==> r.failure.PartialRollbackUnverified?)
    && (r.succeeded <==> r.failure.NoBoostFailure?)
  }

  lemma SuccessIsTruthful(previous: MentalityState, targets: MentalityState)
    ensures Truthful(Execution(true, NoBoostFailure, MentalityReported(Verified, NotNeeded, previous, targets)))
  {
  }

  /** Reports a failed change after taking back what was applied. */
  method FailedMentalityMutation(failed: MutationResult, f: Field, c: PersonCandidate, previous: MentalityState,
                                 mutations: PlayerValueMutationService, applied: seq<MentalityMutation>,
                                 ghost before: Image, ghost image: Image)
    returns (r: Execution)
    requires SpreadOut(mutations.layout, c) && Progress(before, image, mutations.layout, c, applied)
    requires forall j :: 0 <= j < |applied| ==> applied[j].field != f && !applied[j].field.Determination?
    requires FieldAddress(mutations.layout, c, f).Some?
    requires SameExcept(image, mutations.memory.image, FieldAddress(mutations.layout, c, f).value, 1)
    requires !failed.rollback.Unverified? ==> mutations.memory.image == image
    requires !failed.failure.TargetExceedsPotentialAbility?
    modifies mutations.memory`image
    ensures !r.succeeded && r.report.MentalityReported? && r.report.previous == previous && Truthful(r)
    ensures r.failure.PartialRollbackUnverified? <==> r.report.rollback.Unverified?
    ensures !r.failure.PartialRollbackUnverified? ==> mutations.memory.image == before
    ensures !r.failure.NoBoostFailure? && !r.failure.InvalidRequest? && !r.failure.CurrentAbilityAtLimit?
    ensures OnlyMentalityDiffers(before, mutations.memory.image, mutations.layout, c)
    ensures r.report.current == MentalityState(None, None, None)
            || Reads(mutations.memory.image, mutations.layout, c, previous, r.report.current)
  {
    var rollback := UndoAfterFailure(failed, f, c, applied, mutations, before, image);
    var readFailure, current := TryReadMentality(mutations.memory, c, mutations.layout, previous);
    var observed := if readFailure.NoBoostFailure? then current else MentalityState(None, None, None);
    var failure := if rollback.Unverified? then PartialRollbackUnverified else MapMutationFailure(failed.failure);
    r := Execution(false, failure,
                   MentalityReported(if rollback.Unverified? then PartialUnverified else NotDone, rollback, previous,
                                     observed));
  }

  /** The three changes in turn; the first that fails is reported after everything before it was taken back. */
  method ChangeAll(c: PersonCandidate, previous: MentalityState, targets: MentalityState,
                   mutations: PlayerValueMutationService)
    returns (r: Execution)
    requires c.facet.Player? && SpreadOut(mutations.layout, c) && Chosen(previous, targets)
    requires Reads(mutations.memory.image, mutations.layout, c, previous, previous)
    requires forall f :: IsMentality(previous.Of(f))
    modifies mutations.memory`image
    ensures r.report.MentalityReported? && r.report.previous == previous
    ensures Truthful(r)
    ensures r.succeeded ==>
              && r.failure.NoBoostFailure? && r.report.current == targets
              && MentalityLifted(old(mutations.memory.image), mutations.memory.image, mutations.layout, c, previous, targets)
    ensures !r.succeeded ==>
              !r.failure.NoBoostFailure? && !r.failure.CurrentAbilityAtLimit? && !r.failure.InvalidRequest?
    ensures !r.succeeded && !r.failure.PartialRollbackUnverified? ==>
              mutations.memory.image == old(mutations.memory.image)
    ensures OnlyMentalityDiffers(old(mutations.memory.image), mutations.memory.image, mutations.layout, c)
    ensures !r.succeeded ==>
              || r.report.current == MentalityState(None, None, None)
              || Reads(mutations.memory.image, mutations.layout, c, previous, r.report.current)
    ensures mutations.memory.reliable ==> r.succeeded
  {
    hide Standing, SameBeyond, Stands, Reads, ReadsField, SpreadOut, Progress, OnlyMentalityDiffers, MentalityLifted,
         FieldAddress, Chosen, SameExcept, IsAddressOf, Encode, IsMentality, Transacted, Mapped, Lifted, MentalitySettable,
         Refused, IsEligible, IsMentalityValue, Put, Get, Truthful;
    var memory, layout := mutations.memory, mutations.layout;
    ghost var before, image := memory.image, memory.image;
    NothingApplied(before, layout, c);

    ReadyToChange(before, layout, c, previous, targets, Ambition);
    var ambition, applied := ApplyMentalityChange(Ambition, c, previous.ambition, targets.ambition, mutations, [], before);
    if !ambition.succeeded {
      r := FailedMentalityMutation(ambition, Ambition, c, previous, mutations, applied, before, image);
      return;
    }

    ReadyToChange(before, layout, c, previous, targets, Professionalism);
    image := memory.image;
    var professionalism;
    professionalism, applied :=
      ApplyMentalityChange(Professionalism, c, previous.professionalism, targets.professionalism, mutations, applied, before);
    if !professionalism.succeeded {
      r := FailedMentalityMutation(professionalism, Professionalism, c, previous, mutations, applied, before, image);
      return;
    }

    ReadyToChange(before, layout, c, previous, targets, Determination);
    image := memory.image;
    var determination;
    determination, applied :=
      ApplyMentalityChange(Determination, c, previous.determination, targets.determination, mutations, applied, before);
    if !determination.succeeded {
      r := FailedMentalityMutation(determination, Determination, c, previous, mutations, applied, before, image);
      return;
    }

    assert applied == AllChanges(previous, targets);
    ProgressIsLifted(before, memory.image, layout, c, previous, targets);
    ProgressStaysWithin(before, memory.image, layout, c, applied);
    SuccessIsTruthful(previous, targets);
    r := Execution(true, NoBoostFailure, MentalityReported(Verified, NotNeeded, previous, targets));
  }

  /**
   Lifts the player's known low mentality values. All or nothing: on success every one of them now reads as
   reported and no other byte of memory changed; on any failure that is not reported as unverified, memory is
   byte for byte what it was.
   */
  method ExecuteWonderkidMentality(request: BridgeRequest, c: PersonCandidate, mutations: PlayerValueMutationService)
    returns (r: Execution)
    requires c.facet.Player? && SpreadOut(mutations.layout, c)
    modifies mutations.memory`image
    ensures Truthful(r)
    ensures r.succeeded ==>
              && NamesMentality(request) && r.failure.NoBoostFailure? && r.report.MentalityReported?
              && r.report.previous == Expectations(request)
              && MentalityLifted(old(mutations.memory.image), mutations.memory.image, mutations.layout, c,
                                 Expectations(request), r.report.current)
    ensures !r.succeeded ==> !r.failure.NoBoostFailure? && !r.failure.CurrentAbilityAtLimit?
    ensures r.failure.InvalidRequest? ==> !NamesMentality(request)
    ensures !r.succeeded && !r.failure.PartialRollbackUnverified? ==>
              mutations.memory.image == old(mutations.memory.image)
    ensures OnlyMentalityDiffers(old(mutations.memory.image), mutations.memory.image, mutations.layout, c)
    ensures !r.succeeded && r.report.MentalityReported? ==>
              || r.report.current == MentalityState(None, None, None)
              || Reads(mutations.memory.image, mutations.layout, c, Expectations(request), r.report.current)
    ensures mutations.memory.reliable && NamesMentality(request)
            && Reads(old(mutations.memory.image), mutations.layout, c, Expectations(request), Expectations(request)) ==>
              r.succeeded
  {
    hide Reads, SpreadOut, OnlyMentalityDiffers, MentalityLifted, FieldAddress, Chosen, Readable;
    var memory, layout := mutations.memory, mutations.layout;
    ghost var before := memory.image;
    UnchangedIsWithin(before, layout, c);
    if !NamesMentality(request) {
      return Refuse(InvalidRequest);
    }
    var expectations := Expectations(request);
    ReadsAreUnique(before, layout, c, expectations);
    var readFailure, mentality := TryReadMentality(memory, c, layout, expectations);
    if !readFailure.NoBoostFailure? {
      return Refuse(readFailure);
    }
    if !MatchesExpectations(mentality, expectations) {
      return Refuse(ExpectedValuesMismatch);
    }
    ReadAsExpected(before, layout, c, expectations, mentality);
    var ambitionTarget := ChooseMentalityTarget(mentality.ambition);
    var professionalismTarget := ChooseMentalityTarget(mentality.professionalism);
    var determinationTarget := ChooseMentalityTarget(mentality.determination);
    var targets := MentalityState(ambitionTarget, professionalismTarget, determinationTarget);
    ChosenEach(mentality, targets);
    r := ChangeAll(c, mentality, targets, mutations);
  }

  lemma UnchangedIsWithin(image: Image, layout: MutationLayout, c: PersonCandidate)
    ensures OnlyMentalityDiffers(image, image, layout, c)
  {
  }

  predicate MatchesExpectations(actual: MentalityState, expected: MentalityState) {
    && (expected.ambition.None? || actual.ambition == expected.ambition)
    && (expected.professionalism.None? || actual.professionalism == expected.professionalism)
    && (expected.determination.None? || actual.determination == expected.determination)
  }

  lemma ReadAsExpected(image: Image, layout: MutationLayout, c: PersonCandidate, expected: MentalityState,
                       actual: MentalityState)
    requires Reads(image, layout, c, expected, actual) && MatchesExpectations(actual, expected)
    ensures actual == expected
  {
    forall f ensures actual.Of(f) == expected.Of(f) {
    }
    assert actual.Of(Ambition) == expected.Of(Ambition);
    assert actual.Of(Professionalism) == expected.Of(Professionalism);
    assert actual.Of(Determination) == expected.Of(Determination);
  }

  /** If memory holds the expected values, reading cannot come out otherwise. */
  lemma ReadsAreUnique(image: Image, layout: MutationLayout, c: PersonCandidate, expected: MentalityState)
    ensures Reads(image, layout, c, expected, expected) ==> Readable(image, layout, c, expected)
    ensures forall actual ::
              Reads(image, layout, c, expected, expected) && Reads(image, layout, c, expected, actual) ==>
              MatchesExpectations(actual, expected)
  {
    forall actual | Reads(image, layout, c, expected, expected) && Reads(image, layout, c, expected, actual)
      ensures MatchesExpectations(actual, expected)
    {
      forall f | expected.Of(f).Some? ensures actual.Of(f) == expected.Of(f) {
        assert ReadsField(image, layout, c, f, expected.Of(f)) && ReadsField(image, layout, c, f, actual.Of(f));
      }
      assert expected.Of(Ambition) == expected.ambition && expected.Of(Professionalism) == expected.professionalism;
      assert expected.Of(Determination) == expected.determination;
    }
  }

  lemma ChosenEach(previous: MentalityState, targets: MentalityState)
    requires forall f :: (targets.Of(f) == previous.Of(f) || (IsEligible(previous.Of(f)) && targets.Of(f).Some?))
    requires forall f :: IsEligible(previous.Of(f)) ==>
               targets.Of(f).Some? && MENTALITY_TARGET_MINIMUM <= targets.Of(f).value < MENTALITY_TARGET_MAXIMUM_EXCLUSIVE
    ensures Chosen(previous, targets)
  {
  }

  lemma ReadIsField(image: Image, layout: MutationLayout, c: PersonCandidate, state: MentalityState, f: Field)
    requires Reads(image, layout, c, state, state)
    ensures state.Of(f).Some? ==> ReadsField(image, layout, c, f, state.Of(f))
  {
  }

  /** What a change needs to know about its field. */
  lemma ReadyToChange(before: Image, layout: MutationLayout, c: PersonCandidate, previous: MentalityState,
                      targets: MentalityState, f: Field)
    requires Chosen(previous, targets) && Reads(before, layout, c, previous, previous) && IsMentality(previous.Of(f))
    ensures previous.Of(f).Some? ==> ReadsField(before, layout, c, f, previous.Of(f))
    ensures targets.Of(f).Some? ==> IsMentalityValue(targets.Of(f).value)
  {
    ReadIsField(before, layout, c, previous, f);
    ChosenIsInScale(previous, targets, f);
  }

  // ---------------------------------------------------------------- the service

  /** A completed ability boost: memory and index moved on together, and nothing else did. */
  ghost predicate AbilityRaised(before: Image, after: Image, peopleBefore: People, peopleAfter: People,
                                layout: MutationLayout, c: PersonCandidate, target: int)
  {
    && CaAddress(layout, c).Some? && 0 <= target < 0x1_0000
    && after == Put(before, CaAddress(layout, c).value, U16(target))
    && peopleAfter == peopleBefore[c.uid := c.(ca := target)]
  }

  /** Two images that agree but for one person's current ability. */
  ghost predicate OnlyAbilityDiffers(before: Image, after: Image, layout: MutationLayout, c: PersonCandidate) {
    CaAddress(layout, c).Some? && SameExcept(before, after, CaAddress(layout, c).value, 2)
  }

  /** The outcome of one player boost, as seen from outside. */
  ghost predicate Completed(r: Execution, request: BridgeRequest, before: Image, after: Image, peopleBefore: People,
                            peopleAfter: People, layout: MutationLayout, c: PersonCandidate)
  {
    if request.operation == Some(BOOST_CURRENT_ABILITY) then
      && NamesIncrement(request)
      && c.ca < Boosted(c.ca, c.pa, request.currentAbilityIncrement.value)
      && AbilityRaised(before, after, peopleBefore, peopleAfter, layout, c,
                       Boosted(c.ca, c.pa, request.currentAbilityIncrement.value))
    else
      && NamesMentality(request) && peopleAfter == peopleBefore
      && r.report.MentalityReported?
      && MentalityLifted(before, after, layout, c, Expectations(request), r.report.current)
  }

  /** A boost has nothing to raise exactly when the potential is reached. */
  lemma LimitIsPotential(r: BridgeRequest, c: PersonCandidate)
    requires NamesBoost(r) && r.expectedCurrentAbility == Some(c.ca) && r.expectedPotentialAbility == Some(c.pa)
    ensures NamesIncrement(r) ==>
              (Boosted(c.ca, c.pa, r.currentAbilityIncrement.value) <= c.ca <==>
               r.expectedCurrentAbility == r.expectedPotentialAbility)
  {
  }

  class PlayerBoostOperationService {
    const layouts: LayoutRegistry
    const index: MutationIndex

    constructor (layouts: LayoutRegistry, index: MutationIndex)
      requires index.players
      ensures this.layouts == layouts && this.index == index
    {
      this.layouts, this.index := layouts, index;
    }

    predicate SupportsExactGameBuild(version: string) {
      layouts.resolve(version).Some? && layouts.supportsPlayerBoosts(version)
    }

    predicate HasSupportedLiveIndex(version: string)
      reads index
    {
      SupportsExactGameBuild(version) && index.HasCandidatesFor(version)
    }

    /** Every indexed player keeps its own values apart. */
    ghost predicate Ready(version: string)
      reads index
    {
      && index.players && index.Valid()
      && (layouts.resolve(version).Some? ==>
            forall u :: u in index.people ==> SpreadOut(layouts.resolve(version).value, index.people[u]))
    }

    /** Request, build, index and live memory agree on some person. */
    ghost predicate Locatable(request: BridgeRequest, version: string, image: Image)
      reads index
    {
      exists c, layout :: Located(request, version, image, c, layout)
    }

    /** The index, filled by the named dump of the running build, has the named player. */
    ghost predicate HasNamed(request: BridgeRequest, version: string)
      reads index
    {
      && NamesBoost(request) && SupportsExactGameBuild(version)
      && index.sourceRequestId == request.sourceRequestId && index.gameVersion == Some(version)
      && request.playerUid.value in index.people
    }

    /** The named player's cached abilities are other ones than the request expects. */
    ghost predicate IsOutdated(request: BridgeRequest, version: string)
      reads index
    {
      && HasNamed(request, version)
      && var c := index.people[request.playerUid.value];
         request.expectedCurrentAbility != Some(c.ca) || request.expectedPotentialAbility != Some(c.pa)
    }

    /** The indexed player a request is about, if the request, the build, the index and live memory all agree. */
    method Locate(request: BridgeRequest, version: string, memory: Memory)
      returns (failure: BoostFailure, c: PersonCandidate, layout: MutationLayout)
      requires Ready(version)
      ensures failure.NoBoostFailure? ==> Located(request, version, memory.image, c, layout)
      ensures failure.InvalidRequest? <==> !NamesBoost(request)
      ensures failure.UnsupportedGameBuild? <==> NamesBoost(request) && !SupportsExactGameBuild(version)
      ensures NamesBoost(request) && SupportsExactGameBuild(version) ==>
                && (failure.NoLiveScan? <==> index.sourceRequestId.None?)
                && (failure.OtherSourceRequest? <==>
                      index.sourceRequestId.Some?
                      && (index.sourceRequestId != request.sourceRequestId
                          || (request.playerUid.value in index.people && index.gameVersion != Some(version))))
                && (failure.PersonNotFound? <==>
                      index.sourceRequestId == request.sourceRequestId && request.playerUid.value !in index.people)
      ensures !failure.CurrentAbilityAtLimit? && !failure.PartialRollbackUnverified?
      ensures !HasNamed(request, version) ==> !failure.NoBoostFailure? && !PreservesLiveIndex(failure)
      ensures IsOutdated(request, version) ==> failure.ExpectedValuesMismatch?
      ensures memory.reliable && Locatable(request, version, memory.image) ==>
                failure.NoBoostFailure?
    {
      c := PersonCandidate(0, 0, 0, 0, 0, 0, Player);
      layout := MutationLayout(0, 0, 0, 0, 0, 0, [], []);
      if !NamesBoost(request) {
        return InvalidRequest, c, layout;
      }
      if layouts.resolve(version).None? || !layouts.supportsPlayerBoosts(version) {
        return UnsupportedGameBuild, c, layout;
      }
      layout := layouts.resolve(version).value;
      match index.TryGet(request.sourceRequestId.value, request.playerUid.value) {
        case MissingIndex => return NoLiveScan, c, layout;
        case SourceRequestMismatch => return OtherSourceRequest, c, layout;
        case NotFound => return PersonNotFound, c, layout;
        case Found(indexedVersion, candidate) =>
          if indexedVersion != version {
            return OtherSourceRequest, c, layout;
          }
          c := candidate;
      }
      if c.ca != request.expectedCurrentAbility.value || c.pa != request.expectedPotentialAbility.value {
        return ExpectedValuesMismatch, c, layout;
      }
      failure := TryReadLiveState(memory, layout, c, true, c.ca, c.pa);
    }

    ghost predicate Located(request: BridgeRequest, version: string, image: Image, c: PersonCandidate,
                            layout: MutationLayout)
      reads index
    {
      && NamesBoost(request) && SupportsExactGameBuild(version) && layouts.resolve(version) == Some(layout)
      && index.sourceRequestId == request.sourceRequestId && index.gameVersion == Some(version)
      && request.playerUid.value in index.people && c == index.people[request.playerUid.value] && c.facet.Player?
      && c.uid == request.playerUid.value
      && request.expectedCurrentAbility == Some(c.ca) && request.expectedPotentialAbility == Some(c.pa)
      && LiveMatches(image, layout, c, c.ca, c.pa)
    }

    /**
     Raises current ability by the increment, capped by potential ability and the scale. The index is moved on
     together with memory: once the write is verified the update cannot be refused.
     */
    method ExecuteCurrentAbility(request: BridgeRequest, version: string, c: PersonCandidate, layout: MutationLayout,
                                 mutations: PlayerValueMutationService)
      returns (r: Execution)
      requires Ready(version) && mutations.layout == layout
                 && Located(request, version, mutations.memory.image, c, layout)
      modifies mutations.memory`image, index`people
      ensures index.Valid() && Truthful(r)
      ensures !r.succeeded && r.report.AbilityReported? ==>
                && r.report.ability.report.current.None? && r.report.ability.report.potential == Some(c.pa)
                && (r.report.ability.report.previous.Some? ==> r.report.ability.report.previous == Some(c.ca))
      ensures r.succeeded ==>
                && NamesIncrement(request) && r.failure.NoBoostFailure?
                && c.ca < Boosted(c.ca, c.pa, request.currentAbilityIncrement.value)
                && AbilityRaised(old(mutations.memory.image), mutations.memory.image, old(index.people), index.people,
                                 layout, c, Boosted(c.ca, c.pa, request.currentAbilityIncrement.value))
                && r.report == AbilityReported(AbilityBoost(Verified, NotNeeded,
                     AbilityReport(Some(c.ca), Some(Boosted(c.ca, c.pa, request.currentAbilityIncrement.value)), Some(c.pa))))
      ensures !r.succeeded ==> index.people == old(index.people) && !r.failure.NoBoostFailure?
      ensures !r.succeeded && !r.failure.PartialRollbackUnverified? ==>
                mutations.memory.image == old(mutations.memory.image)
      ensures OnlyAbilityDiffers(old(mutations.memory.image), mutations.memory.image, layout, c)
      ensures r.failure.InvalidRequest? <==> !NamesIncrement(request)
      ensures r.failure.CurrentAbilityAtLimit? <==>
                NamesIncrement(request) && Boosted(c.ca, c.pa, request.currentAbilityIncrement.value) <= c.ca
      ensures mutations.memory.reliable && NamesIncrement(request) && !r.failure.CurrentAbilityAtLimit? ==> r.succeeded
    {
      if !NamesIncrement(request) {
        return Refuse(InvalidRequest);
      }
      var target := Boosted(c.ca, c.pa, request.currentAbilityIncrement.value);
      if target <= c.ca {
        return Refuse(CurrentAbilityAtLimit);
      }
      var mutation := mutations.SetCurrentAbility(c, c.ca, Some(c.pa), target);
      if !mutation.succeeded {
        var unverified := mutation.rollback.Unverified?;
        return Execution(false, if unverified then PartialRollbackUnverified else MapMutationFailure(mutation.failure),
                         AbilityReported(AbilityBoost(if unverified then PartialUnverified else NotDone, mutation.rollback,
                                                      AbilityReport(mutation.previousValue, None, Some(c.pa)))));
      }
      var updated := index.TryUpdateCurrentAbility(request.sourceRequestId.value, c.uid, c.ca, c.pa,
                                                   mutation.verifiedValue.value);
      // The source clears the index when the update is refused; it never is.
      assert updated;
      r := Execution(true, NoBoostFailure,
                     AbilityReported(AbilityBoost(Verified, mutation.rollback,
                                                  AbilityReport(mutation.previousValue, mutation.verifiedValue, Some(c.pa)))));
    }

    /**
     Executes one accepted player boost. It completes in full, or leaves memory and index as they were, or
     reports that the rollback is unverified; in every case only the named player's own bytes can change.
     */
    method Execute(request: BridgeRequest, version: string, memory: Memory)
      returns (r: Execution, c: PersonCandidate, layout: MutationLayout)
      requires Ready(version)
      modifies memory`image, index`people
      ensures index.Valid() && Truthful(r)
      ensures r.succeeded ==>
                && r.failure.NoBoostFailure? && old(Located(request, version, memory.image, c, layout))
                && Completed(r, request, old(memory.image), memory.image, old(index.people), index.people, layout, c)
      ensures !r.succeeded ==> index.people == old(index.people) && !r.failure.NoBoostFailure?
      ensures !r.succeeded && !r.failure.PartialRollbackUnverified? ==> memory.image == old(memory.image)
      ensures memory.image != old(memory.image) ==>
                && old(Located(request, version, memory.image, c, layout))
                && (OnlyAbilityDiffers(old(memory.image), memory.image, layout, c)
                    || OnlyMentalityDiffers(old(memory.image), memory.image, layout, c))
      ensures r.failure.InvalidRequest? ==> !Executable(request)
      ensures r.failure.CurrentAbilityAtLimit? ==>
                && old(Located(request, version, memory.image, c, layout)) && NamesIncrement(request)
                && Boosted(c.ca, c.pa, request.currentAbilityIncrement.value) <= c.ca
      ensures !old(HasNamed(request, version)) ==> !r.succeeded && !PreservesLiveIndex(r.failure)
      ensures old(IsOutdated(request, version)) ==> r.failure.ExpectedValuesMismatch?
      ensures memory.reliable && old(Locatable(request, version, memory.image)) ==>
                && old(Located(request, version, memory.image, c, layout))
                && (request.operation == Some(BOOST_CURRENT_ABILITY) && NamesIncrement(request) ==>
                      if request.expectedCurrentAbility == request.expectedPotentialAbility
                      then r.failure.CurrentAbilityAtLimit? else r.succeeded)
                && (NamesMentality(request) ==>
                      Reads(old(memory.image), layout, c, Expectations(request), Expectations(request)) ==> r.succeeded)
    {
      hide SpreadOut, LiveMatches, MentalityLifted, OnlyMentalityDiffers, SameExcept, Reads, Boosted;
      var failure;
      failure, c, layout := Locate(request, version, memory);
      if !failure.NoBoostFailure? {
        return Refuse(failure), c, layout;
      }
      LimitIsPotential(request, c);
      var mutations := new PlayerValueMutationService(memory, layout);
      if request.operation == Some(BOOST_CURRENT_ABILITY) {
        r := ExecuteCurrentAbility(request, version, c, layout, mutations);
      } else {
        r := ExecuteWonderkidMentality(request, c, mutations);
      }
    }
  }
}
