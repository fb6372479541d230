/**
 The three mentality values of one player, written one after another and undone in reverse. Undoing is
 exact because only values whose stored byte is exactly their encoding are ever undone.
 */
module Mentality {
  import opened Wrappers
  import opened ScanModel
  import opened ProcessMemory
  import opened PersonLayout
  import opened ValueMutations
  import opened Boosts

  datatype MentalityState = MentalityState(
    ambition: Option<int>, professionalism: Option<int>, determination: Option<int>)
  {
    function Of(f: Field): Option<int> {
      match f
      case Ambition => ambition
      case Professionalism => professionalism
      case Determination => determination
    }
  }

  datatype MentalityMutation = MentalityMutation(field: Field, previous: int, target: int)

  /** Every requested value is read true, and nothing else is read. */
  ghost predicate Reads(image: Image, layout: MutationLayout, c: PersonCandidate, requested: MentalityState,
                        state: MentalityState)
  {
    forall f :: if requested.Of(f).None? then state.Of(f).None? else ReadsField(image, layout, c, f, state.Of(f))
  }

  ghost predicate ReadsField(image: Image, layout: MutationLayout, c: PersonCandidate, f: Field, value: Option<int>) {
    var address := FieldAddress(layout, c, f);
    value.Some? && address.Some? && address.value in image && Decode(f, image[address.value]) == value
  }

  // ---------------------------------------------------------------- undoing

  ghost predicate IsAddressOf(layout: MutationLayout, c: PersonCandidate, applied: seq<MentalityMutation>, k: nat) {
    exists j :: 0 <= j < |applied| && FieldAddress(layout, c, applied[j].field) == Some(k)
  }

  /** Applied mutations concern different mapped fields, and memory holds their targets. */
  ghost predicate Standing(image: Image, layout: MutationLayout, c: PersonCandidate, applied: seq<MentalityMutation>) {
    && c.facet.Player?
    && (forall i, j :: 0 <= i < j < |applied| ==> applied[i].field != applied[j].field)
    && forall j :: 0 <= j < |applied| ==> Stands(image, layout, c, applied[j], applied[j].target)
  }

  /** The byte of the mutation's field is the encoding of the value. */
  ghost predicate Stands(image: Image, layout: MutationLayout, c: PersonCandidate, m: MentalityMutation, value: int) {
    var address := FieldAddress(layout, c, m.field);
    && IsMentalityValue(m.previous) && IsMentalityValue(m.target) && IsMentalityValue(value)
    && address.Some? && address.value in image && image[address.value] == Encode(m.field, value)
  }

  /** Everything outside the applied fields is as it was. */
  ghost predicate SameBeyond(before: Image, after: Image, layout: MutationLayout, c: PersonCandidate,
                             applied: seq<MentalityMutation>)
  {
    && after.Keys == before.Keys
    && forall k :: k in before && !IsAddressOf(layout, c, applied, k) ==> after[k] == before[k]
  }

  /**
   Takes the applied mutations back, last first. Unless the verdict is `Unverified` every one of them is
   back at its previous value; nothing but their bytes can have changed.
   */
  method RollbackAppliedMentality(mutations: PlayerValueMutationService, c: PersonCandidate,
                                  applied: seq<MentalityMutation>)
    returns (rollback: Rollback)
    requires SpreadOut(mutations.layout, c) && Standing(mutations.memory.image, mutations.layout, c, applied)
    modifies mutations.memory`image
    ensures SameBeyond(old(mutations.memory.image), mutations.memory.image, mutations.layout, c, applied)
    ensures !rollback.Unverified? ==>
              forall j :: 0 <= j < |applied| ==>
                Stands(mutations.memory.image, mutations.layout, c, applied[j], applied[j].previous)
    ensures rollback.NotNeeded? <==> applied == []
    ensures mutations.memory.reliable ==> !rollback.Unverified?
  {
    hide FieldAddress, Encode, SpreadOut, Stands, SameExcept, IsAddressOf, IsMentalityValue;
    ghost var memory, layout, before := mutations.memory, mutations.layout, mutations.memory.image;
    var index := |applied|;
    while index > 0
      invariant 0 <= index <= |applied|
      invariant SameBeyond(before, memory.image, layout, c, applied)
      invariant Standing(memory.image, layout, c, applied[..index])
      invariant forall j :: index <= j < |applied| ==> Stands(memory.image, layout, c, applied[j], applied[j].previous)
    {
      index := index - 1;
      var mutation := applied[index];
      ghost var image := memory.image;
      TargetIsSettable(image, layout, c, applied[..index + 1], mutation);
      var restore := mutations.SetMentality(mutation.field, c, mutation.target, mutation.previous);
      OneUndone(before, image, memory.image, layout, c, applied, index, restore);
      if !restore.succeeded {
        return Unverified;
      }
    }
    rollback := if |applied| == 0 then NotNeeded else Restored;
  }

  lemma TargetIsSettable(image: Image, layout: MutationLayout, c: PersonCandidate, standing: seq<MentalityMutation>,
                         m: MentalityMutation)
    requires Standing(image, layout, c, standing) && standing != [] && m == standing[|standing| - 1]
    ensures MentalitySettable(image, layout, m.field, c, m.target, m.previous)
  {
    assert Stands(image, layout, c, m, m.target);
    EncodingRoundTrips(m.field, m.target, 0);
  }

  lemma FieldsApart(layout: MutationLayout, c: PersonCandidate, f: Field, g: Field)
    requires SpreadOut(layout, c) && f != g && FieldAddress(layout, c, f).Some?
    ensures FieldAddress(layout, c, f) != FieldAddress(layout, c, g)
  {
    assert Apart(FieldAddress(layout, c, f), 1, FieldAddress(layout, c, g), 1);
  }

  /** A write to another field leaves a field's value standing. */
  lemma StillStands(image: Image, after: Image, layout: MutationLayout, c: PersonCandidate, m: MentalityMutation,
                    value: int, written: Field)
    requires SpreadOut(layout, c) && Stands(image, layout, c, m, value) && m.field != written
    requires FieldAddress(layout, c, written).Some?
    requires SameExcept(image, after, FieldAddress(layout, c, written).value, 1)
    ensures Stands(after, layout, c, m, value)
  {
    FieldsApart(layout, c, m.field, written);
    hide FieldAddress, SpreadOut, Encode;
  }

  lemma WriteStaysWithin(before: Image, image: Image, after: Image, layout: MutationLayout, c: PersonCandidate,
                         applied: seq<MentalityMutation>, index: nat)
    requires index < |applied| && SameBeyond(before, image, layout, c, applied)
    requires FieldAddress(layout, c, applied[index].field).Some?
    requires SameExcept(image, after, FieldAddress(layout, c, applied[index].field).value, 1)
    ensures SameBeyond(before, after, layout, c, applied)
  {
    hide FieldAddress;
    assert IsAddressOf(layout, c, applied, FieldAddress(layout, c, applied[index].field).value);
  }

  lemma StandsSomewhere(image: Image, layout: MutationLayout, c: PersonCandidate, m: MentalityMutation, value: int)
    requires Stands(image, layout, c, m, value)
    ensures FieldAddress(layout, c, m.field).Some? && IsMentalityValue(m.previous) && IsMentalityValue(m.target)
  {
  }

  lemma WrittenStands(image: Image, after: Image, layout: MutationLayout, c: PersonCandidate, m: MentalityMutation,
                      was: int, value: int)
    requires Stands(image, layout, c, m, was) && IsMentalityValue(value)
    requires after == Put(image, FieldAddress(layout, c, m.field).value, [Encode(m.field, value)])
    ensures Stands(after, layout, c, m, value)
  {
    hide FieldAddress, Encode;
  }

  lemma OneUndone(before: Image, image: Image, after: Image, layout: MutationLayout, c: PersonCandidate,
                  applied: seq<MentalityMutation>, index: nat, r: MutationResult)
    requires SpreadOut(layout, c) && index < |applied| && SameBeyond(before, image, layout, c, applied)
    requires Standing(image, layout, c, applied[..index + 1])
    requires forall i, j :: 0 <= i < j < |applied| ==> applied[i].field != applied[j].field
    requires forall j :: index < j < |applied| ==> Stands(image, layout, c, applied[j], applied[j].previous)
    requires Stands(image, layout, c, applied[index], applied[index].target)
    requires Transacted(image, after, FieldAddress(layout, c, applied[index].field).value,
                        [Encode(applied[index].field, applied[index].previous)], r)
    ensures SameBeyond(before, after, layout, c, applied)
    ensures r.succeeded ==>
              && Standing(after, layout, c, applied[..index])
              && forall j :: index <= j < |applied| ==> Stands(after, layout, c, applied[j], applied[j].previous)
  {
    hide FieldAddress, SpreadOut, Encode, Stands, SameBeyond, SameExcept, IsMentalityValue;
    var m := applied[index];
    StandsSomewhere(image, layout, c, m, m.target);
    WriteStaysWithin(before, image, after, layout, c, applied, index);
    if r.succeeded {
      WrittenStands(image, after, layout, c, m, m.target, m.previous);
      forall j | 0 <= j < index ensures Stands(after, layout, c, applied[j], applied[j].target) {
        assert applied[j] == applied[..index + 1][j];
        StillStands(image, after, layout, c, applied[j], applied[j].target, m.field);
      }
      forall j | index < j < |applied| ensures Stands(after, layout, c, applied[j], applied[j].previous) {
        StillStands(image, after, layout, c, applied[j], applied[j].previous, m.field);
      }
    }
  }

  // ---------------------------------------------------------------- reading

  /** Reads one value if it is wanted. */
  method TryReadField(memory: Memory, c: PersonCandidate, layout: MutationLayout, f: Field, required: bool)
    returns (failure: BoostFailure, value: Option<int>)
    ensures failure.NoBoostFailure? && required ==> ReadsField(memory.image, layout, c, f, value)
    ensures !required ==> failure.NoBoostFailure? && value.None?
    ensures !failure.NoBoostFailure? ==> failure.LiveReadFailed? || failure.LiveValueInvalid?
    ensures memory.reliable && (exists v :: ReadsField(memory.image, layout, c, f, v)) ==> failure.NoBoostFailure?
  {
    if !required {
      return NoBoostFailure, None;
    }
    var address: Option<Word64>;
    if f.Determination? {
      var offset := TryFindOffset(layout.attributeEntries, KeyOf(f));
      var attributes := TryAdd(c.blockAddress, layout.attrsOffset);
      address := if offset.None? || attributes.None? then None else TryAdd(attributes.value, offset.value);
    } else {
      var offset := TryFindOffset(layout.personalityEntries, KeyOf(f));
      address := if offset.None? then None else TryAdd(c.objectAddress, offset.value);
    }
    if address.None? {
      return LiveReadFailed, None;
    }
    var raw := memory.TryReadByte(address.value);
    if raw.None? {
      return LiveReadFailed, None;
    }
    value := Decode(f, raw.value);
    failure := if value.None? then LiveValueInvalid else NoBoostFailure;
  }

  method TryReadMentality(memory: Memory, c: PersonCandidate, layout: MutationLayout, requested: MentalityState)
    returns (failure: BoostFailure, state: MentalityState)
    ensures failure.NoBoostFailure? ==> Reads(memory.image, layout, c, requested, state)
    ensures !failure.NoBoostFailure? ==> failure.LiveReadFailed? || failure.LiveValueInvalid?
    ensures memory.reliable && Readable(memory.image, layout, c, requested) ==> failure.NoBoostFailure?
  {
    state := MentalityState(None, None, None);
    var ambition, professionalism, determination;
    failure, ambition := TryReadField(memory, c, layout, Ambition, requested.Of(Ambition).Some?);
    if !failure.NoBoostFailure? {
      return;
    }
    failure, professionalism := TryReadField(memory, c, layout, Professionalism, requested.Of(Professionalism).Some?);
    if !failure.NoBoostFailure? {
      return;
    }
    failure, determination := TryReadField(memory, c, layout, Determination, requested.Of(Determination).Some?);
    if !failure.NoBoostFailure? {
      return;
    }
    state := MentalityState(ambition, professionalism, determination);
  }

  /** Every requested value is there to be read. */
  ghost predicate Readable(image: Image, layout: MutationLayout, c: PersonCandidate, requested: MentalityState) {
    forall f :: requested.Of(f).Some? ==> exists v :: ReadsField(image, layout, c, f, v)
  }

  // ---------------------------------------------------------------- applying

  /**
   How far a boost has got from `before`: the applied fields hold their targets, nothing else differs, and
   every applied field but Determination was stored exactly as it would be written back.
   */
  ghost predicate Progress(before: Image, image: Image, layout: MutationLayout, c: PersonCandidate,
                           applied: seq<MentalityMutation>)
  {
    && Standing(image, layout, c, applied)
    && SameBeyond(before, image, layout, c, applied)
    && forall j :: 0 <= j < |applied| ==> ReadsField(before, layout, c, applied[j].field, Some(applied[j].previous))
  }

  /** A field that has not been applied still reads as before. */
  lemma UntouchedField(before: Image, image: Image, layout: MutationLayout, c: PersonCandidate,
                       applied: seq<MentalityMutation>, f: Field, value: Option<int>)
    requires SpreadOut(layout, c) && SameBeyond(before, image, layout, c, applied)
    requires forall j :: 0 <= j < |applied| ==> applied[j].field != f
    requires ReadsField(before, layout, c, f, value)
    ensures ReadsField(image, layout, c, f, value)
    ensures !IsAddressOf(layout, c, applied, FieldAddress(layout, c, f).value)
  {
    forall j | 0 <= j < |applied| ensures FieldAddress(layout, c, applied[j].field) != FieldAddress(layout, c, f) {
      assert Apart(FieldAddress(layout, c, applied[j].field), 1, FieldAddress(layout, c, f), 1);
    }
  }

  lemma OneApplied(before: Image, image: Image, after: Image, layout: MutationLayout, c: PersonCandidate,
                   applied: seq<MentalityMutation>, m: MentalityMutation)
    requires SpreadOut(layout, c) && Progress(before, image, layout, c, applied)
    requires forall j :: 0 <= j < |applied| ==> applied[j].field != m.field
    requires ReadsField(before, layout, c, m.field, Some(m.previous)) && IsMentalityValue(m.target)
    requires after == Put(image, FieldAddress(layout, c, m.field).value, [Encode(m.field, m.target)])
    requires c.facet.Player?
    ensures Progress(before, after, layout, c, applied + [m])
  {
    var all := applied + [m];
    UntouchedField(before, image, layout, c, applied, m.field, Some(m.previous));
    ReadIsMentality(before, image, layout, c, m.field, m.previous);
    hide FieldAddress, SpreadOut, Encode, Decode, ReadsField, IsMentalityValue, SameBeyond, Stands;
    AppliedStands(image, after, layout, c, applied, m);
    MoreMayDiffer(before, image, layout, c, applied, m);
    WriteStaysWithin(before, image, after, layout, c, all, |applied|);
  }

  lemma ReadIsMentality(before: Image, image: Image, layout: MutationLayout, c: PersonCandidate, f: Field, value: int)
    requires ReadsField(before, layout, c, f, Some(value)) && ReadsField(image, layout, c, f, Some(value))
    ensures IsMentalityValue(value) && FieldAddress(layout, c, f).Some? && FieldAddress(layout, c, f).value in image
  {
    EncodingRoundTrips(f, 1, image[FieldAddress(layout, c, f).value]);
  }

  lemma MoreMayDiffer(before: Image, image: Image, layout: MutationLayout, c: PersonCandidate,
                      applied: seq<MentalityMutation>, m: MentalityMutation)
    requires SameBeyond(before, image, layout, c, applied)
    ensures SameBeyond(before, image, layout, c, applied + [m])
  {
    hide FieldAddress;
    forall k | k in before && !IsAddressOf(layout, c, applied + [m], k) ensures image[k] == before[k] {
      forall j | 0 <= j < |applied| ensures FieldAddress(layout, c, applied[j].field) != Some(k) {
        assert applied[j] == (applied + [m])[j];
      }
    }
  }

  lemma AppliedStands(image: Image, after: Image, layout: MutationLayout, c: PersonCandidate,
                      applied: seq<MentalityMutation>, m: MentalityMutation)
    requires SpreadOut(layout, c) && Standing(image, layout, c, applied)
    requires forall j :: 0 <= j < |applied| ==> applied[j].field != m.field
    requires FieldAddress(layout, c, m.field).Some? && FieldAddress(layout, c, m.field).value in image
    requires IsMentalityValue(m.previous) && IsMentalityValue(m.target)
    requires after == Put(image, FieldAddress(layout, c, m.field).value, [Encode(m.field, m.target)])
    ensures Standing(after, layout, c, applied + [m])
  {
    var all := applied + [m];
    assert Stands(after, layout, c, m, m.target);
    hide FieldAddress, SpreadOut, Encode, Stands, IsMentalityValue;
    forall j | 0 <= j < |all| ensures Stands(after, layout, c, all[j], all[j].target) {
      if j < |applied| {
        StillStands(image, after, layout, c, applied[j], applied[j].target, m.field);
      }
    }
  }

  /** The change of one field, if there is anything to change. */
  function Change(f: Field, previous: Option<int>, target: Option<int>): seq<MentalityMutation> {
    if previous.Some? && target.Some? && target != previous then [MentalityMutation(f, previous.value, target.value)]
    else []
  }

  /** Applies one change, unless there is nothing to change. */
  method ApplyMentalityChange(f: Field, c: PersonCandidate, previous: Option<int>, target: Option<int>,
                              mutations: PlayerValueMutationService, applied: seq<MentalityMutation>,
                              ghost before: Image)
    returns (r: MutationResult, nowApplied: seq<MentalityMutation>)
    requires SpreadOut(mutations.layout, c) && c.facet.Player?
    requires Progress(before, mutations.memory.image, mutations.layout, c, applied)
    requires forall j :: 0 <= j < |applied| ==> applied[j].field != f
    requires previous.Some? ==> ReadsField(before, mutations.layout, c, f, previous)
    requires target.Some? ==> IsMentalityValue(target.value)
    modifies mutations.memory`image
    ensures nowApplied == if r.succeeded then applied + Change(f, previous, target) else applied
    ensures r.succeeded ==> Progress(before, mutations.memory.image, mutations.layout, c, nowApplied)
    ensures !r.succeeded ==>
              && ReadsField(before, mutations.layout, c, f, previous)
              && !r.failure.ExpectedValueMismatch? && !r.failure.TargetExceedsPotentialAbility?
              && (!r.rollback.Unverified? ==> mutations.memory.image == old(mutations.memory.image))
              && SameExcept(old(mutations.memory.image), mutations.memory.image,
                            FieldAddress(mutations.layout, c, f).value, 1)
    ensures mutations.memory.reliable ==> r.succeeded
  {
    if previous.None? || target.None? || target == previous {
      assert applied + [] == applied;
      return MutationResult(true, NoFailure, previous, target, NotNeeded), applied;
    }
    ghost var image := mutations.memory.image;
    UntouchedField(before, image, mutations.layout, c, applied, f, previous);
    r := mutations.SetMentality(f, c, previous.value, target.value);
    nowApplied := applied;
    if r.succeeded {
      var m := MentalityMutation(f, previous.value, target.value);
      OneApplied(before, image, mutations.memory.image, mutations.layout, c, applied, m);
      nowApplied := applied + [m];
    }
  }

  // ---------------------------------------------------------------- all or nothing

  /** When every applied field is exactly encoded, undoing all of them gives the first image again. */
  lemma UndoneIsBefore(before: Image, image: Image, after: Image, layout: MutationLayout, c: PersonCandidate,
                       applied: seq<MentalityMutation>)
    requires Progress(before, image, layout, c, applied) && SameBeyond(image, after, layout, c, applied)
    requires forall j :: 0 <= j < |applied| ==> Stands(after, layout, c, applied[j], applied[j].previous)
    requires forall j :: 0 <= j < |applied| ==> !applied[j].field.Determination?
    ensures after == before
  {
    forall k | k in before ensures after[k] == before[k] {
      if IsAddressOf(layout, c, applied, k) {
        var j :| 0 <= j < |applied| && FieldAddress(layout, c, applied[j].field) == Some(k);
        assert Stands(after, layout, c, applied[j], applied[j].previous);
        assert ReadsField(before, layout, c, applied[j].field, Some(applied[j].previous));
      }
    }
  }

  function CombineRollback(first: Rollback, second: Rollback): Rollback {
    if first.Unverified? || second.Unverified? then Unverified
    else if first.Restored? || second.Restored? then Restored
    else NotNeeded
  }

  /** Two images that agree but for the mentality bytes of one player. */
  ghost predicate OnlyMentalityDiffers(before: Image, after: Image, layout: MutationLayout, c: PersonCandidate) {
    && after.Keys == before.Keys
    && forall k :: k in before && (forall f :: FieldAddress(layout, c, f) != Some(k)) ==> after[k] == before[k]
  }

  /**
   After a failed change: takes back what was applied and combines the verdicts. Only a combined verdict of
   `Unverified` may leave memory different, and then only in the player's mentality bytes.
   */
  method UndoAfterFailure(failed: MutationResult, f: Field, c: PersonCandidate, applied: seq<MentalityMutation>,
                          mutations: PlayerValueMutationService, ghost before: Image, ghost image: Image)
    returns (rollback: Rollback)
    requires SpreadOut(mutations.layout, c) && Progress(before, image, mutations.layout, c, applied)
    requires forall j :: 0 <= j < |applied| ==> applied[j].field != f && !applied[j].field.Determination?
    requires FieldAddress(mutations.layout, c, f).Some?
    requires SameExcept(image, mutations.memory.image, FieldAddress(mutations.layout, c, f).value, 1)
    requires !failed.rollback.Unverified? ==> mutations.memory.image == image
    modifies mutations.memory`image
    ensures !rollback.Unverified? ==> mutations.memory.image == before
    ensures OnlyMentalityDiffers(before, mutations.memory.image, mutations.layout, c)
  {
    hide FieldAddress, Encode, SpreadOut, Stands, SameExcept, IsAddressOf, OnlyMentalityDiffers, Standing, SameBeyond,
         IsMentalityValue;
    ghost var layout, failedImage := mutations.layout, mutations.memory.image;
    StillStanding(image, failedImage, layout, c, applied, f);
    var undone := RollbackAppliedMentality(mutations, c, applied);
    rollback := CombineRollback(failed.rollback, undone);
    OnlyFieldsDiffer(before, image, failedImage, mutations.memory.image, layout, c, applied, f);
    if !rollback.Unverified? {
      UndoneIsBefore(before, image, mutations.memory.image, layout, c, applied);
    }
  }

  /** Applying some fields, failing at another and undoing what was applied touches mentality bytes only. */
  lemma OnlyFieldsDiffer(before: Image, image: Image, failedImage: Image, after: Image, layout: MutationLayout,
                         c: PersonCandidate, applied: seq<MentalityMutation>, f: Field)
    requires SameBeyond(before, image, layout, c, applied) && SameBeyond(failedImage, after, layout, c, applied)
    requires FieldAddress(layout, c, f).Some? && SameExcept(image, failedImage, FieldAddress(layout, c, f).value, 1)
    ensures OnlyMentalityDiffers(before, after, layout, c)
  {
    hide FieldAddress;
  }

  lemma StillStanding(image: Image, after: Image, layout: MutationLayout, c: PersonCandidate,
                      applied: seq<MentalityMutation>, f: Field)
    requires SpreadOut(layout, c) && Standing(image, layout, c, applied)
    requires FieldAddress(layout, c, f).Some? && SameExcept(image, after, FieldAddress(layout, c, f).value, 1)
    requires forall j :: 0 <= j < |applied| ==> applied[j].field != f
    ensures Standing(after, layout, c, applied)
  {
    forall j | 0 <= j < |applied| ensures Stands(after, layout, c, applied[j], applied[j].target) {
      assert Apart(FieldAddress(layout, c, applied[j].field), 1, FieldAddress(layout, c, f), 1);
    }
  }
}
