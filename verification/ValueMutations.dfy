/**
 Changing one value of one person: re-read it, write, read back, and on any doubt put the old bytes back.
 Memory may fail at every access; the results say what is known about it afterwards.
 */
module ValueMutations {
  import opened Wrappers
  import opened ScanModel
  import opened ProcessMemory
  import opened PersonLayout

  datatype Failure =
    | NoFailure | InvalidCandidate | InvalidValue | InvalidLiveValue | LayoutInvalid | AddressOverflow | ReadFailed
    | ExpectedValueMismatch | TargetExceedsPotentialAbility | WriteFailed | ReadbackFailed | ReadbackMismatch

  datatype Rollback = NotNeeded | Restored | Unverified

  datatype MutationResult = MutationResult(
    succeeded: bool,
    failure: Failure,
    previousValue: Option<int>,
    verifiedValue: Option<int>,
    rollback: Rollback)

  function Failed(failure: Failure, previousValue: Option<int>, rollback: Rollback): MutationResult {
    MutationResult(false, failure, previousValue, None, rollback)
  }

  /**
   What a verdict promises about memory: success, that exactly the target bytes were written; a failure that
   is not `Unverified`, that memory is what it was; and in any case that only the footprint may differ.
   */
  ghost predicate Transacted(before: Image, after: Image, address: nat, target: seq<Byte>, r: MutationResult) {
    && (r.succeeded ==> after == Put(before, address, target) && r.failure.NoFailure? && r.rollback.NotNeeded?)
    && (!r.succeeded ==> !r.failure.NoFailure? && r.verifiedValue.None?)
    && (!r.succeeded && !r.rollback.Unverified? ==> after == before)
    && SameExcept(before, after, address, |target|)
  }

  /** A verdict reached before anything was written. */
  ghost predicate Refused(before: Image, after: Image, r: MutationResult) {
    !r.succeeded && !r.failure.NoFailure? && r.verifiedValue.None? && r.rollback.NotNeeded? && after == before
  }

  method Matches(memory: Memory, address: nat, expected: seq<Byte>) returns (same: bool)
    ensures same ==> Mapped(memory.image, address, |expected|) && Get(memory.image, address, |expected|) == expected
    ensures memory.reliable && Mapped(memory.image, address, |expected|) ==>
              (same <==> Get(memory.image, address, |expected|) == expected)
  {
    var ok, current, bytesRead := memory.TryRead(address, |expected|);
    same := ok && bytesRead == |expected| && current == expected;
  }

  method Recover(memory: Memory, address: nat, previous: seq<Byte>, previousValue: int, failure: Failure,
                 ghost before: Image)
    returns (r: MutationResult)
    requires !failure.NoFailure?
    requires Mapped(before, address, |previous|) && Get(before, address, |previous|) == previous
    requires SameExcept(before, memory.image, address, |previous|)
    modifies memory`image
    ensures !r.succeeded && r.failure == failure && r.previousValue == Some(previousValue)
    ensures Transacted(before, memory.image, address, previous, r)
  {
    var intact := Matches(memory, address, previous);
    if intact {
      SameBytesSameImage(before, memory.image, address, |previous|);
      return Failed(failure, Some(previousValue), NotNeeded);
    }
    var _, _ := memory.TryWrite(address, previous);
    var restored := Matches(memory, address, previous);
    if restored {
      SameBytesSameImage(before, memory.image, address, |previous|);
    }
    r := Failed(failure, Some(previousValue), if restored then Restored else Unverified);
  }

  method WriteAndVerify(memory: Memory, address: nat, previous: seq<Byte>, target: seq<Byte>, previousValue: int,
                        targetValue: int)
    returns (r: MutationResult)
    requires |previous| == |target|
    requires Mapped(memory.image, address, |previous|) && Get(memory.image, address, |previous|) == previous
    modifies memory`image
    ensures Transacted(old(memory.image), memory.image, address, target, r)
    ensures r.previousValue == Some(previousValue) && (r.succeeded ==> r.verifiedValue == Some(targetValue))
    ensures !r.succeeded ==> r.failure.WriteFailed? || r.failure.ReadbackFailed? || r.failure.ReadbackMismatch?
    ensures memory.reliable ==> r.succeeded
  {
    ghost var before := memory.image;
    var complete, bytesWritten := memory.TryWrite(address, target);
    if !complete || bytesWritten != |target| {
      r := Recover(memory, address, previous, previousValue, WriteFailed, before);
      return;
    }
    var readable, readback, bytesRead := memory.TryRead(address, |target|);
    if !readable || bytesRead != |target| {
      r := Recover(memory, address, previous, previousValue, ReadbackFailed, before);
      return;
    }
    if readback != target {
      PutReadsBack(before, address, target);
      r := Recover(memory, address, previous, previousValue, ReadbackMismatch, before);
      return;
    }
    PutIsExact(before, memory.image, address, target);
    r := MutationResult(true, NoFailure, Some(previousValue), Some(targetValue), NotNeeded);
  }

  lemma PutReadsBack(image: Image, address: nat, data: seq<Byte>)
    requires Mapped(image, address, |data|)
    ensures Get(Put(image, address, data), address, |data|) == data
  {
  }

  // ---------------------------------------------------------------- abilities

  /** Memory holds the expected abilities and they allow the target. */
  ghost predicate AbilitySettable(image: Image, layout: MutationLayout, c: PersonCandidate, expected: int,
                                  expectedPotential: Option<int>, target: int)
  {
    var ca, pa := CaAddress(layout, c), PaAddress(layout, c);
    && IsValidAbility(expected) && IsValidAbility(target)
    && ca.Some? && pa.Some? && Mapped(image, ca.value, 2) && Mapped(image, pa.value, 2)
    && U16At(image, ca.value) == expected && IsValidAbility(U16At(image, pa.value))
    && (expectedPotential.Some? ==> U16At(image, pa.value) == expectedPotential.value)
    && target <= U16At(image, pa.value)
  }

  /** The first thing wrong with setting the ability, if every read that is possible succeeds. */
  function AbilityComplaint(image: Image, layout: MutationLayout, c: PersonCandidate, expected: int,
                            expectedPotential: Option<int>, target: int): Failure
  {
    var ca, pa := CaAddress(layout, c), PaAddress(layout, c);
    if !IsValidAbility(expected) || !IsValidAbility(target)
       || (expectedPotential.Some? && !IsValidAbility(expectedPotential.value)) then InvalidValue
    else if ca.None? || pa.None? then AddressOverflow
    else if !Mapped(image, ca.value, 2) || !Mapped(image, pa.value, 2) then ReadFailed
    else if !IsValidAbility(U16At(image, ca.value)) || !IsValidAbility(U16At(image, pa.value)) then InvalidLiveValue
    else if U16At(image, ca.value) != expected
            || (expectedPotential.Some? && U16At(image, pa.value) != expectedPotential.value) then ExpectedValueMismatch
    else if target > U16At(image, pa.value) then TargetExceedsPotentialAbility
    else NoFailure
  }

  /** The contract of setting a current ability, for players and for staff alike. */
  ghost predicate AbilitySet(before: Image, after: Image, reliable: bool, layout: MutationLayout, c: PersonCandidate,
                             expected: int, expectedPotential: Option<int>, target: int, r: MutationResult)
  {
    if AbilitySettable(before, layout, c, expected, expectedPotential, target) then
      && (reliable ==> r.succeeded)
      && !r.failure.ExpectedValueMismatch? && !r.failure.TargetExceedsPotentialAbility?
      && r.previousValue == (if r.failure.ReadFailed? then None else Some(expected))
      && (r.succeeded ==> r.verifiedValue == Some(target))
      && Transacted(before, after, CaAddress(layout, c).value, U16(target), r)
    else
      && Refused(before, after, r)
      && (r.failure.ReadFailed? || r.failure ==
          AbilityComplaint(before, layout, c, expected, expectedPotential, target))
      && (r.failure.ExpectedValueMismatch? || r.failure.TargetExceedsPotentialAbility? ==>
            r.previousValue == Some(U16At(before, CaAddress(layout, c).value)))
  }

  class PlayerValueMutationService {
    const memory: Memory
    const layout: MutationLayout

    constructor (memory: Memory, layout: MutationLayout)
      ensures this.memory == memory && this.layout == layout
    {
      this.memory, this.layout := memory, layout;
    }

    method SetCurrentAbility(c: PersonCandidate, expected: int, expectedPotential: Option<int>, target: int)
      returns (r: MutationResult)
      modifies memory`image
      ensures !c.facet.Player? ==> Refused(old(memory.image), memory.image, r) && r.failure.InvalidCandidate?
      ensures c.facet.Player? ==>
                AbilitySet(old(memory.image), memory.image, memory.reliable, layout, c, expected, expectedPotential,
                           target, r)
    {
      if !c.facet.Player? {
        return Failed(InvalidCandidate, None, NotNeeded);
      }
      if !IsValidAbility(expected) || (expectedPotential.Some? && !IsValidAbility(expectedPotential.value))
         || !IsValidAbility(target) {
        return Failed(InvalidValue, None, NotNeeded);
      }
      var caAddress := TryAdd(c.blockAddress, layout.currentAbilityOffset);
      var paAddress := TryAdd(c.blockAddress, layout.potentialAbilityOffset);
      if caAddress.None? || paAddress.None? {
        return Failed(AddressOverflow, None, NotNeeded);
      }
      var liveCa := memory.TryReadUInt16(caAddress.value);
      var livePa := memory.TryReadUInt16(paAddress.value);
      if liveCa.None? || livePa.None? {
        return Failed(ReadFailed, None, NotNeeded);
      }
      if !IsValidAbility(liveCa.value) || !IsValidAbility(livePa.value) {
        return Failed(InvalidLiveValue, None, NotNeeded);
      }
      if liveCa.value != expected {
        return Failed(ExpectedValueMismatch, liveCa, NotNeeded);
      }
      if expectedPotential.Some? && livePa.value != expectedPotential.value {
        return Failed(ExpectedValueMismatch, liveCa, NotNeeded);
      }
      if target > livePa.value {
        return Failed(TargetExceedsPotentialAbility, liveCa, NotNeeded);
      }
      U16RoundTrip(memory.image, caAddress.value, target, caAddress.value);
      r := WriteAndVerify(memory, caAddress.value, U16(liveCa.value), U16(target), liveCa.value, target);
    }

    /** Sets one mentality value; Ambition and Professionalism share one code path, Determination has its own. */
    method SetMentality(f: Field, c: PersonCandidate, expected: int, target: int) returns (r: MutationResult)
      modifies memory`image
      ensures MentalitySet(old(memory.image), memory.image, memory.reliable, layout, f, c, expected, target, r)
    {
      if f.Determination? {
        r := SetDetermination(c, expected, target);
      } else {
        r := SetPersonality(f, c, expected, target);
      }
    }

    method SetPersonality(f: Field, c: PersonCandidate, expected: int, target: int) returns (r: MutationResult)
      requires !f.Determination?
      modifies memory`image
      ensures MentalitySet(old(memory.image), memory.image, memory.reliable, layout, f, c, expected, target, r)
    {
      if !c.facet.Player? {
        return Failed(InvalidCandidate, None, NotNeeded);
      }
      if !IsMentalityValue(expected) || !IsMentalityValue(target) {
        return Failed(InvalidValue, None, NotNeeded);
      }
      var offset := TryFindOffset(layout.personalityEntries, KeyOf(f));
      if offset.None? {
        return Failed(LayoutInvalid, None, NotNeeded);
      }
      var address := TryAdd(c.objectAddress, offset.value);
      if address.None? {
        return Failed(AddressOverflow, None, NotNeeded);
      }
      var live := memory.TryReadByte(address.value);
      if live.None? {
        return Failed(ReadFailed, None, NotNeeded);
      }
      if !IsMentalityValue(live.value) {
        return Failed(InvalidLiveValue, None, NotNeeded);
      }
      if live.value != expected {
        return Failed(ExpectedValueMismatch, Some(live.value), NotNeeded);
      }
      r := WriteAndVerify(memory, address.value, [live.value], [target], live.value, target);
    }

    method SetDetermination(c: PersonCandidate, expected: int, target: int) returns (r: MutationResult)
      modifies memory`image
      ensures MentalitySet(old(memory.image), memory.image, memory.reliable, layout, Determination, c, expected, target, r)
    {
      if !c.facet.Player? {
        return Failed(InvalidCandidate, None, NotNeeded);
      }
      if !IsMentalityValue(expected) || !IsMentalityValue(target) {
        return Failed(InvalidValue, None, NotNeeded);
      }
      var offset := TryFindOffset(layout.attributeEntries, "Determination");
      if offset.None? {
        return Failed(LayoutInvalid, None, NotNeeded);
      }
      var attributes := TryAdd(c.blockAddress, layout.attrsOffset);
      if attributes.None? {
        return Failed(AddressOverflow, None, NotNeeded);
      }
      var address := TryAdd(attributes.value, offset.value);
      if address.None? {
        return Failed(AddressOverflow, None, NotNeeded);
      }
      var liveRaw := memory.TryReadByte(address.value);
      if liveRaw.None? {
        return Failed(ReadFailed, None, NotNeeded);
      }
      var live := TryDecodeScaledStrict(liveRaw.value);
      if live.None? {
        return Failed(InvalidLiveValue, None, NotNeeded);
      }
      if live.value != expected {
        return Failed(ExpectedValueMismatch, live, NotNeeded);
      }
      r := WriteAndVerify(memory, address.value, [liveRaw.value], [5 * target], live.value, target);
    }
  }

  // ---------------------------------------------------------------- mentality

  ghost predicate MentalitySettable(image: Image, layout: MutationLayout, f: Field, c: PersonCandidate, expected: int,
                                    target: int)
  {
    var address := FieldAddress(layout, c, f);
    && c.facet.Player? && IsMentalityValue(target)
    && address.Some? && address.value in image && Decode(f, image[address.value]) == Some(expected)
  }

  function MentalityComplaint(image: Image, layout: MutationLayout, f: Field, c: PersonCandidate, expected: int,
                              target: int): Failure
  {
    var entries := if f.Determination? then layout.attributeEntries else layout.personalityEntries;
    var address := FieldAddress(layout, c, f);
    if !c.facet.Player? then InvalidCandidate
    else if !IsMentalityValue(expected) || !IsMentalityValue(target) then InvalidValue
    else if FirstOffset(entries, KeyOf(f)).None? then LayoutInvalid
    else if address.None? then AddressOverflow
    else if address.value !in image then ReadFailed
    else if Decode(f, image[address.value]).None? then InvalidLiveValue
    else if Decode(f, image[address.value]) != Some(expected) then ExpectedValueMismatch
    else NoFailure
  }

  ghost predicate MentalitySet(before: Image, after: Image, reliable: bool, layout: MutationLayout, f: Field,
                               c: PersonCandidate, expected: int, target: int, r: MutationResult)
  {
    if MentalitySettable(before, layout, f, c, expected, target) then
      && (reliable ==> r.succeeded)
      && !r.failure.ExpectedValueMismatch? && !r.failure.TargetExceedsPotentialAbility?
      && r.previousValue == (if r.failure.ReadFailed? then None else Some(expected))
      && (r.succeeded ==> r.verifiedValue == Some(target))
      && Transacted(before, after, FieldAddress(layout, c, f).value, [Encode(f, target)], r)
    else
      && Refused(before, after, r)
      && (r.failure.ReadFailed? || r.failure == MentalityComplaint(before, layout, f, c, expected, target))
  }

  class StaffValueMutationService {
    const memory: Memory
    const layout: MutationLayout

    constructor (memory: Memory, layout: MutationLayout)
      ensures this.memory == memory && this.layout == layout
    {
      this.memory, this.layout := memory, layout;
    }

    method SetCurrentAbility(c: PersonCandidate, expected: int, expectedPotential: int, target: int)
      returns (r: MutationResult)
      modifies memory`image
      ensures c.facet.Player? ==> Refused(old(memory.image), memory.image, r) && r.failure.InvalidCandidate?
      ensures !c.facet.Player? ==>
                AbilitySet(old(memory.image), memory.image, memory.reliable, layout, c, expected,
                           Some(expectedPotential), target, r)
    {
      if c.facet.Player? {
        return Failed(InvalidCandidate, None, NotNeeded);
      }
      if !IsValidAbility(expected) || !IsValidAbility(expectedPotential) || !IsValidAbility(target) {
        return Failed(InvalidValue, None, NotNeeded);
      }
      var caAddress := TryAdd(c.blockAddress, layout.staffCurrentAbilityOffset);
      var paAddress := TryAdd(c.blockAddress, layout.staffPotentialAbilityOffset);
      if caAddress.None? || paAddress.None? {
        return Failed(AddressOverflow, None, NotNeeded);
      }
      var liveCa := memory.TryReadUInt16(caAddress.value);
      var livePa := memory.TryReadUInt16(paAddress.value);
      if liveCa.None? || livePa.None? {
        return Failed(ReadFailed, None, NotNeeded);
      }
      if !IsValidAbility(liveCa.value) || !IsValidAbility(livePa.value) {
        return Failed(InvalidLiveValue, None, NotNeeded);
      }
      if liveCa.value != expected || livePa.value != expectedPotential {
        return Failed(ExpectedValueMismatch, liveCa, NotNeeded);
      }
      if target > livePa.value {
        return Failed(TargetExceedsPotentialAbility, liveCa, NotNeeded);
      }
      U16RoundTrip(memory.image, caAddress.value, target, caAddress.value);
      r := WriteAndVerify(memory, caAddress.value, U16(liveCa.value), U16(target), liveCa.value, target);
    }
  }
}
