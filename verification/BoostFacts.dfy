/**
 What the boosts write, said of single bytes: where a player's values are looked up, when live memory agrees with a
 request, and which bytes are different afterwards.
 */
module BoostFacts {
  import opened Wrappers
  import opened Requests
  import opened ScanModel
  import opened ProcessMemory
  import opened PersonLayout
  import opened Boosts
  import opened Mentality
  import opened PlayerBoosts
  import S = StaffBoosts

  // ---------------------------------------------------------------- places

  /** The first entry of this name with an offset that is not negative. */
  ghost predicate IsOffsetOf(entries: seq<Entry>, key: string, offset: int) {
    exists i :: 0 <= i < |entries| && entries[i] == Entry(key, offset) && offset >= 0
                && forall j :: 0 <= j < i && entries[j].key == key ==> entries[j].offset < 0
  }

  predicate IsAt(base: Word64, offset: int, address: nat) {
    0 <= offset && address == base + offset && address < 0x1_0000_0000_0000_0000
  }

  ghost predicate IsAmbitionAt(layout: MutationLayout, c: PersonCandidate, address: nat) {
    exists offset :: IsOffsetOf(layout.personalityEntries, "Ambition", offset) && IsAt(c.objectAddress, offset, address)
  }

  ghost predicate IsProfessionalismAt(layout: MutationLayout, c: PersonCandidate, address: nat) {
    exists offset ::
      IsOffsetOf(layout.personalityEntries, "Professionalism", offset) && IsAt(c.objectAddress, offset, address)
  }

  ghost predicate IsDeterminationAt(layout: MutationLayout, c: PersonCandidate, address: nat) {
    exists offset ::
      && IsOffsetOf(layout.attributeEntries, "Determination", offset) && 0 <= layout.attrsOffset
      && IsAt(c.blockAddress, layout.attrsOffset + offset, address)
  }

  /** Two bytes, low byte first. */
  predicate HoldsPair(image: Image, address: nat, value: int) {
    address in image && address + 1 in image && value == image[address] as int + 256 * image[address + 1] as int
  }

  /** Four bytes, lowest byte first. */
  predicate HoldsWord(image: Image, address: nat, value: int) {
    && address in image && address + 1 in image && address + 2 in image && address + 3 in image
    && value == image[address] as int + 0x100 * image[address + 1] as int + 0x1_0000 * image[address + 2] as int
                + 0x100_0000 * image[address + 3] as int
  }

  predicate IsCurrentAt(layout: MutationLayout, c: PersonCandidate, address: nat) {
    if c.facet == Player then IsAt(c.blockAddress, layout.currentAbilityOffset, address)
    else IsAt(c.blockAddress, layout.staffCurrentAbilityOffset, address)
  }

  predicate IsPotentialAt(layout: MutationLayout, c: PersonCandidate, address: nat) {
    if c.facet == Player then IsAt(c.blockAddress, layout.potentialAbilityOffset, address)
    else IsAt(c.blockAddress, layout.staffPotentialAbilityOffset, address)
  }

  lemma {:induction false} FirstOffsetIs(entries: seq<Entry>, key: string, offset: int)
    ensures FirstOffset(entries, key) == Some(offset) <==> IsOffsetOf(entries, key, offset)
    ensures IsOffsetOf(entries, key, offset) ==> offset >= 0
  {
    if entries != [] {
      FirstOffsetIs(entries[1..], key, offset);
      if i :| 0 <= i < |entries| && entries[i] == Entry(key, offset) && offset >= 0
              && forall j :: 0 <= j < i && entries[j].key == key ==> entries[j].offset < 0 {
        if i > 0 {
          assert entries[1..][i - 1] == entries[i];
        }
      }
      if i :| 0 <= i < |entries[1..]| && entries[1..][i] == Entry(key, offset) && offset >= 0
              && forall j :: 0 <= j < i && entries[1..][j].key == key ==> entries[1..][j].offset < 0 {
        if !(entries[0].key == key && entries[0].offset >= 0) {
          assert entries[i + 1] == Entry(key, offset);
        }
      }
    }
  }

  lemma FieldIsAt(layout: MutationLayout, c: PersonCandidate, address: nat)
    ensures FieldAddress(layout, c, Ambition) == Some(address) <==> IsAmbitionAt(layout, c, address)
    ensures FieldAddress(layout, c, Professionalism) == Some(address) <==> IsProfessionalismAt(layout, c, address)
    ensures FieldAddress(layout, c, Determination) == Some(address) <==> IsDeterminationAt(layout, c, address)
  {
    hide FirstOffset, IsOffsetOf;
    forall entries: seq<Entry>, key, offset
      ensures FirstOffset(entries, key) == Some(offset) <==> IsOffsetOf(entries, key, offset)
      ensures IsOffsetOf(entries, key, offset) ==> offset >= 0
    {
      FirstOffsetIs(entries, key, offset);
    }
  }

  // ---------------------------------------------------------------- agreement

  /** Personality is stored as it is, determination as five times its value, give or take two. */
  ghost predicate Expects(image: Image, address: nat, expected: int, scaled: bool) {
    && address in image && 1 <= expected <= 20
    && if scaled then 5 * expected - 2 <= image[address] as int <= 5 * expected + 2 else image[address] == expected
  }

  /** Memory holds every value that the request expects. */
  ghost predicate HoldsExpected(image: Image, layout: MutationLayout, c: PersonCandidate, r: BridgeRequest) {
    && (r.expectedAmbition.Some? ==>
          exists a :: IsAmbitionAt(layout, c, a) && Expects(image, a, r.expectedAmbition.value, false))
    && (r.expectedProfessionalism.Some? ==>
          exists a :: IsProfessionalismAt(layout, c, a) && Expects(image, a, r.expectedProfessionalism.value, false))
    && (r.expectedDetermination.Some? ==>
          exists a :: IsDeterminationAt(layout, c, a) && Expects(image, a, r.expectedDetermination.value, true))
  }

  lemma DecodedIsExpected(image: Image, address: nat, f: Field, expected: int)
    ensures Expects(image, address, expected, f.Determination?) <==>
            address in image && Decode(f, image[address]) == Some(expected)
  {
    if address in image {
      if 1 <= expected <= 20 {
        DecodesNearest(image[address], expected);
      }
      EncodingRoundTrips(f, 1, image[address]);
    }
  }

  /** The address of a field, by its name. */
  ghost predicate IsFieldAt(layout: MutationLayout, c: PersonCandidate, f: Field, address: nat) {
    match f
    case Ambition => IsAmbitionAt(layout, c, address)
    case Professionalism => IsProfessionalismAt(layout, c, address)
    case Determination => IsDeterminationAt(layout, c, address)
  }

  lemma ReadIsExpected(image: Image, layout: MutationLayout, c: PersonCandidate, f: Field, expected: int)
    ensures ReadsField(image, layout, c, f, Some(expected)) <==>
            exists a :: IsFieldAt(layout, c, f, a) && Expects(image, a, expected, f.Determination?)
  {
    hide IsAmbitionAt, IsProfessionalismAt, IsDeterminationAt, FieldAddress, Decode, Expects;
    forall a: nat
      ensures FieldAddress(layout, c, f) == Some(a) <==> IsFieldAt(layout, c, f, a)
      ensures Expects(image, a, expected, f.Determination?) <==> a in image && Decode(f, image[a]) == Some(expected)
    {
      FieldIsAt(layout, c, a);
      DecodedIsExpected(image, a, f, expected);
    }
    var address := FieldAddress(layout, c, f);
    assert address.Some? ==> IsFieldAt(layout, c, f, address.value);
  }

  /** Reading gives what the request expects exactly when memory holds it. */
  lemma ExpectationsAreMetIff(image: Image, layout: MutationLayout, c: PersonCandidate, r: BridgeRequest)
    ensures Reads(image, layout, c, Expectations(r), Expectations(r)) <==> HoldsExpected(image, layout, c, r)
  {
    hide IsAmbitionAt, IsProfessionalismAt, IsDeterminationAt, ReadsField, Expects;
    var state := Expectations(r);
    if r.expectedAmbition.Some? {
      ReadIsExpected(image, layout, c, Ambition, r.expectedAmbition.value);
    }
    if r.expectedProfessionalism.Some? {
      ReadIsExpected(image, layout, c, Professionalism, r.expectedProfessionalism.value);
    }
    if r.expectedDetermination.Some? {
      ReadIsExpected(image, layout, c, Determination, r.expectedDetermination.value);
    }
    assert forall a :: IsFieldAt(layout, c, Ambition, a) <==> IsAmbitionAt(layout, c, a);
    assert forall a :: IsFieldAt(layout, c, Professionalism, a) <==> IsProfessionalismAt(layout, c, a);
    assert forall a :: IsFieldAt(layout, c, Determination, a) <==> IsDeterminationAt(layout, c, a);
    assert state.Of(Ambition) == r.expectedAmbition && state.Of(Professionalism) == r.expectedProfessionalism;
    assert state.Of(Determination) == r.expectedDetermination;
  }

  /** Memory holds this person's uid and these abilities, all of them valid. */
  ghost predicate HoldsPerson(image: Image, layout: MutationLayout, c: PersonCandidate, ca: int, pa: int) {
    && (exists a :: IsAt(c.objectAddress, layout.objectUidOffset, a) && HoldsWord(image, a, c.uid))
    && (exists a :: IsCurrentAt(layout, c, a) && HoldsPair(image, a, ca)) && 1 <= ca <= 200
    && (exists a :: IsPotentialAt(layout, c, a) && HoldsPair(image, a, pa)) && 1 <= pa <= 200
  }

  lemma PairIsHeld(image: Image, address: nat, value: int)
    ensures HoldsPair(image, address, value) <==> Mapped(image, address, 2) && U16At(image, address) == value
  {
    if address in image && address + 1 in image {
      assert Mapped(image, address, 2);
    }
  }

  lemma WordIsHeld(image: Image, address: nat, value: int)
    ensures HoldsWord(image, address, value) <==> Mapped(image, address, 4) && U32At(image, address) == value
  {
    if address in image && address + 1 in image && address + 2 in image && address + 3 in image {
      assert Mapped(image, address, 4);
    }
  }

  /** Live memory matches exactly when it holds the person. */
  lemma LiveMatchesIff(image: Image, layout: MutationLayout, c: PersonCandidate, ca: int, pa: int)
    ensures LiveMatches(image, layout, c, ca, pa) <==> HoldsPerson(image, layout, c, ca, pa)
  {
    hide HoldsPair, HoldsWord, U16At, U32At, Mapped;
    forall a: nat, value
      ensures HoldsPair(image, a, value) <==> Mapped(image, a, 2) && U16At(image, a) == value
      ensures HoldsWord(image, a, value) <==> Mapped(image, a, 4) && U32At(image, a) == value
    {
      PairIsHeld(image, a, value);
      WordIsHeld(image, a, value);
    }
    PlacesAre(layout, c);
    var uid, current, potential := UidAddress(layout, c), CaAddress(layout, c), PaAddress(layout, c);
    if LiveMatches(image, layout, c, ca, pa) {
      assert IsAt(c.objectAddress, layout.objectUidOffset, uid.value) && HoldsWord(image, uid.value, c.uid);
      assert IsCurrentAt(layout, c, current.value) && HoldsPair(image, current.value, ca);
      assert IsPotentialAt(layout, c, potential.value) && HoldsPair(image, potential.value, pa);
    }
  }

  lemma PlacesAre(layout: MutationLayout, c: PersonCandidate)
    ensures forall a: nat :: IsAt(c.objectAddress, layout.objectUidOffset, a) <==> UidAddress(layout, c) == Some(a)
    ensures forall a: nat :: IsCurrentAt(layout, c, a) <==> CaAddress(layout, c) == Some(a)
    ensures forall a: nat :: IsPotentialAt(layout, c, a) <==> PaAddress(layout, c) == Some(a)
  {
  }

  // ---------------------------------------------------------------- what is different afterwards

  /** A low value is raised to one from 11 to 20, any other stays, and it was as expected. */
  predicate IsRaised(before: Image, after: Image, address: nat, expected: int, scaled: bool) {
    && address in before && address in after && 1 <= expected <= 20
    && (if scaled then 5 * expected - 2 <= before[address] as int <= 5 * expected + 2 else before[address] == expected)
    && (if expected > 10 then after[address] == before[address]
        else if scaled then 55 <= after[address] <= 100 && after[address] as int % 5 == 0
        else 11 <= after[address] <= 20)
  }

  /** Every expected value is raised or kept, and no byte besides the low ones is different. */
  ghost predicate MentalityWritten(before: Image, after: Image, layout: MutationLayout, c: PersonCandidate,
                                   r: BridgeRequest)
  {
    && (r.expectedAmbition.Some? ==>
          exists a :: IsAmbitionAt(layout, c, a) && IsRaised(before, after, a, r.expectedAmbition.value, false))
    && (r.expectedProfessionalism.Some? ==>
          exists a :: IsProfessionalismAt(layout, c, a)
                      && IsRaised(before, after, a, r.expectedProfessionalism.value, false))
    && (r.expectedDetermination.Some? ==>
          exists a :: IsDeterminationAt(layout, c, a) && IsRaised(before, after, a, r.expectedDetermination.value, true))
    && after.Keys == before.Keys
    && forall k :: k in before && after[k] != before[k] ==>
         || (r.expectedAmbition.Some? && r.expectedAmbition.value <= 10 && IsAmbitionAt(layout, c, k))
         || (r.expectedProfessionalism.Some? && r.expectedProfessionalism.value <= 10
             && IsProfessionalismAt(layout, c, k))
         || (r.expectedDetermination.Some? && r.expectedDetermination.value <= 10 && IsDeterminationAt(layout, c, k))
  }

  lemma FieldIsRaised(before: Image, after: Image, layout: MutationLayout, c: PersonCandidate, f: Field,
                      expected: int, now: Option<int>)
    requires Lifted(before, after, layout, c, f, Some(expected), now)
    requires expected > 10 ==>
               var a := FieldAddress(layout, c, f); a.Some? && a.value in before && a.value in after
                                                    && after[a.value] == before[a.value]
    ensures exists a :: IsFieldAt(layout, c, f, a) && IsRaised(before, after, a, expected, f.Determination?)
  {
    var a := FieldAddress(layout, c, f).value;
    FieldIsAt(layout, c, a);
    DecodedIsExpected(before, a, f, expected);
    assert IsFieldAt(layout, c, f, a) && IsRaised(before, after, a, expected, f.Determination?);
  }

  /** A mentality boost that is done has changed exactly the bytes of the low values that the request expected. */
  lemma LiftedIsWritten(before: Image, after: Image, layout: MutationLayout, c: PersonCandidate, r: BridgeRequest,
                        now: MentalityState)
    requires SpreadOut(layout, c) && MentalityLifted(before, after, layout, c, Expectations(r), now)
    ensures MentalityWritten(before, after, layout, c, r)
  {
    hide IsAmbitionAt, IsProfessionalismAt, IsDeterminationAt, Lifted, IsRaised, FieldAddress, ReadsField, SpreadOut;
    var state := Expectations(r);
    assert state.Of(Ambition) == r.expectedAmbition && state.Of(Professionalism) == r.expectedProfessionalism;
    assert state.Of(Determination) == r.expectedDetermination;
    forall f | state.Of(f).Some?
      ensures exists a :: IsFieldAt(layout, c, f, a) && IsRaised(before, after, a, state.Of(f).value, f.Determination?)
    {
      KeptByteStays(before, after, layout, c, state, now, f);
      FieldIsRaised(before, after, layout, c, f, state.Of(f).value, now.Of(f));
    }
    assert forall a :: IsFieldAt(layout, c, Ambition, a) <==> IsAmbitionAt(layout, c, a);
    assert forall a :: IsFieldAt(layout, c, Professionalism, a) <==> IsProfessionalismAt(layout, c, a);
    assert forall a :: IsFieldAt(layout, c, Determination, a) <==> IsDeterminationAt(layout, c, a);
    forall k | k in before && after[k] != before[k]
      ensures exists f :: IsFieldAt(layout, c, f, k) && state.Of(f).Some? && state.Of(f).value <= 10
    {
      var f :| IsEligible(state.Of(f)) && FieldAddress(layout, c, f) == Some(k);
      FieldIsAt(layout, c, k);
      assert IsFieldAt(layout, c, f, k);
    }
  }

  lemma KeptByteStays(before: Image, after: Image, layout: MutationLayout, c: PersonCandidate, state: MentalityState,
                      now: MentalityState, f: Field)
    requires SpreadOut(layout, c) && MentalityLifted(before, after, layout, c, state, now) && state.Of(f).Some?
    ensures state.Of(f).value > 10 ==>
              var a := FieldAddress(layout, c, f); a.Some? && a.value in before && a.value in after
                                                   && after[a.value] == before[a.value]
  {
    hide FieldAddress, Decode, CaAddress, PaAddress, Encode;
    assert Lifted(before, after, layout, c, f, state.Of(f), now.Of(f));
    if state.Of(f).value > 10 {
      forall g | IsEligible(state.Of(g)) ensures FieldAddress(layout, c, g) != FieldAddress(layout, c, f) {
        assert Lifted(before, after, layout, c, g, state.Of(g), now.Of(g));
      }
    }
  }

  /** As high as the increment takes it, but neither above the potential nor above 200. */
  predicate IsCapped(ca: int, pa: int, increment: int, target: int) {
    && target <= ca + increment && target <= pa && target <= 200
    && (target == ca + increment || target == pa || target == 200)
  }

  lemma BoostedIsCapped(ca: int, pa: int, increment: int)
    ensures IsCapped(ca, pa, increment, Boosted(ca, pa, increment))
    ensures S.INCREMENT == 10
  {
  }

  /** The two bytes of current ability hold the target, every other byte and every other entry is as before. */
  ghost predicate AbilityIsWritten(before: Image, after: Image, peopleBefore: People, peopleAfter: People,
                                   layout: MutationLayout, c: PersonCandidate, target: int)
  {
    && (exists a :: IsCurrentAt(layout, c, a) && HoldsPair(before, a, c.ca) && HoldsPair(after, a, target)
                    && after.Keys == before.Keys
                    && forall k :: k in before && k != a && k != a + 1 ==> after[k] == before[k])
    && peopleAfter.Keys == peopleBefore.Keys + {c.uid} && peopleAfter[c.uid] == c.(ca := target)
    && forall u :: u in peopleBefore && u != c.uid ==> peopleAfter[u] == peopleBefore[u]
  }

  lemma RaisedIsWritten(before: Image, after: Image, peopleBefore: People, peopleAfter: People,
                        layout: MutationLayout, c: PersonCandidate, target: int)
    requires AbilityRaised(before, after, peopleBefore, peopleAfter, layout, c, target)
    requires LiveMatches(before, layout, c, c.ca, c.pa)
    ensures AbilityIsWritten(before, after, peopleBefore, peopleAfter, layout, c, target)
  {
    var a := CaAddress(layout, c).value;
    PlacesAre(layout, c);
    PairIsHeld(before, a, c.ca);
    U16RoundTrip(before, a, target, a);
    PairIsHeld(after, a, target);
    assert IsCurrentAt(layout, c, a);
  }

  /**
   A player boost that is done has raised current ability by 5 or 10 up to the cap, in memory and in the index, or
   has written the mentality bytes and left the index alone.
   */
  lemma DoneIsWritten(e: Execution, r: BridgeRequest, before: Image, after: Image, peopleBefore: People,
                      peopleAfter: People, layout: MutationLayout, c: PersonCandidate)
    requires Completed(e, r, before, after, peopleBefore, peopleAfter, layout, c)
    requires LiveMatches(before, layout, c, c.ca, c.pa) && SpreadOut(layout, c)
    ensures if r.operation == Some("boost-current-ability") then
              && r.currentAbilityIncrement in {Some(5), Some(10)}
              && exists target ::
                   && IsCapped(c.ca, c.pa, r.currentAbilityIncrement.value, target) && target > c.ca
                   && AbilityIsWritten(before, after, peopleBefore, peopleAfter, layout, c, target)
            else
              MentalityWritten(before, after, layout, c, r) && peopleAfter == peopleBefore
  {
    hide MentalityLifted, LiveMatches, SpreadOut, AbilityRaised, AbilityIsWritten, MentalityWritten, Boosted, IsCapped;
    if r.operation == Some(BOOST_CURRENT_ABILITY) {
      var target := Boosted(c.ca, c.pa, r.currentAbilityIncrement.value);
      BoostedIsCapped(c.ca, c.pa, r.currentAbilityIncrement.value);
      RaisedIsWritten(before, after, peopleBefore, peopleAfter, layout, c, target);
    } else {
      LiftedIsWritten(before, after, layout, c, r, e.report.current);
    }
  }

  /** Every value from 11 to 20 may come out for a low value. */
  lemma AnyTargetMayBeChosen(previous: MentalityState, f: Field, target: int) returns (targets: MentalityState)
    requires previous.Of(f).Some? && previous.Of(f).value <= 10 && 11 <= target <= 20
    ensures Chosen(previous, targets) && targets.Of(f) == Some(target)
  {
    var others := MentalityState(if IsEligible(previous.ambition) then Some(11) else previous.ambition,
                                 if IsEligible(previous.professionalism) then Some(11) else previous.professionalism,
                                 if IsEligible(previous.determination) then Some(11) else previous.determination);
    targets := match f
      case Ambition => others.(ambition := Some(target))
      case Professionalism => others.(professionalism := Some(target))
      case Determination => others.(determination := Some(target));
  }
}
