/**
 The tables of the live indexes beside the memory they describe: fresh from a scan they agree with it, and
 every boost keeps them agreeing.
 */
module Coherence {
  import opened Wrappers
  import opened Requests
  import opened ScanModel
  import opened ScanLedger
  import opened ProcessMemory
  import opened PersonLayout
  import opened Boosts
  import opened Mentality
  import opened MutationIndexes
  import opened PlayerBoosts
  import opened ScannedMemory
  import ScanSpec
  import PersonScanner

  // ---------------------------------------------------------------- persons that do not overlap

  /** Two records of different persons, or of one person as player and as staff. */
  predicate Distinct(a: PersonCandidate, b: PersonCandidate) {
    a.uid != b.uid || a.facet.Player? != b.facet.Player?
  }

  /** The values of different records lie in different places. */
  ghost predicate ApartFromOneAnother(layout: MutationLayout, found: seq<PersonCandidate>) {
    forall a, b :: a in found && b in found && Distinct(a, b) ==> Undisturbed(layout, a, b)
  }

  ghost predicate Roster(layout: MutationLayout, players: People, staff: People) {
    && (forall u :: u in players ==>
          players[u].uid == u && players[u].facet.Player? && KeepsOwnApart(layout, players[u]))
    && (forall u :: u in staff ==> staff[u].uid == u && !staff[u].facet.Player? && KeepsOwnApart(layout, staff[u]))
    && (forall u, v :: u in players && v in players && u != v ==> Undisturbed(layout, players[u], players[v]))
    && (forall u, v :: u in staff && v in staff && u != v ==> Undisturbed(layout, staff[u], staff[v]))
    && (forall u, v :: u in players && v in staff ==>
          Undisturbed(layout, players[u], staff[v]) && Undisturbed(layout, staff[v], players[u]))
  }

  /** Memory holds for every person of the table the cached abilities. */
  ghost predicate Faithful(image: Image, layout: MutationLayout, people: People) {
    forall u :: u in people ==> HoldsAbilities(image, layout, people[u], people[u].ca, people[u].pa)
  }

  /** Both tables agree with memory, and no two records in them overlap. */
  ghost predicate InStepWithMemory(image: Image, layout: MutationLayout, players: People, staff: People) {
    Roster(layout, players, staff) && Faithful(image, layout, players) && Faithful(image, layout, staff)
  }

  /** Where a record's values lie does not depend on the abilities it caches. */
  lemma ApartnessIgnoresAbilities(layout: MutationLayout, a: PersonCandidate, ca: int, b: PersonCandidate)
    ensures var moved := a.(ca := ca);
            && (KeepsOwnApart(layout, moved) <==> KeepsOwnApart(layout, a))
            && (Undisturbed(layout, moved, b) <==> Undisturbed(layout, a, b))
            && (Undisturbed(layout, b, moved) <==> Undisturbed(layout, b, a))
  {
    var moved := a.(ca := ca);
    assert CaAddress(layout, moved) == CaAddress(layout, a) && PaAddress(layout, moved) == PaAddress(layout, a);
    assert forall f :: FieldAddress(layout, moved, f) == FieldAddress(layout, a, f);
    hide CaAddress, PaAddress, FieldAddress;
  }

  /** The persons a scan returns. */
  ghost function PersonsFound(ctx: Context, regions: seq<MemoryRegion>): seq<PersonCandidate>
    requires ctx.Valid()
  {
    var r := PersonScanner.ExpectedResult(ctx, regions);
    r.players + r.staff
  }

  lemma ListedByKey<V>(table: map<nat, V>, v: V) returns (k: nat)
    requires v in PersonScanner.InKeyOrder(table)
    ensures k in table && table[k] == v
  {
    var i :| 0 <= i < |PersonScanner.InKeyOrder(table)| && PersonScanner.InKeyOrder(table)[i] == v;
    k := PersonScanner.Ascending(table.Keys)[i];
  }

  lemma FoundIsGenuine(ctx: Context, regions: seq<MemoryRegion>, c: PersonCandidate)
    requires ctx.Valid() && c in PersonsFound(ctx, regions)
    ensures ScanSpec.Genuine(ctx, c)
  {
    var l := ScanSpec.ScanLedgerOf(ctx, regions);
    hide ScanSpec.ScanLedgerOf, ScanSpec.Genuine, ScanSpec.Quality, PersonScanner.InKeyOrder;
    if c in PersonScanner.ExpectedResult(ctx, regions).players {
      var u := ListedByKey(l.players.people, c);
      ScanSpec.PlayersAreGenuine(ctx, regions, u);
    } else {
      var u := ListedByKey(l.staff.people - l.players.people.Keys, c);
      ScanSpec.StaffAreGenuine(ctx, regions, u);
    }
  }

  /** A person taken from a scan of this memory, with values that do not overlap. */
  ghost predicate Fresh(image: Image, layout: MutationLayout, c: PersonCandidate) {
    KeepsOwnApart(layout, c) && HoldsAbilities(image, layout, c, c.ca, c.pa)
  }

  lemma FoundIsFresh(ctx: Context, image: Image, regions: seq<MemoryRegion>, layout: MutationLayout,
                     c: PersonCandidate)
    requires ctx.Valid() && ReadsImage(ctx.reader, image) && c in PersonsFound(ctx, regions)
    requires SameOffsets(ctx.layout, layout) && KeepsRecordsApart(ctx.layout, layout)
    ensures Fresh(image, layout, c)
  {
    hide PersonsFound, ReadsImage, HoldsAbilities, KeepsOwnApart, AbilityAt, GenderAt;
    FoundIsGenuine(ctx, regions, c);
    GenuineHoldsAbilities(ctx, image, layout, c);
  }

  /** Tables filled from what a scan of memory found agree with that memory. */
  lemma FreshTablesAreCoherent(ctx: Context, image: Image, regions: seq<MemoryRegion>, layout: MutationLayout,
                               players: seq<PersonCandidate>, staff: seq<PersonCandidate>)
    requires ctx.Valid() && ReadsImage(ctx.reader, image)
    requires SameOffsets(ctx.layout, layout) && KeepsRecordsApart(ctx.layout, layout)
    requires ApartFromOneAnother(layout, PersonsFound(ctx, regions))
    requires forall c :: c in players || c in staff ==> c in PersonsFound(ctx, regions)
    ensures InStepWithMemory(image, layout, Indexed(players, true), Indexed(staff, false))
  {
    var ps, ss := Indexed(players, true), Indexed(staff, false);
    hide SpreadOut, Undisturbed, Indexed, HoldsAbilities, PersonsFound, ReadsImage, KeepsRecordsApart, KeepsOwnApart,
         SameOffsets;
    forall u | u in ps
      ensures ps[u] in PersonsFound(ctx, regions) && ps[u].uid == u && ps[u].facet.Player? && Fresh(image, layout, ps[u])
    {
      IndexedComesFrom(players, true, u);
      FoundIsFresh(ctx, image, regions, layout, ps[u]);
    }
    forall u | u in ss
      ensures ss[u] in PersonsFound(ctx, regions) && ss[u].uid == u && !ss[u].facet.Player? && Fresh(image, layout, ss[u])
    {
      IndexedComesFrom(staff, false, u);
      FoundIsFresh(ctx, image, regions, layout, ss[u]);
    }
  }

  // ---------------------------------------------------------------- what a write leaves alone

  lemma AbilitiesSurviveAbilityWrite(before: Image, after: Image, layout: MutationLayout, a: PersonCandidate,
                                     b: PersonCandidate)
    requires HoldsAbilities(before, layout, a, a.ca, a.pa) && Undisturbed(layout, a, b)
    requires OnlyAbilityDiffers(before, after, layout, b)
    ensures HoldsAbilities(after, layout, a, a.ca, a.pa)
  {
  }

  lemma AbilitiesSurviveMentalityWrite(before: Image, after: Image, layout: MutationLayout, a: PersonCandidate,
                                       b: PersonCandidate)
    requires HoldsAbilities(before, layout, a, a.ca, a.pa) && b.facet.Player?
    requires Undisturbed(layout, a, b) || (a == b && KeepsOwnApart(layout, b))
    requires OnlyMentalityDiffers(before, after, layout, b)
    ensures HoldsAbilities(after, layout, a, a.ca, a.pa)
  {
    var ca: nat, pa: nat := CaAddress(layout, a).value, PaAddress(layout, a).value;
    forall f, k: nat | k == ca || k == ca + 1 || k == pa || k == pa + 1 ensures FieldAddress(layout, b, f) != Some(k) {
      assert Apart(FieldAddress(layout, b, f), 1, CaAddress(layout, a), 2);
      assert Apart(FieldAddress(layout, b, f), 1, PaAddress(layout, a), 2);
    }
  }

  // ---------------------------------------------------------------- one step of a run

  /** A raised ability keeps both tables in step: the raised record was moved on, the others were not written. */
  lemma PlayerRaisedInStep(before: Image, after: Image, layout: MutationLayout, players: People, staff: People,
                           uid: Word32, target: int)
    requires InStepWithMemory(before, layout, players, staff) && uid in players
    requires 0 <= target < 0x1_0000 && after == Put(before, CaAddress(layout, players[uid]).value, U16(target))
    ensures InStepWithMemory(after, layout, players[uid := players[uid].(ca := target)], staff)
  {
    var c := players[uid];
    var moved := players[uid := c.(ca := target)];
    AbilityWritten(before, layout, c, c.ca, c.pa, target);
    RosterMoves(layout, players, staff, uid, target);
    forall u | u in moved && u != uid ensures HoldsAbilities(after, layout, moved[u], moved[u].ca, moved[u].pa) {
      AbilitiesSurviveAbilityWrite(before, after, layout, players[u], c);
    }
    forall u | u in staff ensures HoldsAbilities(after, layout, staff[u], staff[u].ca, staff[u].pa) {
      AbilitiesSurviveAbilityWrite(before, after, layout, staff[u], c);
    }
  }

  lemma StaffRaisedInStep(before: Image, after: Image, layout: MutationLayout, players: People, staff: People,
                          uid: Word32, target: int)
    requires InStepWithMemory(before, layout, players, staff) && uid in staff
    requires 0 <= target < 0x1_0000 && after == Put(before, CaAddress(layout, staff[uid]).value, U16(target))
    ensures InStepWithMemory(after, layout, players, staff[uid := staff[uid].(ca := target)])
  {
    var c := staff[uid];
    var moved := staff[uid := c.(ca := target)];
    AbilityWritten(before, layout, c, c.ca, c.pa, target);
    StaffRosterMoves(layout, players, staff, uid, target);
    forall u | u in moved && u != uid ensures HoldsAbilities(after, layout, moved[u], moved[u].ca, moved[u].pa) {
      AbilitiesSurviveAbilityWrite(before, after, layout, staff[u], c);
    }
    forall u | u in players ensures HoldsAbilities(after, layout, players[u], players[u].ca, players[u].pa) {
      AbilitiesSurviveAbilityWrite(before, after, layout, players[u], c);
    }
  }

  lemma RosterMoves(layout: MutationLayout, players: People, staff: People, uid: Word32, ca: int)
    requires Roster(layout, players, staff) && uid in players
    ensures Roster(layout, players[uid := players[uid].(ca := ca)], staff)
  {
    hide KeepsOwnApart, Undisturbed;
    forall b: PersonCandidate
      ensures var c, moved := players[uid], players[uid].(ca := ca);
              && (KeepsOwnApart(layout, moved) <==> KeepsOwnApart(layout, c))
              && (Undisturbed(layout, moved, b) <==> Undisturbed(layout, c, b))
              && (Undisturbed(layout, b, moved) <==> Undisturbed(layout, b, c))
    {
      ApartnessIgnoresAbilities(layout, players[uid], ca, b);
    }
  }

  lemma StaffRosterMoves(layout: MutationLayout, players: People, staff: People, uid: Word32, ca: int)
    requires Roster(layout, players, staff) && uid in staff
    ensures Roster(layout, players, staff[uid := staff[uid].(ca := ca)])
  {
    hide KeepsOwnApart, Undisturbed;
    forall b: PersonCandidate
      ensures var c, moved := staff[uid], staff[uid].(ca := ca);
              && (KeepsOwnApart(layout, moved) <==> KeepsOwnApart(layout, c))
              && (Undisturbed(layout, moved, b) <==> Undisturbed(layout, c, b))
              && (Undisturbed(layout, b, moved) <==> Undisturbed(layout, b, c))
    {
      ApartnessIgnoresAbilities(layout, staff[uid], ca, b);
    }
  }

  /** Writing a player's mentality disturbs no ability, not even that player's. */
  lemma MentalityWrittenInStep(before: Image, after: Image, layout: MutationLayout, players: People, staff: People,
                               uid: Word32)
    requires InStepWithMemory(before, layout, players, staff) && uid in players
    requires OnlyMentalityDiffers(before, after, layout, players[uid])
    ensures InStepWithMemory(after, layout, players, staff)
  {
    forall u | u in players ensures HoldsAbilities(after, layout, players[u], players[u].ca, players[u].pa) {
      AbilitiesSurviveMentalityWrite(before, after, layout, players[u], players[uid]);
    }
    forall u | u in staff ensures HoldsAbilities(after, layout, staff[u], staff[u].ca, staff[u].pa) {
      AbilitiesSurviveMentalityWrite(before, after, layout, staff[u], players[uid]);
    }
  }

  lemma LiftedIsOnlyMentality(before: Image, after: Image, layout: MutationLayout, c: PersonCandidate,
                              previous: MentalityState, now: MentalityState)
    requires MentalityLifted(before, after, layout, c, previous, now)
    ensures OnlyMentalityDiffers(before, after, layout, c)
  {
  }

  lemma BoostInStep(r: Execution, request: BridgeRequest, before: Image, after: Image, layout: MutationLayout,
                    players: People, staff: People, playersAfter: People, c: PersonCandidate)
    requires InStepWithMemory(before, layout, players, staff) && c.uid in players && c == players[c.uid]
    requires Completed(r, request, before, after, players, playersAfter, layout, c)
    ensures InStepWithMemory(after, layout, playersAfter, staff)
  {
    hide InStepWithMemory, MentalityLifted, OnlyMentalityDiffers, Boosted, CaAddress, NamesMentality;
    if request.operation == Some(BOOST_CURRENT_ABILITY) {
      var target := Boosted(c.ca, c.pa, request.currentAbilityIncrement.value);
      PlayerRaisedInStep(before, after, layout, players, staff, c.uid, target);
    } else {
      LiftedIsOnlyMentality(before, after, layout, c, Expectations(request), r.report.current);
      MentalityWrittenInStep(before, after, layout, players, staff, c.uid);
    }
  }

  // ---------------------------------------------------------------- what a boost may write

  /** The two images differ at most in values of this person that a boost may write. */
  ghost predicate OnlyOwnValuesDiffer(before: Image, after: Image, layout: MutationLayout, c: PersonCandidate) {
    OnlyAbilityDiffers(before, after, layout, c) || (c.facet.Player? && OnlyMentalityDiffers(before, after, layout, c))
  }

  /** The two images differ at most in such values of one person of the table. */
  ghost predicate OnlyOnePersonDiffers(before: Image, after: Image, layout: MutationLayout, people: People) {
    exists u :: u in people && OnlyOwnValuesDiffer(before, after, layout, people[u])
  }

  /** The later table holds persons of the earlier one, at the same places. */
  ghost predicate SamePlaces(earlier: People, later: People) {
    forall u :: u in later ==> u in earlier && later[u] == earlier[u].(ca := later[u].ca)
  }

  /** Writing a person's values leaves in place the uid by which the person is recognized. */
  lemma IdentitySurvives(before: Image, after: Image, layout: MutationLayout, c: PersonCandidate)
    requires KeepsIdentity(layout, c) && OnlyOwnValuesDiffer(before, after, layout, c)
    requires UidAddress(layout, c).Some? && Mapped(before, UidAddress(layout, c).value, 4)
    ensures Mapped(after, UidAddress(layout, c).value, 4)
    ensures U32At(after, UidAddress(layout, c).value) == U32At(before, UidAddress(layout, c).value)
  {
    var uid := UidAddress(layout, c).value;
    forall k: nat | uid <= k < uid + 4 ensures k in after && after[k] == before[k] {
      if !OnlyAbilityDiffers(before, after, layout, c) {
        forall f ensures FieldAddress(layout, c, f) != Some(k) {
          assert Apart(FieldAddress(layout, c, f), 1, UidAddress(layout, c), 4);
        }
      }
    }
  }

  /** After a completed boost memory still identifies the person, with the abilities that the index now caches. */
  lemma BoostedIsStillThere(r: Execution, request: BridgeRequest, before: Image, after: Image, layout: MutationLayout,
                            players: People, staff: People, playersAfter: People, c: PersonCandidate)
    requires InStepWithMemory(before, layout, players, staff) && c.uid in players && c == players[c.uid]
    requires LiveMatches(before, layout, c, c.ca, c.pa)
    requires Completed(r, request, before, after, players, playersAfter, layout, c)
    ensures SamePlaces(players, playersAfter) && c.uid in playersAfter
    ensures LiveMatches(after, layout, playersAfter[c.uid], playersAfter[c.uid].ca, playersAfter[c.uid].pa)
    ensures OnlyOwnValuesDiffer(before, after, layout, c)
  {
    BoostInStep(r, request, before, after, layout, players, staff, playersAfter, c);
    CompletedIsOwn(r, request, before, after, layout, players, playersAfter, c);
    hide Completed, SpreadOut, Undisturbed, OnlyOwnValuesDiffer;
    IdentitySurvives(before, after, layout, c);
  }

  lemma CompletedIsOwn(r: Execution, request: BridgeRequest, before: Image, after: Image, layout: MutationLayout,
                       players: People, playersAfter: People, c: PersonCandidate)
    requires c.uid in players && c == players[c.uid] && IsValidAbility(c.ca)
    requires CaAddress(layout, c).Some? && c.facet.Player?
    requires Completed(r, request, before, after, players, playersAfter, layout, c)
    ensures SamePlaces(players, playersAfter) && c.uid in playersAfter && IsValidAbility(playersAfter[c.uid].ca)
    ensures OnlyOwnValuesDiffer(before, after, layout, c)
  {
    hide MentalityLifted, OnlyMentalityDiffers, NamesMentality, CaAddress;
    if request.operation != Some(BOOST_CURRENT_ABILITY) {
      LiftedIsOnlyMentality(before, after, layout, c, Expectations(request), r.report.current);
    }
  }
}
