/**
 The bridge over a whole run of dumps and boosts: a dump scans live memory and fills the live indexes, a boost
 writes single values of one indexed person, and every person held in an index has, in memory, exactly the
 abilities that the index caches.
 */
module LiveBridge {
  import opened Wrappers
  import opened Requests
  import opened ScanModel
  import opened ProcessMemory
  import opened PersonLayout
  import opened Boosts
  import opened Mentality
  import opened MutationIndexes
  import opened PlayerBoosts
  import opened ScannedMemory
  import opened Coherence
  import D = DumpPipeline
  import PersonScanner
  import ParallelScanner
  import ScanSpec
  import S = StaffBoosts
  import W = BridgeProtocol
  import O = BoostOffers

  /**
   What a dump depends on beside memory: whether game version and modules were detected, how reads look at
   memory, where and how to scan. `outside` lacks the first scan, which the bridge does itself.
   */
  datatype DumpJob = DumpJob(
    requestId: string,
    detected: bool,
    look: Image -> Reader,
    gameAssembly: ModuleBounds,
    gamePlugin: Option<ModuleBounds>,
    scope: Scope,
    regions: seq<MemoryRegion>,
    processorCount: int,
    lowMemory: bool,
    supportsConcurrentReads: bool,
    cancelledInScan: bool,
    outside: D.Setting)
  {
    /** Reads see memory as it is when the dump runs, as far as they succeed. */
    ghost predicate IsTrue() { forall image :: ReadsImage(look(image), image) }

    function ContextOn(image: Image, layout: Layout): Context {
      Context(look(image), layout, gameAssembly, gamePlugin, scope)
    }

    function SettingWith(result: PersonScanner.ScanResult): D.Setting {
      outside.(layoutKnown := true, source := D.LIVE,
               first := D.Attempt(cancelledInScan, result.readQuality, result.players, result.staff))
    }
  }

  /** One piece of work for the bridge; whether a boost is cancelled is decided outside. */
  datatype Job =
    | Dump(dump: DumpJob)
    | BoostPlayer(request: BridgeRequest, detected: bool, cancelled: bool)
    | BoostStaff(request: BridgeRequest, detected: bool, cancelled: bool)

  /** Memory and the indexed persons at one time. */
  datatype Snapshot = Snapshot(image: Image, players: People, staff: People)

  /** The registry's two views of a layout, the scanner's and that of the boosts, describe the same records. */
  ghost predicate LayoutsAgree(layouts: LayoutRegistry, scanLayouts: string -> Option<Layout>) {
    forall v ::
      && (scanLayouts(v).Some? <==> layouts.resolve(v).Some?)
      && (scanLayouts(v).Some? ==>
            SameOffsets(scanLayouts(v).value, layouts.resolve(v).value)
            && KeepsRecordsApart(scanLayouts(v).value, layouts.resolve(v).value))
  }

  /** A registry that knows only the shipped layout is such a registry. */
  lemma ShippedLayoutsAgree(layouts: LayoutRegistry, scanLayouts: string -> Option<Layout>)
    requires forall v :: layouts.resolve(v).Some? ==> layouts.resolve(v).value == FM_26_3
    requires forall v :: scanLayouts(v).Some? <==> layouts.resolve(v).Some?
    requires forall v :: scanLayouts(v).Some? ==> IsPinned(scanLayouts(v).value)
    ensures LayoutsAgree(layouts, scanLayouts)
  {
    hide KeepsRecordsApart, FM_26_3;
    forall v | scanLayouts(v).Some? ensures KeepsRecordsApart(scanLayouts(v).value, FM_26_3) {
      PinnedScanKeepsRecordsApart(scanLayouts(v).value);
    }
  }

  /** The images agree on everything but these addresses. */
  ghost predicate AgreeOutside(a: Image, b: Image, writable: set<nat>) {
    a.Keys == b.Keys && forall k :: k in a && k !in writable ==> a[k] == b[k]
  }

  /** The current ability of the person lies at these addresses, and so do a player's mentality values. */
  ghost predicate LiesIn(layout: MutationLayout, c: PersonCandidate, writable: set<nat>) {
    && (CaAddress(layout, c).Some? ==>
          CaAddress(layout, c).value in writable && CaAddress(layout, c).value + 1 in writable)
    && (c.facet.Player? ==> forall f :: FieldAddress(layout, c, f).Some? ==> FieldAddress(layout, c, f).value in writable)
  }

  ghost predicate AllLieIn(layout: MutationLayout, people: People, writable: set<nat>) {
    forall u :: u in people ==> LiesIn(layout, people[u], writable)
  }

  lemma OwnValuesLieIn(before: Image, after: Image, layout: MutationLayout, people: People, writable: set<nat>)
    requires OnlyOnePersonDiffers(before, after, layout, people) && AllLieIn(layout, people, writable)
    ensures AgreeOutside(before, after, writable)
  {
    var u :| u in people && OnlyOwnValuesDiffer(before, after, layout, people[u]);
  }

  lemma AgreementIsTransitive(a: Image, b: Image, c: Image, writable: set<nat>)
    requires AgreeOutside(a, b, writable) && AgreeOutside(b, c, writable)
    ensures AgreeOutside(a, c, writable)
  {
  }

  lemma MovedLieIn(layout: MutationLayout, earlier: People, later: People, writable: set<nat>)
    requires AllLieIn(layout, earlier, writable) && SamePlaces(earlier, later)
    ensures AllLieIn(layout, later, writable)
  {
    forall u | u in later ensures LiesIn(layout, later[u], writable) {
      assert CaAddress(layout, later[u]) == CaAddress(layout, earlier[u]);
      assert forall f :: FieldAddress(layout, later[u], f) == FieldAddress(layout, earlier[u], f);
      hide CaAddress, FieldAddress;
    }
  }

  // ---------------------------------------------------------------- what a dump leaves in the indexes

  /** The players an index holds after a dump whose first scan was used. */
  ghost predicate HoldsPlayers(people: People, setting: D.Setting, l: People) {
    && (forall u :: u in people <==> !D.Retries(setting) && u in l && setting.hasIdentity(l[u]))
    && (forall u :: u in people ==> people[u] == l[u])
  }

  /** The staff an index holds: whoever is no player as well. */
  ghost predicate HoldsStaff(people: People, setting: D.Setting, l: People, players: People) {
    && (forall u :: u in people <==> !D.Retries(setting) && u in l && u !in players)
    && (forall u :: u in people ==> people[u] == l[u])
  }

  lemma {:induction false} IndexedHasAll(list: seq<PersonCandidate>, players: bool)
    requires forall c :: c in list ==> c.facet.Player? == players
    ensures forall c :: c in list ==> c.uid in Indexed(list, players)
  {
    if list != [] {
      var n := |list| - 1;
      IndexedHasAll(list[..n], players);
      assert forall c :: c in list ==> c in list[..n] || c == list[n];
    }
  }

  /** Indexing part of a table, filed by uid, gives back that part. */
  lemma IndexedPart(list: seq<PersonCandidate>, table: People, players: bool)
    requires forall c :: c in list ==> c.facet.Player? == players && c.uid in table && table[c.uid] == c
    ensures forall u :: u in Indexed(list, players) <==> u in table && table[u] in list && table[u].uid == u
    ensures forall u :: u in Indexed(list, players) ==> Indexed(list, players)[u] == table[u]
  {
    IndexedHasAll(list, players);
    hide Indexed;
    forall u | u in Indexed(list, players)
      ensures u in table && table[u] in list && table[u].uid == u && Indexed(list, players)[u] == table[u]
    {
      IndexedComesFrom(list, players, u);
    }
  }

  lemma KeyIsListed(table: People, u: Word32)
    requires u in table && Filed(table)
    ensures table[u] in PersonScanner.InKeyOrder(table)
  {
    PersonScanner.UidOrderLists(table);
    var list := PersonScanner.InKeyOrder(table);
    var i :| 0 <= i < |list| && list[i].uid == u;
  }

  /** Indexing the chosen ones of a list indexes the chosen ones of the table that the list is of. */
  lemma ChosenAreIndexed(offered: seq<PersonCandidate>, list: seq<PersonCandidate>, table: People, players: bool,
                         chosen: PersonCandidate -> bool)
    requires forall c :: c in offered <==> c in list && chosen(c)
    requires forall c :: c in list ==> c.facet.Player? == players && c.uid in table && table[c.uid] == c
    ensures forall u :: u in Indexed(offered, players) <==>
                 u in table && table[u].uid == u && table[u] in list && chosen(table[u])
    ensures forall u :: u in Indexed(offered, players) ==> Indexed(offered, players)[u] == table[u]
  {
    IndexedPart(offered, table, players);
  }

  lemma OfferedPlayersAreLedger(ctx: Context, regions: seq<MemoryRegion>, setting: D.Setting,
                                offered: seq<PersonCandidate>)
    requires ctx.Valid()
    requires forall c :: c in offered <==>
               !D.Retries(setting) && c in PersonScanner.ExpectedResult(ctx, regions).players && setting.hasIdentity(c)
    ensures HoldsPlayers(Indexed(offered, true), setting, ScanSpec.ScanLedgerOf(ctx, regions).players.people)
  {
    hide ScanSpec.ScanLedgerOf, PersonScanner.ExpectedResult, Indexed;
    ListedPlayers(ctx, regions);
    ChosenAreIndexed(offered, PersonScanner.ExpectedResult(ctx, regions).players,
                     ScanSpec.ScanLedgerOf(ctx, regions).players.people, true,
                     (c: PersonCandidate) => !D.Retries(setting) && setting.hasIdentity(c));
  }

  lemma OfferedStaffAreLedger(ctx: Context, regions: seq<MemoryRegion>, setting: D.Setting,
                              offered: seq<PersonCandidate>)
    requires ctx.Valid()
    requires forall c :: c in offered <==>
               !D.Retries(setting) && c in PersonScanner.ExpectedResult(ctx, regions).staff
               && c.uid !in D.Uids(PersonScanner.ExpectedResult(ctx, regions).players)
    ensures var l := ScanSpec.ScanLedgerOf(ctx, regions);
            HoldsStaff(Indexed(offered, false), setting, l.staff.people, l.players.people)
  {
    hide ScanSpec.ScanLedgerOf, PersonScanner.ExpectedResult, Indexed;
    ListedPlayers(ctx, regions);
    ListedStaff(ctx, regions);
    var players := PersonScanner.ExpectedResult(ctx, regions).players;
    ChosenAreIndexed(offered, PersonScanner.ExpectedResult(ctx, regions).staff,
                     ScanSpec.ScanLedgerOf(ctx, regions).staff.people, false,
                     (c: PersonCandidate) => !D.Retries(setting) && c.uid !in D.Uids(players));
  }

  /** What the pipeline offers after a successful run on live memory are the tables of the scan's ledger. */
  lemma OfferedIsLedger(ctx: Context, regions: seq<MemoryRegion>, job: DumpJob, r: D.Outcome)
    requires ctx.Valid()
    requires D.IsOutcome(job.SettingWith(PersonScanner.ExpectedResult(ctx, regions)), r) && r.Succeeded?
    ensures var setting := job.SettingWith(PersonScanner.ExpectedResult(ctx, regions));
            var l := ScanSpec.ScanLedgerOf(ctx, regions);
            && HoldsPlayers(Indexed(r.livePlayers, true), setting, l.players.people)
            && HoldsStaff(Indexed(r.liveStaff, false), setting, l.staff.people, l.players.people)
    ensures forall c :: c in r.livePlayers || c in r.liveStaff ==> c in PersonsFound(ctx, regions)
  {
    var result := PersonScanner.ExpectedResult(ctx, regions);
    hide ScanSpec.ScanLedgerOf, Indexed, D.IsOutcome, PersonScanner.ExpectedResult, HoldsPlayers, HoldsStaff, D.Retries,
         D.Uids;
    var setting := job.SettingWith(result);
    forall c: PersonCandidate
      ensures c in r.livePlayers <==> !D.Retries(setting) && c in result.players && setting.hasIdentity(c)
      ensures c in r.liveStaff <==> !D.Retries(setting) && c in result.staff && c.uid !in D.Uids(result.players)
    {
      D.LiveCandidatesAreLive(setting, r, c);
    }
    OfferedPlayersAreLedger(ctx, regions, setting, r.livePlayers);
    OfferedStaffAreLedger(ctx, regions, setting, r.liveStaff);
  }

  /** The scan's list of players holds exactly the ledger's players. */
  lemma ListedPlayers(ctx: Context, regions: seq<MemoryRegion>)
    requires ctx.Valid()
    ensures var list, table := PersonScanner.ExpectedResult(ctx, regions).players,
                               ScanSpec.ScanLedgerOf(ctx, regions).players.people;
            && (forall c :: c in list ==> c.facet.Player? && c.uid in table && table[c.uid] == c)
            && (forall u :: u in table ==> table[u].uid == u && table[u] in list)
  {
    hide ScanSpec.ScanLedgerOf, ScanSpec.Quality, PersonScanner.InKeyOrder, ScanSpec.Genuine;
    var l := ScanSpec.ScanLedgerOf(ctx, regions);
    forall u | u in l.players.people ensures l.players.people[u].uid == u && l.players.people[u].facet.Player? {
      ScanSpec.PlayersAreGenuine(ctx, regions, u);
    }
    forall u | u in l.players.people ensures l.players.people[u] in PersonScanner.InKeyOrder(l.players.people) {
      KeyIsListed(l.players.people, u);
    }
    forall c | c in PersonScanner.InKeyOrder(l.players.people)
      ensures c.facet.Player? && c.uid in l.players.people && l.players.people[c.uid] == c
    {
      var u := ListedByKey(l.players.people, c);
    }
  }

  /** Listing a table without some keys lists exactly the other entries. */
  lemma ListedPart(table: People, gone: set<Word32>)
    requires Filed(table)
    ensures forall c :: c in PersonScanner.InKeyOrder(table - gone) <==>
               c.uid in table && table[c.uid] == c && c.uid !in gone
  {
    hide PersonScanner.InKeyOrder;
    var rest := table - gone;
    forall c | c in PersonScanner.InKeyOrder(rest) ensures c.uid in rest && rest[c.uid] == c {
      var u := ListedByKey(rest, c);
    }
    forall c: PersonCandidate | c.uid in rest && rest[c.uid] == c ensures c in PersonScanner.InKeyOrder(rest) {
      KeyIsListed(rest, c.uid);
    }
  }

  /** The scan's list of staff holds exactly the ledger's staff who are no players. */
  lemma ListedStaff(ctx: Context, regions: seq<MemoryRegion>)
    requires ctx.Valid()
    ensures var list, l := PersonScanner.ExpectedResult(ctx, regions).staff, ScanSpec.ScanLedgerOf(ctx, regions);
            && (forall c :: c in list ==> !c.facet.Player? && c.uid in l.staff.people && l.staff.people[c.uid] == c)
            && (forall u :: u in l.staff.people ==>
                  l.staff.people[u].uid == u && (l.staff.people[u] in list <==> u !in l.players.people))
  {
    hide ScanSpec.ScanLedgerOf, ScanSpec.Quality, PersonScanner.InKeyOrder, ScanSpec.Genuine;
    var l := ScanSpec.ScanLedgerOf(ctx, regions);
    forall u | u in l.staff.people ensures l.staff.people[u].uid == u && !l.staff.people[u].facet.Player? {
      ScanSpec.StaffAreGenuine(ctx, regions, u);
    }
    ListedPart(l.staff.people, l.players.people.Keys);
  }

  // ---------------------------------------------------------------- the bridge

  /** The outcome of work that announced itself, as its status reports it. */
  function Announced(ready: bool, offer: W.Offer): W.Stage {
    W.Concluded(if ready then W.Ready else W.Failed, offer, true)
  }

  predicate IsStaffBoost(r: BridgeRequest) { r.operation == Some(BOOST_STAFF_CURRENT_ABILITY) }

  /** A boost that wrote at most this person's ability, and moved at most that in the index, moved nobody. */
  lemma OnlyOneMoved(before: Image, after: Image, layout: MutationLayout, c: PersonCandidate, people: People,
                     later: People)
    requires later == people || (c.uid in people && people[c.uid] == c && c.uid in later
                                   && later == people[c.uid := c.(ca := later[c.uid].ca)])
    ensures SamePlaces(people, later)
    ensures c.uid in people && people[c.uid] == c && OnlyAbilityDiffers(before, after, layout, c) ==>
              OnlyOnePersonDiffers(before, after, layout, people)
  {
    hide OnlyAbilityDiffers;
  }

  lemma NobodyMoved(people: People)
    ensures SamePlaces(people, people)
  {
  }

  /** A boost that keeps both indexes concludes, whether it was done or refused. */
  lemma KeepingConcludes(r: BridgeRequest, live: W.Live)
    requires !W.IsDump(r)
    ensures forall ready :: W.Concludes(r, live, live, Announced(ready, W.OfferOf(live)))
    ensures W.Concludes(r, live, live, Announced(false, W.OpeningOffer(r)))
  {
  }

  /** So does one that fails and empties both. */
  lemma EmptyingConcludes(r: BridgeRequest, before: W.Live)
    requires !W.IsDump(r)
    ensures W.Concludes(r, before, W.Live(false, false), Announced(false, W.OfferOf(W.Live(false, false))))
  {
  }

  /** A dump concludes whether it was done, failed with a report on the indexes, or failed without one. */
  lemma DumpConcludes(before: W.Live, after: W.Live, ready: bool, offer: W.Offer)
    requires if ready then offer == W.OfferOf(after) else after == before && offer in {W.OfferOf(after), W.NO_OFFER}
    ensures forall r :: W.IsDump(r) ==> W.Concludes(r, before, after, Announced(ready, offer))
    ensures O.IsBacked(offer, after)
  {
  }

  class Bridge {
    const memory: Memory
    const gameVersion: string
    const layouts: LayoutRegistry
    const scanLayouts: string -> Option<Layout>
    const players: MutationIndex
    const staff: MutationIndex
    const playerBoosts: PlayerBoostOperationService
    const staffBoosts: S.StaffBoostOperationService

    constructor (memory: Memory, gameVersion: string, layouts: LayoutRegistry, scanLayouts: string -> Option<Layout>)
      requires !IsBlank(Some(gameVersion)) && LayoutsAgree(layouts, scanLayouts)
      ensures Coherent() && this.memory == memory && this.gameVersion == gameVersion
      ensures this.layouts == layouts && this.scanLayouts == scanLayouts
      ensures fresh(players) && fresh(staff) && players.IsClear() && staff.IsClear()
    {
      hide LayoutsAgree;
      this.memory, this.gameVersion, this.layouts, this.scanLayouts := memory, gameVersion, layouts, scanLayouts;
      var livePlayers := new MutationIndex(true);
      var liveStaff := new MutationIndex(false);
      players, staff := livePlayers, liveStaff;
      playerBoosts := new PlayerBoostOperationService(layouts, livePlayers);
      staffBoosts := new S.StaffBoostOperationService(layouts, liveStaff);
    }

    ghost predicate Wired() {
      && playerBoosts.index == players && staffBoosts.index == staff && players != staff
      && playerBoosts.layouts == layouts && staffBoosts.layouts == layouts && LayoutsAgree(layouts, scanLayouts)
      && players.players && !staff.players && !IsBlank(Some(gameVersion))
    }

    /** Every live index entry caches exactly what memory holds. */
    ghost predicate Coherent()
      reads memory, players, staff
    {
      && Wired() && players.Valid() && staff.Valid()
      && match layouts.resolve(gameVersion)
         case None => players.people == map[] && staff.people == map[]
         case Some(layout) => InStepWithMemory(memory.image, layout, players.people, staff.people)
    }

    /** Whether there are candidates for boosts of players, and of staff. */
    function LiveNow(): W.Live
      reads playerBoosts.index, staffBoosts.index
    {
      W.Live(playerBoosts.HasSupportedLiveIndex(gameVersion), staffBoosts.HasSupportedLiveIndex(gameVersion))
    }

    /** What is offered has candidates behind it, and their abilities in memory are those cached. */
    ghost predicate CanKeep(offer: W.Offer)
      reads memory, players, staff, playerBoosts.index, staffBoosts.index
    {
      && (offer.players == Some(true) ==> players.people != map[] && players.gameVersion == Some(gameVersion))
      && (offer.staff == Some(true) ==> staff.people != map[] && staff.gameVersion == Some(gameVersion))
      && Coherent()
    }

    lemma BackedIsKept(offer: W.Offer)
      requires Coherent() && O.IsBacked(offer, LiveNow())
      ensures CanKeep(offer)
    {
      hide InStepWithMemory, LayoutsAgree;
    }

    /** No indexed person has a value that a boost may write at other addresses than these. */
    ghost predicate WritesOnly(writable: set<nat>)
      reads players, staff
    {
      layouts.resolve(gameVersion).Some? ==>
        && AllLieIn(layouts.resolve(gameVersion).value, players.people, writable)
        && AllLieIn(layouts.resolve(gameVersion).value, staff.people, writable)
    }

    lemma ReadyForBoosts()
      requires Coherent()
      ensures playerBoosts.Ready(gameVersion) && staffBoosts.Ready()
    {
    }

    lemma ClearedInStep(image: Image)
      ensures forall layout :: InStepWithMemory(image, layout, map[], map[])
    {
    }

    /** Empties both indexes. */
    method EmptyIndexes()
      requires Wired()
      modifies players, staff
      ensures Coherent() && players.IsClear() && staff.IsClear() && LiveNow() == W.Live(false, false)
      ensures forall earlier :: SamePlaces(earlier, players.people) && SamePlaces(earlier, staff.people)
    {
      hide LayoutsAgree;
      players.Clear();
      staff.Clear();
      ClearedInStep(memory.image);
    }

    /**
     A player boost: done in full, with the other index untouched and the player still identified in memory; or
     not done with everything as before; or, whenever memory might have been changed, not done with both
     indexes emptied. Whatever happens, only values of one indexed player that a boost may write can change.
     */
    method RunPlayerBoost(request: BridgeRequest, detected: bool, cancelled: bool)
      returns (ready: bool, offer: W.Offer)
      requires Coherent()
      modifies memory`image, players, staff
      ensures Coherent() && O.IsBacked(offer, LiveNow())
      ensures !W.IsDump(request) && !IsStaffBoost(request) ==>
                W.Concludes(request, old(LiveNow()), LiveNow(), Announced(ready, offer))
      ensures ready ==> !cancelled && detected && unchanged(staff)
      ensures ready ==>
                exists r, c, layout ::
                  && old(playerBoosts.Located(request, gameVersion, memory.image, c, layout))
                  && Completed(r, request, old(memory.image), memory.image, old(players.people), players.people, layout,
                               c)
                  && c.uid in players.people
                  && LiveMatches(memory.image, layout, players.people[c.uid], players.people[c.uid].ca,
                                 players.people[c.uid].pa)
      ensures !ready ==>
                || (players.IsClear() && staff.IsClear())
                || (memory.image == old(memory.image) && players.people == old(players.people) && unchanged(staff))
      ensures cancelled || !detected || old(playerBoosts.IsOutdated(request, gameVersion)) ==>
                !ready && unchanged(memory) && unchanged(players) && unchanged(staff)
      ensures !cancelled && detected && !old(playerBoosts.HasNamed(request, gameVersion)) ==>
                !ready && unchanged(memory) && players.IsClear() && staff.IsClear()
      ensures !cancelled && detected && memory.reliable && request.operation == Some("boost-current-ability")
              && request.currentAbilityIncrement.Some? && NamesIncrement(request)
              && old(playerBoosts.Locatable(request, gameVersion, memory.image)) ==>
                if request.expectedCurrentAbility == request.expectedPotentialAbility
                then !ready && unchanged(memory) && unchanged(players) && unchanged(staff) else ready
      ensures memory.image != old(memory.image) ==>
                && layouts.resolve(gameVersion).Some?
                && OnlyOnePersonDiffers(old(memory.image), memory.image, layouts.resolve(gameVersion).value,
                                        old(players.people))
      ensures SamePlaces(old(players.people), players.people) && SamePlaces(old(staff.people), staff.people)
    {
      hide InStepWithMemory, Completed, NamesBoost, LiveMatches, SpreadOut, OnlyAbilityDiffers, OnlyMentalityDiffers,
           LayoutsAgree, W.Concludes;
      if !W.IsDump(request) {
        KeepingConcludes(request, LiveNow());
        EmptyingConcludes(request, LiveNow());
      }
      if cancelled || !detected {
        return false, W.Offer(Some(false), None);
      }
      ReadyForBoosts();
      ghost var before, peopleBefore := memory.image, players.people;
      var r, c, layout := playerBoosts.Execute(request, gameVersion, memory);
      assert memory.image != before ==> peopleBefore[c.uid] == c;
      if r.succeeded {
        BoostInStep(r, request, before, memory.image, layout, peopleBefore, staff.people, players.people, c);
        BoostedIsStillThere(r, request, before, memory.image, layout, peopleBefore, staff.people, players.people, c);
        return true, W.OfferOf(LiveNow());
      }
      if !PreservesLiveIndex(r.failure) {
        EmptyIndexes();
      }
      ready, offer := false, W.OfferOf(LiveNow());
    }

    method RunStaffBoost(request: BridgeRequest, detected: bool, cancelled: bool)
      returns (ready: bool, offer: W.Offer)
      requires Coherent()
      modifies memory`image, players, staff
      ensures Coherent() && O.IsBacked(offer, LiveNow())
      ensures IsStaffBoost(request) ==>
                W.Concludes(request, old(LiveNow()), LiveNow(), Announced(ready, offer))
      ensures ready ==> !cancelled && detected && unchanged(players)
      ensures ready ==>
                exists c, layout ::
                  && old(staffBoosts.Located(request, gameVersion, memory.image, c, layout))
                  && AbilityRaised(old(memory.image), memory.image, old(staff.people), staff.people, layout, c,
                                   Boosted(c.ca, c.pa, S.INCREMENT))
      ensures !ready ==>
                || (players.IsClear() && staff.IsClear())
                || (memory.image == old(memory.image) && staff.people == old(staff.people) && unchanged(players))
      ensures cancelled || !detected || old(staffBoosts.IsOutdated(request, gameVersion)) ==>
                !ready && unchanged(memory) && unchanged(players) && unchanged(staff)
      ensures !cancelled && detected && !old(staffBoosts.HasNamed(request, gameVersion)) ==>
                !ready && unchanged(memory) && players.IsClear() && staff.IsClear()
      ensures !cancelled && detected && memory.reliable
              && old(staffBoosts.Locatable(request, gameVersion, memory.image)) ==>
                if request.expectedCurrentAbility == request.expectedPotentialAbility
                then !ready && unchanged(memory) && unchanged(players) && unchanged(staff) else ready
      ensures memory.image != old(memory.image) ==>
                && layouts.resolve(gameVersion).Some?
                && OnlyOnePersonDiffers(old(memory.image), memory.image, layouts.resolve(gameVersion).value,
                                        old(staff.people))
      ensures SamePlaces(old(players.people), players.people) && SamePlaces(old(staff.people), staff.people)
    {
      hide InStepWithMemory, S.Executable, LiveMatches, OnlyAbilityDiffers, Boosted, CaAddress, LayoutsAgree,
           W.Concludes, SamePlaces, OnlyOnePersonDiffers;
      if IsStaffBoost(request) {
        KeepingConcludes(request, LiveNow());
        EmptyingConcludes(request, LiveNow());
      }
      assert SamePlaces(players.people, players.people) && SamePlaces(staff.people, staff.people) by {
        NobodyMoved(players.people);
        NobodyMoved(staff.people);
      }
      if cancelled || !detected {
        return false, W.Offer(None, Some(false));
      }
      ReadyForBoosts();
      ghost var before, peopleBefore := memory.image, staff.people;
      var r, c, layout := staffBoosts.Execute(request, gameVersion, memory);
      assert memory.image != before ==> peopleBefore[c.uid] == c;
      OnlyOneMoved(before, memory.image, layout, c, peopleBefore, staff.people);
      if r.succeeded {
        StaffRaisedInStep(before, memory.image, layout, players.people, peopleBefore, c.uid,
                          Boosted(c.ca, c.pa, S.INCREMENT));
        return true, W.OfferOf(LiveNow());
      }
      if !PreservesLiveIndex(r.failure) {
        EmptyIndexes();
      }
      ready, offer := false, W.OfferOf(LiveNow());
    }

    /** A scan of this image finds persons whose values the game keeps in different places. */
    ghost predicate FindsApart(job: DumpJob, image: Image) {
      scanLayouts(gameVersion).Some? && layouts.resolve(gameVersion).Some?
      && job.ContextOn(image, scanLayouts(gameVersion).value).Valid() ==>
        ApartFromOneAnother(layouts.resolve(gameVersion).value,
                            PersonsFound(job.ContextOn(image, scanLayouts(gameVersion).value), job.regions))
    }

    /** The indexes hold what the ledger of the scan holds, as far as the build is approved for boosts. */
    ghost predicate HoldsLedger(job: DumpJob, ctx: Context)
      requires ctx.Valid()
      reads players, staff
    {
      var setting := job.SettingWith(PersonScanner.ExpectedResult(ctx, job.regions));
      var l := ScanSpec.ScanLedgerOf(ctx, job.regions);
      && (if playerBoosts.SupportsExactGameBuild(gameVersion)
          then HoldsPlayers(players.people, setting, l.players.people) else players.IsClear())
      && (if staffBoosts.SupportsExactGameBuild(gameVersion)
          then HoldsStaff(staff.people, setting, l.staff.people, l.players.people) else staff.IsClear())
    }

    lemma AgreedLayout() returns (layout: MutationLayout)
      requires Wired() && scanLayouts(gameVersion).Some?
      ensures layouts.resolve(gameVersion) == Some(layout)
      ensures SameOffsets(scanLayouts(gameVersion).value, layout)
      ensures KeepsRecordsApart(scanLayouts(gameVersion).value, layout)
    {
      hide SameOffsets, KeepsRecordsApart;
      layout := layouts.resolve(gameVersion).value;
    }

    /**
     A dump scans live memory and, on success, replaces both live indexes. For a build approved for boosts an
     index then holds exactly the persons in the ledger of that scan: the identified players, and the staff who
     are no players; after a retry on a snapshot, or for other builds, it is empty. A failed dump keeps both.
     */
    method RunDump(job: DumpJob) returns (ready: bool, offer: W.Offer)
      requires Coherent() && !IsBlank(Some(job.requestId)) && job.IsTrue() && FindsApart(job, memory.image)
      modifies players, staff
      ensures Coherent() && O.IsBacked(offer, LiveNow())
      ensures forall request :: W.IsDump(request) ==>
                W.Concludes(request, old(LiveNow()), LiveNow(), Announced(ready, offer))
      ensures !ready ==> unchanged(players) && unchanged(staff)
      ensures ready ==> scanLayouts(gameVersion).Some? && IsDumped(job, scanLayouts(gameVersion).value)
      ensures ready <==>
                && job.detected && scanLayouts(gameVersion).Some? && scanLayouts(gameVersion).value.Scannable()
                && CanDump(job, scanLayouts(gameVersion).value)
    {
      hide InStepWithMemory, LayoutsAgree, Coherent, IsDumped, CanDump, FindsApart, DumpJob.IsTrue, Layout.Scannable,
           W.Concludes, Announced, O.IsBacked;
      ghost var before := LiveNow();
      // An unknown version fails the dump, a missing layout the pipeline; a layout that the scanner refuses crashes it.
      if job.detected && scanLayouts(gameVersion).None? {
        DumpConcludes(before, before, false, W.OfferOf(before));
        return false, W.OfferOf(LiveNow());
      }
      if !job.detected || !scanLayouts(gameVersion).value.Scannable() {
        DumpConcludes(before, before, false, W.NO_OFFER);
        return false, W.NO_OFFER;
      }
      ready := ScanAndFile(job, scanLayouts(gameVersion).value);
      offer := W.OfferOf(LiveNow());
      DumpConcludes(before, LiveNow(), ready, offer);
    }

    /** The indexes hold what a scan of memory with this layout finds, under the dump's id. */
    ghost predicate IsDumped(job: DumpJob, layout: Layout)
      reads memory, players, staff
    {
      && job.ContextOn(memory.image, layout).Valid() && HoldsLedger(job, job.ContextOn(memory.image, layout))
      && (players.IsClear() || players.sourceRequestId == Some(job.requestId))
      && (staff.IsClear() || staff.sourceRequestId == Some(job.requestId))
    }

    /** A dump can be made of what a scan of memory with this layout finds. */
    ghost predicate CanDump(job: DumpJob, layout: Layout)
      reads memory
    {
      CanDumpOf(job, layout, memory.image)
    }

    ghost predicate CanDumpOf(job: DumpJob, layout: Layout, image: Image) {
      var ctx := job.ContextOn(image, layout);
      ctx.Valid() && D.Succeeds(job.SettingWith(PersonScanner.ExpectedResult(ctx, job.regions)))
    }

    /** Scans memory, runs the pipeline on what the scan finds and, if that succeeds, files it. */
    method ScanAndFile(job: DumpJob, layout: Layout) returns (done: bool)
      requires Coherent() && !IsBlank(Some(job.requestId)) && job.IsTrue() && FindsApart(job, memory.image)
      requires scanLayouts(gameVersion) == Some(layout) && layout.Scannable()
      modifies players, staff
      ensures Coherent()
      ensures if done then IsDumped(job, layout) else unchanged(players) && unchanged(staff)
      ensures done <==> CanDump(job, layout)
    {
      hide InStepWithMemory, Indexed, LayoutsAgree, D.IsOutcome, D.Succeeds, D.IsDumpOf, PersonScanner.ExpectedResult,
           ApartFromOneAnother, PersonsFound, HoldsLedger, Coherent;
      var ctx := job.ContextOn(memory.image, layout);
      SoundReader(job, memory.image);
      var diagnostics := new PersonScanner.ScanDiagnostics();
      var result := ParallelScanner.Scan(ctx, job.regions, diagnostics, job.processorCount, job.lowMemory,
                                         job.supportsConcurrentReads, true);
      var outcome, _ := D.Run(job.SettingWith(result));
      D.OutcomeInFull(job.SettingWith(result), outcome);
      done := outcome.Succeeded?;
      if done {
        ReplaceIndexes(job, ctx, outcome);
      }
    }

    lemma SoundReader(job: DumpJob, image: Image)
      requires job.IsTrue()
      ensures ReadsImage(job.look(image), image) && job.look(image).Sound()
    {
    }

    /** Fills the indexes with the candidates of a successful run, or empties them. */
    method ReplaceIndexes(job: DumpJob, ghost ctx: Context, outcome: D.Outcome)
      requires Coherent() && !IsBlank(Some(job.requestId)) && FindsApart(job, memory.image)
      requires scanLayouts(gameVersion).Some? && ctx == job.ContextOn(memory.image, scanLayouts(gameVersion).value)
      requires ctx.Valid() && ReadsImage(ctx.reader, memory.image)
      requires D.IsOutcome(job.SettingWith(PersonScanner.ExpectedResult(ctx, job.regions)), outcome) && outcome.Succeeded?
      modifies players, staff
      ensures Coherent() && HoldsLedger(job, ctx)
      ensures players.IsClear() || players.sourceRequestId == Some(job.requestId)
      ensures staff.IsClear() || staff.sourceRequestId == Some(job.requestId)
    {
      hide InStepWithMemory, Indexed, LayoutsAgree, ReadsImage, D.IsOutcome, PersonScanner.ExpectedResult, HoldsPlayers,
           HoldsStaff, ScanSpec.ScanLedgerOf, ApartFromOneAnother, PersonsFound, SameOffsets, KeepsRecordsApart,
           Reader.Sound, Layout.Scannable;
      ghost var layout := AgreedLayout();
      OfferedIsLedger(ctx, job.regions, job, outcome);
      FreshTablesAreCoherent(ctx, memory.image, job.regions, layout, outcome.livePlayers, outcome.liveStaff);
      EmptiedStaysInStep(memory.image, layout, Indexed(outcome.livePlayers, true), Indexed(outcome.liveStaff, false));
      NobodyIndexed(outcome.livePlayers, true);
      NobodyIndexed(outcome.liveStaff, false);
      if |outcome.livePlayers| > 0 && playerBoosts.SupportsExactGameBuild(gameVersion) {
        players.Replace(job.requestId, gameVersion, outcome.livePlayers);
      } else {
        players.Clear();
      }
      if |outcome.liveStaff| > 0 && staffBoosts.SupportsExactGameBuild(gameVersion) {
        staff.Replace(job.requestId, gameVersion, outcome.liveStaff);
      } else {
        staff.Clear();
      }
    }

    lemma HeldAreFound(job: DumpJob, ctx: Context)
      requires ctx.Valid() && HoldsLedger(job, ctx)
      ensures forall u :: u in players.people ==> players.people[u] in PersonsFound(ctx, job.regions)
      ensures forall u :: u in staff.people ==> staff.people[u] in PersonsFound(ctx, job.regions)
    {
      hide PersonScanner.ExpectedResult, ScanSpec.ScanLedgerOf;
      ListedPlayers(ctx, job.regions);
      ListedStaff(ctx, job.regions);
    }

    /** Whatever boosts write into these addresses, the dump's scan finds persons apart whose values lie in them. */
    ghost predicate IsPossible(job: DumpJob, first: Image, writable: set<nat>) {
      && !IsBlank(Some(job.requestId)) && job.IsTrue()
      && forall image :: AgreeOutside(first, image, writable) ==>
           FindsApart(job, image) && FindsWithin(job, image, writable)
    }

    ghost predicate FindsWithin(job: DumpJob, image: Image, writable: set<nat>) {
      scanLayouts(gameVersion).Some? && layouts.resolve(gameVersion).Some?
      && job.ContextOn(image, scanLayouts(gameVersion).value).Valid() ==>
        forall c :: c in PersonsFound(job.ContextOn(image, scanLayouts(gameVersion).value), job.regions) ==>
          LiesIn(layouts.resolve(gameVersion).value, c, writable)
    }

    lemma DumpedWithin(job: DumpJob, image: Image, writable: set<nat>)
      requires FindsWithin(job, image, writable) && scanLayouts(gameVersion).Some?
      requires job.ContextOn(image, scanLayouts(gameVersion).value).Valid()
      requires HoldsLedger(job, job.ContextOn(image, scanLayouts(gameVersion).value))
      ensures WritesOnly(writable)
    {
      hide HoldsLedger, PersonsFound, LiesIn, Reader.Sound;
      HeldAreFound(job, job.ContextOn(image, scanLayouts(gameVersion).value));
    }

    ghost function Now(): Snapshot
      reads memory, players, staff
    {
      Snapshot(memory.image, players.people, staff.people)
    }

    /** A dump is made exactly if a scan of memory allows it. Then the indexes hold the ledger of that scan. */
    ghost predicate Dumps(job: DumpJob, s: Snapshot, t: Snapshot, ready: bool) {
      && t.image == s.image && (!ready ==> t == s)
      && (ready <==> job.detected && scanLayouts(gameVersion).Some? && scanLayouts(gameVersion).value.Scannable()
                     && CanDumpOf(job, scanLayouts(gameVersion).value, s.image))
      && (ready ==> FilesLedger(job, scanLayouts(gameVersion).value, s, t))
    }

    ghost predicate FilesLedger(job: DumpJob, layout: Layout, s: Snapshot, t: Snapshot) {
      && job.ContextOn(s.image, layout).Valid()
      && var ctx := job.ContextOn(s.image, layout);
         var setting := job.SettingWith(PersonScanner.ExpectedResult(ctx, job.regions));
         var l := ScanSpec.ScanLedgerOf(ctx, job.regions);
         && (if playerBoosts.SupportsExactGameBuild(gameVersion)
             then HoldsPlayers(t.players, setting, l.players.people) else t.players == map[])
         && (if staffBoosts.SupportsExactGameBuild(gameVersion)
             then HoldsStaff(t.staff, setting, l.staff.people, l.players.people) else t.staff == map[])
    }

    /** A boost that does not come about leaves everything as it is, or at most empties the indexes. */
    ghost predicate Emptied(s: Snapshot, t: Snapshot) { t == s || (t.players == map[] && t.staff == map[]) }

    ghost predicate BoostsPlayer(request: BridgeRequest, s: Snapshot, t: Snapshot) {
      && t.staff == s.staff
      && exists e: Execution, c: PersonCandidate, layout: MutationLayout ::
           && request.playerUid == Some(c.uid) && c.uid in s.players && s.players[c.uid] == c
           && Completed(e, request, s.image, t.image, s.players, t.players, layout, c)
    }

    ghost predicate BoostsStaff(request: BridgeRequest, s: Snapshot, t: Snapshot) {
      && t.players == s.players
      && exists c: PersonCandidate, layout: MutationLayout ::
           && request.staffUid == Some(c.uid) && c.uid in s.staff && s.staff[c.uid] == c
           && AbilityRaised(s.image, t.image, s.staff, t.staff, layout, c, Boosted(c.ca, c.pa, S.INCREMENT))
    }

    /** What one piece of work makes of the bridge. */
    ghost predicate TakesEffect(job: Job, s: Snapshot, t: Snapshot, ready: bool) {
      match job
      case Dump(dump) => Dumps(dump, s, t, ready)
      case BoostPlayer(request, detected, cancelled) =>
        && (cancelled || !detected ==> !ready && t == s)
        && if ready then BoostsPlayer(request, s, t) else Emptied(s, t)
      case BoostStaff(request, detected, cancelled) =>
        && (cancelled || !detected ==> !ready && t == s)
        && if ready then BoostsStaff(request, s, t) else Emptied(s, t)
    }

    /** The work is done piece by piece: each takes its effect on what the one before it has left. */
    ghost predicate IsTrace(jobs: seq<Job>, trace: seq<Snapshot>, verdicts: seq<bool>) {
      && |trace| == |jobs| + 1 && |verdicts| == |jobs|
      && forall i :: 0 <= i < |jobs| ==> TakesEffect(jobs[i], trace[i], trace[i + 1], verdicts[i])
    }

    lemma TraceGrows(jobs: seq<Job>, trace: seq<Snapshot>, verdicts: seq<bool>, n: nat, t: Snapshot, ready: bool)
      requires n < |jobs| && IsTrace(jobs[..n], trace, verdicts) && TakesEffect(jobs[n], trace[n], t, ready)
      ensures IsTrace(jobs[..n + 1], trace + [t], verdicts + [ready])
    {
      hide TakesEffect;
    }

    /**
     Any run of dumps and boosts, whatever memory does to reads and writes, does each of them in turn, leaves the
     indexes coherent, and has changed nothing but values of persons found, which lie in the given addresses.
     Boosts that the last status offers have candidates behind them.
     */
    method Run(jobs: seq<Job>, ghost writable: set<nat>)
      returns (offer: W.Offer, verdicts: seq<bool>, ghost trace: seq<Snapshot>)
      requires Coherent() && WritesOnly(writable)
      requires forall j :: j in jobs && j.Dump? ==> IsPossible(j.dump, memory.image, writable)
      modifies memory`image, players, staff
      ensures Coherent() && WritesOnly(writable) && CanKeep(offer)
      ensures AgreeOutside(old(memory.image), memory.image, writable)
      ensures IsTrace(jobs, trace, verdicts) && trace[0] == old(Now()) && trace[|jobs|] == Now()
    {
      hide Coherent, FindsApart, FindsWithin, HoldsLedger, D.IsOutcome, Completed, LiveMatches, OnlyOnePersonDiffers,
           SamePlaces, AllLieIn, AbilityRaised, DumpJob.IsTrue, Reader.Sound, TakesEffect, IsTrace;
      ghost var first := memory.image;
      offer, verdicts, trace := W.NO_OFFER, [], [Now()];
      NothingTraced(trace);
      for i := 0 to |jobs|
        invariant Coherent() && WritesOnly(writable) && AgreeOutside(first, memory.image, writable)
        invariant O.IsBacked(offer, LiveNow())
        invariant |trace| == i + 1 && trace[0] == old(Now()) && trace[i] == Now()
        invariant IsTrace(jobs[..i], trace, verdicts)
      {
        var ready;
        ready, offer := Perform(jobs[i], first, writable);
        TraceGrows(jobs, trace, verdicts, i, Now(), ready);
        verdicts, trace := verdicts + [ready], trace + [Now()];
      }
      assert jobs[..|jobs|] == jobs;
      BackedIsKept(offer);
    }

    lemma NothingTraced(trace: seq<Snapshot>)
      requires |trace| == 1
      ensures IsTrace([], trace, [])
    {
    }

    lemma LedgerIsFiled(job: DumpJob, layout: Layout, s: Snapshot)
      requires IsDumped(job, layout) && s.image == memory.image
      ensures FilesLedger(job, layout, s, Now())
    {
      hide PersonScanner.ExpectedResult, ScanSpec.ScanLedgerOf, HoldsPlayers, HoldsStaff, Reader.Sound;
    }

    /** Boosts are live exactly for an approved build whose version the index was filled for, with somebody in it. */
    lemma LiveMeansFilled()
      requires Coherent()
      ensures LiveNow().players <==>
                && layouts.resolve(gameVersion).Some? && layouts.supportsPlayerBoosts(gameVersion)
                && players.gameVersion == Some(gameVersion) && exists u :: u in players.people
      ensures LiveNow().staff <==>
                && layouts.resolve(gameVersion).Some? && layouts.supportsStaffBoosts(gameVersion)
                && staff.gameVersion == Some(gameVersion) && exists u :: u in staff.people
    {
      hide InStepWithMemory, LayoutsAgree;
      SomebodyOrNobody(players.people);
      SomebodyOrNobody(staff.people);
    }

    lemma IndexesAreWired()
      requires Coherent()
      ensures playerBoosts.index == players && staffBoosts.index == staff
    {
    }

    /** One piece of work. */
    method Perform(job: Job, ghost first: Image, ghost writable: set<nat>) returns (ready: bool, offer: W.Offer)
      requires Coherent() && WritesOnly(writable) && AgreeOutside(first, memory.image, writable)
      requires job.Dump? ==> IsPossible(job.dump, first, writable)
      modifies memory`image, players, staff
      ensures Coherent() && WritesOnly(writable) && O.IsBacked(offer, LiveNow())
      ensures AgreeOutside(first, memory.image, writable)
      ensures TakesEffect(job, old(Now()), Now(), ready)
    {
      hide Coherent, FindsApart, FindsWithin, HoldsLedger, D.IsOutcome, Completed, LiveMatches, OnlyOnePersonDiffers,
           SamePlaces, AllLieIn, AbilityRaised, DumpJob.IsTrue, Reader.Sound, FilesLedger, CanDumpOf, W.Concludes;
      ghost var before, playersBefore, staffBefore := memory.image, players.people, staff.people;
      ghost var layout := layouts.resolve(gameVersion);
      IndexesAreWired();
      match job {
        case Dump(dump) =>
          ready, offer := RunDump(dump);
          if ready {
            DumpedWithin(dump, memory.image, writable);
            LedgerIsFiled(dump, scanLayouts(gameVersion).value, Snapshot(before, playersBefore, staffBefore));
          }
        case BoostPlayer(request, detected, cancelled) =>
          ready, offer := RunPlayerBoost(request, detected, cancelled);
          StaysWithin(layout, first, before, memory.image, playersBefore, players.people, writable);
          MovedStaysWithin(layout, staffBefore, staff.people, writable);
        case BoostStaff(request, detected, cancelled) =>
          ready, offer := RunStaffBoost(request, detected, cancelled);
          StaysWithin(layout, first, before, memory.image, staffBefore, staff.people, writable);
          MovedStaysWithin(layout, playersBefore, players.people, writable);
      }
    }
  }

  lemma SomebodyOrNobody(people: People)
    ensures people != map[] <==> exists u :: u in people
  {
    if people != map[] {
      assert people.Keys != {};
      var u :| u in people.Keys;
    }
  }

  lemma MovedStaysWithin(layout: Option<MutationLayout>, earlier: People, later: People, writable: set<nat>)
    requires layout.Some? ==> AllLieIn(layout.value, earlier, writable)
    requires SamePlaces(earlier, later)
    ensures layout.Some? ==> AllLieIn(layout.value, later, writable)
  {
    hide AllLieIn, SamePlaces;
    if layout.Some? {
      MovedLieIn(layout.value, earlier, later, writable);
    }
  }

  /** A boost of a person of one table writes into that person's values only. */
  lemma StaysWithin(layout: Option<MutationLayout>, first: Image, before: Image, after: Image, earlier: People,
                    later: People, writable: set<nat>)
    requires layout.Some? ==> AllLieIn(layout.value, earlier, writable)
    requires AgreeOutside(first, before, writable) && SamePlaces(earlier, later)
    requires after != before ==> layout.Some? && OnlyOnePersonDiffers(before, after, layout.value, earlier)
    ensures layout.Some? ==> AllLieIn(layout.value, later, writable)
    ensures AgreeOutside(first, after, writable)
  {
    hide AllLieIn, SamePlaces, OnlyOnePersonDiffers, AgreeOutside;
    MovedStaysWithin(layout, earlier, later, writable);
    if after != before {
      OwnValuesLieIn(before, after, layout.value, earlier, writable);
      AgreementIsTransitive(first, before, after, writable);
    }
  }

  lemma NobodyIndexed(list: seq<PersonCandidate>, players: bool)
    ensures |list| == 0 ==> Indexed(list, players) == map[]
  {
  }

  lemma EmptiedStaysInStep(image: Image, layout: MutationLayout, players: People, staff: People)
    requires InStepWithMemory(image, layout, players, staff)
    ensures InStepWithMemory(image, layout, map[], staff) && InStepWithMemory(image, layout, players, map[])
    ensures InStepWithMemory(image, layout, map[], map[])
  {
    hide Undisturbed, HoldsAbilities, KeepsOwnApart;
  }
}
