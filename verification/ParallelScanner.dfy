/**
 Scanning a list of regions sequentially, or in slices by independent workers whose results are merged in
 worker order. Whatever the number of workers, result and counters are those of the sequential scan.
 */
module ParallelScanner {
  import opened Wrappers
  import opened BlockReads
  import opened ScanModel
  import opened ScanLedger
  import opened ScanWalk
  import opened ScanSpec
  import opened PersonScanner

  /** Counters and result of a finished scan, apart from the worker-private order of accepted players. */
  ghost predicate Finished(ctx: Context, regions: seq<MemoryRegion>, diagnostics: ScanDiagnostics, result: ScanResult)
    requires ctx.Valid()
    reads diagnostics
  {
    && result == ExpectedResult(ctx, regions)
    && diagnostics.Shows(ScanLedgerOf(ctx, regions))
    && diagnostics.readQuality == Quality(ctx, regions)
    && diagnostics.playerStaffOverlapCount == |result.playerStaffOverlapUids|
  }

  method BuildResult(ctx: Context, tables: ScanTables, diagnostics: ScanDiagnostics, quality: ReadQuality,
                     ghost regions: seq<MemoryRegion>)
    returns (result: ScanResult)
    requires ctx.Valid() && tables.Holds(ScanLedgerOf(ctx, regions)) && diagnostics.Shows(ScanLedgerOf(ctx, regions))
    requires quality == Quality(ctx, regions)
    modifies diagnostics`playerStaffOverlapCount, diagnostics`readQuality
    ensures Finished(ctx, regions, diagnostics, result)
  {
    hide ScanLedgerOf, Reader.Sound, Quality;
    result := ResultOf(tables.players, tables.staff, tables.managers, tables.clubs, quality);
    diagnostics.playerStaffOverlapCount := |result.playerStaffOverlapUids|;
    diagnostics.readQuality := quality;
  }

  method RejectRegion(reader: Reader, tables: ScanTables, diagnostics: ScanDiagnostics,
                      ghost obs: seq<Observation>, ghost rejectedRegions: nat)
    requires InStep(reader, tables, diagnostics, obs, rejectedRegions)
    modifies diagnostics`candidatesRejected
    ensures InStep(reader, tables, diagnostics, obs, rejectedRegions + 1)
  {
    diagnostics.candidatesRejected := diagnostics.candidatesRejected + 1;
  }

  /** The body of the region loop: a region is skipped, rejected or walked. */
  method VisitRegion(ctx: Context, region: MemoryRegion, buffer: array<Byte>, tables: ScanTables,
                     diagnostics: ScanDiagnostics, quality: ReadQuality,
                     ghost obs: seq<Observation>, ghost rejectedRegions: nat)
    returns (q: ReadQuality)
    requires ctx.Valid() && buffer.Length == SCAN_BLOCK_SIZE
    requires InStep(ctx.reader, tables, diagnostics, obs, rejectedRegions)
    modifies buffer, tables, diagnostics
    ensures InStep(ctx.reader, tables, diagnostics, obs + ObserveBlocks(ctx, BlocksOf(ctx.layout, region)),
                   rejectedRegions + (if PlanFor(ctx.layout, region).Malformed? then 1 else 0))
    ensures q == quality.Add(BlocksQuality(ctx.reader, BlocksOf(ctx.layout, region)))
  {
    hide InStep, Reader.Sound, Walk, ObserveBlock, BlockQuality;
    var headerBytes := ctx.layout.HeaderBytes();
    assert obs + [] == obs;
    q := quality;
    if region.size < headerBytes {
      return;
    }
    var end, blockStart := TryAdd(region.baseAddress, region.size), TryAlignUp(region.baseAddress);
    if end.None? || blockStart.None? || blockStart.value > end.value || end.value - blockStart.value < headerBytes {
      RejectRegion(ctx.reader, tables, diagnostics, obs, rejectedRegions);
      return;
    }
    assert BlocksOf(ctx.layout, region) ==
           Walk(blockStart.value, end.value, headerBytes, ctx.layout.Overlap(), false);
    q := ScanRegion(ctx, blockStart.value, end.value, buffer, tables, diagnostics, quality, obs, rejectedRegions);
  }

  method ScanSequential(ctx: Context, regions: seq<MemoryRegion>, diagnostics: ScanDiagnostics)
    returns (result: ScanResult)
    requires ctx.Valid() && diagnostics.IsClear()
    modifies diagnostics
    ensures Finished(ctx, regions, diagnostics, result)
    ensures diagnostics.acceptedPlayerUids == ScanLedgerOf(ctx, regions).playerOrder
  {
    hide InStep, Reader.Sound, ScanDiagnostics.IsClear, Observations, Quality, RejectedRegions, Tabulate;
    var tables := new ScanTables();
    var buffer := new Byte[SCAN_BLOCK_SIZE];
    var quality := NO_READS;
    NothingScanned(ctx, regions, tables, diagnostics);
    for i := 0 to |regions|
      invariant InStep(ctx.reader, tables, diagnostics, Observations(ctx, regions[..i]),
                       RejectedRegions(ctx.layout, regions[..i]))
      invariant quality == Quality(ctx, regions[..i])
    {
      RegionsStep(ctx, regions, i);
      quality := VisitRegion(ctx, regions[i], buffer, tables, diagnostics, quality,
                             Observations(ctx, regions[..i]), RejectedRegions(ctx.layout, regions[..i]));
    }
    assert regions[..|regions|] == regions;
    AllScanned(ctx, regions, tables, diagnostics);
    result := BuildResult(ctx, tables, diagnostics, quality, regions);
  }

  lemma NothingScanned(ctx: Context, regions: seq<MemoryRegion>, tables: ScanTables, diagnostics: ScanDiagnostics)
    requires ctx.Valid() && diagnostics.IsClear()
    requires tables.players == map[] && tables.staff == map[] && tables.managers == map[] && tables.clubs == map[]
    requires tables.classOffsetByVtable == map[]
    ensures InStep(ctx.reader, tables, diagnostics, Observations(ctx, regions[..0]),
                   RejectedRegions(ctx.layout, regions[..0]))
    ensures Quality(ctx, regions[..0]) == NO_READS
  {
  }

  lemma RegionsStep(ctx: Context, regions: seq<MemoryRegion>, i: nat)
    requires ctx.Valid() && i < |regions|
    ensures var blocks := BlocksOf(ctx.layout, regions[i]);
            && Observations(ctx, regions[..i + 1]) == Observations(ctx, regions[..i]) + ObserveBlocks(ctx, blocks)
            && Quality(ctx, regions[..i + 1]) == Quality(ctx, regions[..i]).Add(BlocksQuality(ctx.reader, blocks))
            && RejectedRegions(ctx.layout, regions[..i + 1]) ==
                 RejectedRegions(ctx.layout, regions[..i]) + (if PlanFor(ctx.layout, regions[i]).Malformed? then 1 else 0)
  {
    hide Reader.Sound, BlocksOf, PlanFor, ObserveBlocks, BlocksQuality;
    assert regions[..i + 1][..i] == regions[..i];
  }

  lemma AllScanned(ctx: Context, regions: seq<MemoryRegion>, tables: ScanTables, diagnostics: ScanDiagnostics)
    requires ctx.Valid()
    requires InStep(ctx.reader, tables, diagnostics, Observations(ctx, regions), RejectedRegions(ctx.layout, regions))
    ensures tables.Holds(ScanLedgerOf(ctx, regions)) && diagnostics.Shows(ScanLedgerOf(ctx, regions))
    ensures diagnostics.acceptedPlayerUids == ScanLedgerOf(ctx, regions).playerOrder
  {
    hide Reader.Sound, Observations, RejectedRegions, Tabulate;
  }

  // ---------------------------------------------------------------- merging workers

  /** A ledger as a scan leaves it: entries filed under their own keys, counts equal to table sizes. */
  ghost predicate WellKept(l: Ledger) {
    && Filed(l.players.people) && Filed(l.staff.people) && Filed(l.managers.people) && ClubsFiled(l.clubs.clubs)
    && l.players.accepted == |l.players.people| && l.staff.accepted == |l.staff.people|
    && l.managers.accepted == |l.managers.people| && l.clubs.accepted == |l.clubs.clubs|
    && l.sampleUids == Samples(l.playerOrder)
    && Unique(l.playerOrder) && |l.playerOrder| == |l.players.people|
    && (forall u :: u in l.playerOrder <==> u in l.players.people)
  }

  lemma ScanLedgerIsWellKept(ctx: Context, regions: seq<MemoryRegion>)
    requires ctx.Valid()
    ensures WellKept(ScanLedgerOf(ctx, regions))
  {
    hide Observations, Reader.Sound;
    var obs := Observations(ctx, regions);
    LowestIsFiled(Select(obs, PlayerOf));
    LowestIsFiled(Select(obs, StaffOf));
    LowestIsFiled(Select(obs, ManagerOf));
    ClubsAppend([], Select(obs, ClubOf));
    FirstUidsAreKeys(Select(obs, PlayerOf));
  }

  method MergeWorkerDiagnostics(diagnostics: ScanDiagnostics, worker: ScanDiagnostics)
    requires diagnostics != worker
    modifies diagnostics
    ensures
      && diagnostics.bytesScanned == old(diagnostics.bytesScanned) + worker.bytesScanned
      && diagnostics.vtableHits == old(diagnostics.vtableHits) + worker.vtableHits
      && diagnostics.candidatesRejected == old(diagnostics.candidatesRejected) + worker.candidatesRejected
      && diagnostics.duplicatesSkipped == old(diagnostics.duplicatesSkipped) + worker.duplicatesSkipped
      && diagnostics.clubCandidatesRejected == old(diagnostics.clubCandidatesRejected) + worker.clubCandidatesRejected
      && diagnostics.clubCandidateDuplicatesSkipped ==
           old(diagnostics.clubCandidateDuplicatesSkipped) + worker.clubCandidateDuplicatesSkipped
      && diagnostics.playersExcludedByDatabaseScope ==
           old(diagnostics.playersExcludedByDatabaseScope) + worker.playersExcludedByDatabaseScope
      && diagnostics.classOffsetHistogram ==
           HistogramSum(old(diagnostics.classOffsetHistogram), worker.classOffsetHistogram)
    ensures
      && diagnostics.candidatesAccepted == old(diagnostics.candidatesAccepted)
      && diagnostics.staffCandidatesAccepted == old(diagnostics.staffCandidatesAccepted)
      && diagnostics.humanManagerCandidatesAccepted == old(diagnostics.humanManagerCandidatesAccepted)
      && diagnostics.clubCandidatesAccepted == old(diagnostics.clubCandidatesAccepted)
      && diagnostics.sampleUids == old(diagnostics.sampleUids)
      && diagnostics.acceptedPlayerUids == old(diagnostics.acceptedPlayerUids)
  {
    diagnostics.bytesScanned := diagnostics.bytesScanned + worker.bytesScanned;
    diagnostics.vtableHits := diagnostics.vtableHits + worker.vtableHits;
    diagnostics.candidatesRejected := diagnostics.candidatesRejected + worker.candidatesRejected;
    diagnostics.duplicatesSkipped := diagnostics.duplicatesSkipped + worker.duplicatesSkipped;
    diagnostics.clubCandidatesRejected := diagnostics.clubCandidatesRejected + worker.clubCandidatesRejected;
    diagnostics.clubCandidateDuplicatesSkipped :=
      diagnostics.clubCandidateDuplicatesSkipped + worker.clubCandidateDuplicatesSkipped;
    diagnostics.playersExcludedByDatabaseScope :=
      diagnostics.playersExcludedByDatabaseScope + worker.playersExcludedByDatabaseScope;
    MergeHistogram(diagnostics, worker.classOffsetHistogram);
  }

  /** Adds every entry of a worker's histogram, in whatever order the entries come. */
  method MergeHistogram(diagnostics: ScanDiagnostics, worker: Histogram)
    modifies diagnostics`classOffsetHistogram
    ensures diagnostics.classOffsetHistogram == HistogramSum(old(diagnostics.classOffsetHistogram), worker)
  {
    hide HistogramSum;
    var keys := worker.Keys;
    ghost var before, done: Histogram := diagnostics.classOffsetHistogram, map[];
    HistogramSumEmpty(before);
    while keys != {}
      invariant keys <= worker.Keys
      invariant done == worker - keys
      invariant diagnostics.classOffsetHistogram == HistogramSum(before, done)
      decreases |keys|
    {
      var k := AnyKey(keys);
      HistogramEntry(before, done, k, worker[k]);
      diagnostics.classOffsetHistogram :=
        diagnostics.classOffsetHistogram[k := CountOf(diagnostics.classOffsetHistogram, k) + worker[k]];
      keys := keys - {k};
      done := done[k := worker[k]];
    }
    assert worker - {} == worker;
  }

  method AnyKey<K>(keys: set<K>) returns (k: K)
    requires keys != {}
    ensures k in keys
  {
    k :| k in keys;
  }

  lemma HistogramSumEmpty(a: Histogram)
    ensures HistogramSum(a, map[]) == a
  {
  }

  lemma HistogramEntry(a: Histogram, b: Histogram, k: int, n: nat)
    requires k !in b
    ensures HistogramSum(a, b)[k := CountOf(HistogramSum(a, b), k) + n] == HistogramSum(a, b[k := n])
  {
    var left, right := HistogramSum(a, b)[k := CountOf(HistogramSum(a, b), k) + n], HistogramSum(a, b[k := n]);
    assert left.Keys == right.Keys;
    forall x | x in left ensures left[x] == right[x] {
    }
  }

  /** A book joined with a table of persons: common persons keep the lower address and count as repeats. */
  ghost function Join(b: Book, people: People): Book {
    MergedSize(b.people, people);
    var merged := Merged(b.people, people);
    Book(merged, |merged|, b.repeats + (|b.people| + |people| - |merged|))
  }

  lemma JoinNothing(b: Book)
    requires b.accepted == |b.people|
    ensures Join(b, map[]) == b
  {
    assert Merged(b.people, map[]) == b.people;
  }

  lemma MergedKeys(a: People, b: People)
    ensures Merged(a, b).Keys == a.Keys + b.Keys
  {
  }

  /** Keeping a person known by uid leaves the number of persons, keeping a new one adds one. */
  lemma KeptSize(people: People, c: PersonCandidate)
    ensures |KeepLowest(people, c)| == if c.uid in people then |people| else |people| + 1
  {
    if c.uid in people {
      assert KeepLowest(people, c).Keys == people.Keys;
      assert |KeepLowest(people, c)| == |KeepLowest(people, c).Keys| && |people| == |people.Keys|;
    }
  }

  /** Merging one more listed person continues the join. */
  lemma JoinStep(b: Book, people: People, c: PersonCandidate)
    requires c.uid !in people
    ensures BookPost(Join(b, people), c) == Join(b, people[c.uid := c])
  {
    var more := people[c.uid := c];
    MergeStep(b.people, people, c);
    MergedKeys(b.people, people);
    KeptSize(Merged(b.people, people), c);
    assert KeepLowest(people, c) == more && |more| == |people| + 1;
    hide Merged;
  }

  lemma PrefixOfList(list: seq<PersonCandidate>, people: People, k: nat)
    requires Lists(list, people) && k < |list|
    ensures list[k].uid !in LowestByUid(list[..k])
    ensures LowestByUid(list[..k + 1]) == LowestByUid(list[..k])[list[k].uid := list[k]]
  {
    PrefixOfListing(list, people, k);
    assert list[..k + 1][..k] == list[..k];
  }

  method MergeStaff(list: seq<PersonCandidate>, tables: ScanTables, diagnostics: ScanDiagnostics,
                    ghost l: Ledger, ghost people: People)
    requires tables.Holds(l) && diagnostics.Shows(l) && l.staff.accepted == |l.staff.people|
    requires Lists(list, people)
    modifies tables`staff, diagnostics`staffCandidatesAccepted, diagnostics`duplicatesSkipped
    ensures tables.Holds(l.(staff := Join(l.staff, people))) && diagnostics.Shows(l.(staff := Join(l.staff, people)))
  {
    hide Join, Lists;
    JoinNothing(l.staff);
    ghost var now := l;
    for k := 0 to |list|
      invariant now == l.(staff := Join(l.staff, LowestByUid(list[..k])))
      invariant tables.Holds(now) && diagnostics.Shows(now)
    {
      var c := list[k];
      PrefixOfList(list, people, k);
      JoinStep(l.staff, LowestByUid(list[..k]), c);
      if c.uid in tables.staff {
        tables.staff := KeepLowest(tables.staff, c);
        diagnostics.duplicatesSkipped := diagnostics.duplicatesSkipped + 1;
      } else {
        tables.staff := tables.staff[c.uid := c];
        diagnostics.staffCandidatesAccepted := diagnostics.staffCandidatesAccepted + 1;
      }
      now := now.(staff := BookPost(now.staff, c));
    }
    assert list[..|list|] == list;
    ListingIsTable(list, people);
  }

  method MergeManagers(list: seq<PersonCandidate>, tables: ScanTables, diagnostics: ScanDiagnostics,
                       ghost l: Ledger, ghost people: People)
    requires tables.Holds(l) && diagnostics.Shows(l) && l.managers.accepted == |l.managers.people|
    requires Lists(list, people)
    modifies tables`managers, diagnostics`humanManagerCandidatesAccepted, diagnostics`duplicatesSkipped
    ensures tables.Holds(l.(managers := Join(l.managers, people)))
    ensures diagnostics.Shows(l.(managers := Join(l.managers, people)))
  {
    hide Join, Lists;
    JoinNothing(l.managers);
    ghost var now := l;
    for k := 0 to |list|
      invariant now == l.(managers := Join(l.managers, LowestByUid(list[..k])))
      invariant tables.Holds(now) && diagnostics.Shows(now)
    {
      var c := list[k];
      PrefixOfList(list, people, k);
      JoinStep(l.managers, LowestByUid(list[..k]), c);
      if c.uid in tables.managers {
        tables.managers := KeepLowest(tables.managers, c);
        diagnostics.duplicatesSkipped := diagnostics.duplicatesSkipped + 1;
      } else {
        tables.managers := tables.managers[c.uid := c];
        diagnostics.humanManagerCandidatesAccepted := diagnostics.humanManagerCandidatesAccepted + 1;
      }
      now := now.(managers := BookPost(now.managers, c));
    }
    assert list[..|list|] == list;
    ListingIsTable(list, people);
  }

  /** The ledger after the players in `taken`, in the given order, were merged into it. */
  ghost function WithPlayers(l: Ledger, taken: People, order: seq<Word32>): Ledger {
    var uids := l.playerOrder + Without(order, l.players.people.Keys);
    l.(players := Join(l.players, taken), playerOrder := uids, sampleUids := Samples(uids))
  }

  lemma NoPlayersTaken(l: Ledger, people: People, order: seq<Word32>)
    requires l.players.accepted == |l.players.people| && l.sampleUids == Samples(l.playerOrder)
    ensures WithPlayers(l, Taken(people, order[..0]), order[..0]) == l
  {
    assert Taken(people, order[..0]) == map[];
    JoinNothing(l.players);
    assert l.playerOrder + [] == l.playerOrder;
  }

  lemma TakenStep(people: People, order: seq<Word32>, k: nat)
    requires k < |order| && Unique(order) && order[k] in people
    ensures order[k] !in Taken(people, order[..k])
    ensures Taken(people, order[..k + 1]) == Taken(people, order[..k])[order[k] := people[order[k]]]
  {
    assert order[..k + 1] == order[..k] + [order[k]];
  }

  lemma TakePlayer(l: Ledger, people: People, order: seq<Word32>, k: nat)
    requires k < |order| && Unique(order) && order[k] in people && people[order[k]].uid == order[k]
    ensures PostPlayer(WithPlayers(l, Taken(people, order[..k]), order[..k]), people[order[k]]) ==
              WithPlayers(l, Taken(people, order[..k + 1]), order[..k + 1])
  {
    TakenStep(people, order, k);
    hide Taken, Join;
    var taken, c := Taken(people, order[..k]), people[order[k]];
    JoinStep(l.players, taken, c);
    JoinKeys(l.players, taken);
    WithoutStep(order, l.players.people.Keys, k, l.playerOrder);
    SamplesStep(l.playerOrder + Without(order[..k], l.players.people.Keys), c.uid);
  }

  method MergePlayer(c: PersonCandidate, tables: ScanTables, diagnostics: ScanDiagnostics, ghost l: Ledger)
    requires tables.Holds(l) && diagnostics.Shows(l)
    modifies tables`players, diagnostics`candidatesAccepted, diagnostics`sampleUids, diagnostics`duplicatesSkipped
    ensures tables.Holds(PostPlayer(l, c)) && diagnostics.Shows(PostPlayer(l, c))
  {
    if c.uid in tables.players {
      tables.players := KeepLowest(tables.players, c);
      diagnostics.duplicatesSkipped := diagnostics.duplicatesSkipped + 1;
      return;
    }
    tables.players := tables.players[c.uid := c];
    diagnostics.candidatesAccepted := diagnostics.candidatesAccepted + 1;
    if |diagnostics.sampleUids| < SAMPLE_LIMIT {
      diagnostics.sampleUids := diagnostics.sampleUids + [c.uid];
    }
  }

  /** Merges a worker's players in the order in which the worker accepted them, so samples come out in scan order. */
  method MergePlayers(list: seq<PersonCandidate>, order: seq<Word32>, tables: ScanTables, diagnostics: ScanDiagnostics,
                      ghost l: Ledger, ghost people: People)
    requires tables.Holds(l) && diagnostics.Shows(l) && l.players.accepted == |l.players.people|
    requires l.sampleUids == Samples(l.playerOrder)
    requires Lists(list, people) && Unique(order) && forall u :: u in order <==> u in people
    modifies tables`players, diagnostics`candidatesAccepted, diagnostics`sampleUids, diagnostics`duplicatesSkipped
    ensures tables.Holds(WithPlayers(l, people, order)) && diagnostics.Shows(WithPlayers(l, people, order))
  {
    var playersByUid := map c | c in list :: c.uid := c;
    ByUidIsTable(list, people);
    hide WithPlayers, PostPlayer, Lists, ScanTables.Holds, ScanDiagnostics.Shows, Taken;
    NoPlayersTaken(l, people, order);
    for k := 0 to |order|
      invariant tables.Holds(WithPlayers(l, Taken(people, order[..k]), order[..k]))
      invariant diagnostics.Shows(WithPlayers(l, Taken(people, order[..k]), order[..k]))
    {
      assert order[k] in order;
      if order[k] in playersByUid {
        var c := playersByUid[order[k]];
        UidOfListed(list, people, order[k]);
        TakePlayer(l, people, order, k);
        MergePlayer(c, tables, diagnostics, WithPlayers(l, Taken(people, order[..k]), order[..k]));
      }
    }
    AllPlayersTaken(people, order);
  }

  /** The part of a table that the first entries of the order name. */
  ghost function Taken(people: People, order: seq<Word32>): People {
    map u | u in people && u in order :: people[u]
  }

  lemma AllPlayersTaken(people: People, order: seq<Word32>)
    requires forall u :: u in order <==> u in people
    ensures order[..|order|] == order && Taken(people, order) == people
  {
  }

  lemma ByUidIsTable(list: seq<PersonCandidate>, people: People)
    requires Lists(list, people)
    ensures (map c | c in list :: c.uid := c) == people
  {
  }

  lemma UidOfListed(list: seq<PersonCandidate>, people: People, u: Word32)
    requires Lists(list, people) && u in people
    ensures people[u].uid == u
  {
  }

  lemma JoinKeys(b: Book, people: People)
    ensures Join(b, people).people.Keys == b.people.Keys + people.Keys
  {
  }

  lemma WithoutStep(order: seq<Word32>, known: set<Word32>, k: nat, before: seq<Word32>)
    requires k < |order|
    ensures before + Without(order[..k + 1], known) ==
              if order[k] in known then before + Without(order[..k], known)
              else (before + Without(order[..k], known)) + [order[k]]
  {
    assert order[..k + 1][..k] == order[..k];
  }

  ghost function JoinClubs(b: ClubBook, clubs: Clubs): ClubBook {
    ClubsMergedSize(b.clubs, clubs);
    ClubBook(clubs + b.clubs, |clubs + b.clubs|, b.repeats + (|b.clubs| + |clubs| - |clubs + b.clubs|))
  }

  lemma JoinClubsStep(b: ClubBook, clubs: Clubs, c: ClubCandidate)
    requires c.address !in clubs
    ensures ClubBookPost(JoinClubs(b, clubs), c) == JoinClubs(b, clubs[c.address := c])
  {
    AddClub(b.clubs, clubs, c);
    assert |clubs[c.address := c]| == |clubs| + 1;
  }

  lemma AddClub(a: Clubs, b: Clubs, c: ClubCandidate)
    requires c.address !in b
    ensures b[c.address := c] + a == if c.address in a then b + a else (b + a)[c.address := c]
  {
    var before, after := b + a, b[c.address := c] + a;
    forall x | x in after ensures c.address in a ==> x in before && before[x] == after[x] {
    }
    if c.address in a { assert after == before; }
  }

  lemma JoinNoClubs(b: ClubBook)
    requires b.accepted == |b.clubs|
    ensures JoinClubs(b, map[]) == b
  {
    assert map[] + b.clubs == b.clubs;
  }

  lemma PrefixOfClubs(list: seq<ClubCandidate>, clubs: Clubs, k: nat)
    requires ListsClubs(list, clubs) && k < |list|
    ensures list[k].address !in FirstByAddress(list[..k])
    ensures FirstByAddress(list[..k + 1]) == FirstByAddress(list[..k])[list[k].address := list[k]]
  {
    PrefixOfClubListing(list, clubs, k);
    assert list[..k + 1][..k] == list[..k];
  }

  method MergeClubs(list: seq<ClubCandidate>, tables: ScanTables, diagnostics: ScanDiagnostics,
                    ghost l: Ledger, ghost clubs: Clubs)
    requires tables.Holds(l) && diagnostics.Shows(l) && l.clubs.accepted == |l.clubs.clubs|
    requires ListsClubs(list, clubs)
    modifies tables`clubs, diagnostics`clubCandidatesAccepted, diagnostics`clubCandidateDuplicatesSkipped
    ensures tables.Holds(l.(clubs := JoinClubs(l.clubs, clubs)))
    ensures diagnostics.Shows(l.(clubs := JoinClubs(l.clubs, clubs)))
  {
    hide JoinClubs, ListsClubs;
    JoinNoClubs(l.clubs);
    ghost var now := l;
    for k := 0 to |list|
      invariant now == l.(clubs := JoinClubs(l.clubs, FirstByAddress(list[..k])))
      invariant tables.Holds(now) && diagnostics.Shows(now)
    {
      var c := list[k];
      PrefixOfClubs(list, clubs, k);
      JoinClubsStep(l.clubs, FirstByAddress(list[..k]), c);
      if c.address !in tables.clubs {
        tables.clubs := tables.clubs[c.address := c];
        diagnostics.clubCandidatesAccepted := diagnostics.clubCandidatesAccepted + 1;
      } else {
        diagnostics.clubCandidateDuplicatesSkipped := diagnostics.clubCandidateDuplicatesSkipped + 1;
      }
      now := now.(clubs := ClubBookPost(now.clubs, c));
    }
    assert list[..|list|] == list;
    ClubListingIsTable(list, clubs);
  }

  /** The ledger once a worker's plain counters are added, before its persons and clubs are merged. */
  ghost function WithCounters(a: Ledger, b: Ledger): Ledger {
    a.(players := a.players.(repeats := a.players.repeats + b.players.repeats),
       staff := a.staff.(repeats := a.staff.repeats + b.staff.repeats),
       managers := a.managers.(repeats := a.managers.repeats + b.managers.repeats),
       clubs := a.clubs.(repeats := a.clubs.repeats + b.clubs.repeats),
       counts := a.counts.Add(b.counts))
  }

  lemma MergeInSteps(a: Ledger, b: Ledger)
    ensures var l0 := WithCounters(a, b);
            var l1 := WithPlayers(l0, b.players.people, b.playerOrder);
            var l2 := l1.(staff := Join(l1.staff, b.staff.people));
            var l3 := l2.(managers := Join(l2.managers, b.managers.people));
            l3.(clubs := JoinClubs(l3.clubs, b.clubs.clubs)) == MergeLedgers(a, b)
  {
    hide Counts.Add, Merged, Without, Samples;
  }

  /** The lists a worker returns are listings of its tables. */
  ghost predicate Reports(result: ScanResult, l: Ledger) {
    && result.players == InKeyOrder(l.players.people) && result.rawStaff == InKeyOrder(l.staff.people)
    && result.humanManagers == InKeyOrder(l.managers.people) && result.clubs == InKeyOrder(l.clubs.clubs)
  }

  method MergeCounters(diagnostics: ScanDiagnostics, worker: ScanDiagnostics, ghost a: Ledger, ghost b: Ledger)
    requires diagnostics != worker && diagnostics.Shows(a) && worker.Shows(b)
    modifies diagnostics
    ensures diagnostics.Shows(WithCounters(a, b))
    ensures diagnostics.acceptedPlayerUids == old(diagnostics.acceptedPlayerUids)
  {
    hide HistogramSum;
    MergeWorkerDiagnostics(diagnostics, worker);
  }

  /** Merging one worker's result and counters into what the earlier workers left. */
  method MergeWorker(tables: ScanTables, diagnostics: ScanDiagnostics, result: ScanResult, worker: ScanDiagnostics,
                     ghost a: Ledger, ghost b: Ledger)
    requires diagnostics != worker && tables.Holds(a) && diagnostics.Shows(a) && WellKept(a)
    requires worker.Shows(b) && worker.acceptedPlayerUids == b.playerOrder && Reports(result, b) && WellKept(b)
    modifies tables, diagnostics
    ensures tables.Holds(MergeLedgers(a, b)) && diagnostics.Shows(MergeLedgers(a, b))
    ensures diagnostics.acceptedPlayerUids == old(diagnostics.acceptedPlayerUids)
  {
    hide Counts.Add, Without, Merged, InKeyOrder, MergeLedgers, WithPlayers, Join, JoinClubs, Samples,
         Unique, Lists, ListsClubs, WellKept, Reports,
         WithCounters, ScanTables.Holds, ScanDiagnostics.Shows, Filed, ClubsFiled;
    var order := worker.acceptedPlayerUids;
    ghost var l0 := WithCounters(a, b);
    ReportsList(result, b);
    CountersReady(a, b, tables);
    MergeInSteps(a, b);
    OthersKept(l0, b.players.people, b.playerOrder);
    MergeCounters(diagnostics, worker, a, b);
    MergePlayers(result.players, order, tables, diagnostics, l0, b.players.people);
    ghost var l1 := WithPlayers(l0, b.players.people, b.playerOrder);
    MergeStaff(result.rawStaff, tables, diagnostics, l1, b.staff.people);
    ghost var l2 := l1.(staff := Join(l1.staff, b.staff.people));
    MergeManagers(result.humanManagers, tables, diagnostics, l2, b.managers.people);
    ghost var l3 := l2.(managers := Join(l2.managers, b.managers.people));
    MergeClubs(result.clubs, tables, diagnostics, l3, b.clubs.clubs);
  }

  lemma ReportsList(result: ScanResult, l: Ledger)
    requires Reports(result, l) && WellKept(l)
    ensures Lists(result.players, l.players.people) && Lists(result.rawStaff, l.staff.people)
    ensures Lists(result.humanManagers, l.managers.people) && ListsClubs(result.clubs, l.clubs.clubs)
    ensures Unique(l.playerOrder) && forall u :: u in l.playerOrder <==> u in l.players.people
  {
    hide Lists, ListsClubs, Unique, Filed, ClubsFiled, Samples;
    UidOrderLists(l.players.people);
    UidOrderLists(l.staff.people);
    UidOrderLists(l.managers.people);
    AddressOrderLists(l.clubs.clubs);
  }

  /** Adding counters leaves the tables alone, so each merge starts from counts that match them. */
  lemma CountersReady(a: Ledger, b: Ledger, tables: ScanTables)
    requires WellKept(a) && tables.Holds(a)
    ensures var l := WithCounters(a, b);
            && tables.Holds(l) && l.sampleUids == Samples(l.playerOrder)
            && l.players.accepted == |l.players.people| && l.staff.accepted == |l.staff.people|
            && l.managers.accepted == |l.managers.people| && l.clubs.accepted == |l.clubs.clubs|
  {
    hide Samples, Unique, Filed, ClubsFiled;
  }

  lemma OthersKept(l: Ledger, taken: People, order: seq<Word32>)
    ensures WithPlayers(l, taken, order).staff == l.staff
    ensures WithPlayers(l, taken, order).managers == l.managers
    ensures WithPlayers(l, taken, order).clubs == l.clubs
  {
    hide Join, Samples, Without;
  }

  // ---------------------------------------------------------------- slices

  /** Where the slice of worker `w` begins among `count` regions. */
  function SliceStart(count: nat, w: nat, workers: nat): nat
    requires 0 < workers
  {
    count * w / workers
  }

  lemma SlicesCover(count: nat, w: nat, workers: nat)
    requires w < workers
    ensures SliceStart(count, 0, workers) == 0 && SliceStart(count, workers, workers) == count
    ensures SliceStart(count, w, workers) <= SliceStart(count, w + 1, workers) <= count
  {
    DivMonotone(0, 0, workers);
    assert count * 0 == 0;
    DivExact(count, workers);
    DivMonotone(count * w, count * (w + 1), workers) by {
      assert count * (w + 1) == count * w + count;
    }
    DivMonotone(count * (w + 1), count * workers, workers) by {
      MulMonotone(count, w + 1, workers);
    }
  }

  lemma MulMonotone(a: nat, b: nat, c: nat)
    requires b <= c
    ensures a * b <= a * c
  {
    assert a * c == a * b + a * (c - b);
  }

  lemma DivExact(a: nat, d: nat)
    requires 0 < d
    ensures a * d / d == a
  {
    var q, r := a * d / d, a * d % d;
    assert (a - q) * d == r;
    if a != q {
      MulMonotone(d, 1, if a > q then a - q else q - a);
    }
  }

  lemma DivMonotone(a: nat, b: nat, d: nat)
    requires 0 < d && a <= b
    ensures a / d <= b / d
  {
    var q, r := b / d - a / d, b % d - a % d;
    assert q * d + r == b - a;
  }

  function Slice(regions: seq<MemoryRegion>, w: nat, workers: nat): seq<MemoryRegion>
    requires w < workers
  {
    SlicesCover(|regions|, w, workers);
    regions[SliceStart(|regions|, w, workers)..SliceStart(|regions|, w + 1, workers)]
  }

  lemma SliceExtends(regions: seq<MemoryRegion>, w: nat, workers: nat)
    requires w < workers
    ensures SliceStart(|regions|, w, workers) <= SliceStart(|regions|, w + 1, workers) <= |regions|
    ensures regions[..SliceStart(|regions|, w + 1, workers)] ==
              regions[..SliceStart(|regions|, w, workers)] + Slice(regions, w, workers)
  {
    SlicesCover(|regions|, w, workers);
    hide SliceStart;
  }

  // ---------------------------------------------------------------- the parallel scan

  datatype WorkerScan = WorkerScan(result: ScanResult, diagnostics: ScanDiagnostics)
  {
    ghost predicate Done(ctx: Context, regions: seq<MemoryRegion>)
      requires ctx.Valid()
      reads diagnostics
    {
      && Finished(ctx, regions, diagnostics, result)
      && diagnostics.acceptedPlayerUids == ScanLedgerOf(ctx, regions).playerOrder
    }
  }

  lemma DoneReports(ctx: Context, regions: seq<MemoryRegion>, scan: WorkerScan)
    requires ctx.Valid() && scan.Done(ctx, regions)
    ensures scan.diagnostics.Shows(ScanLedgerOf(ctx, regions)) && Reports(scan.result, ScanLedgerOf(ctx, regions))
    ensures scan.diagnostics.readQuality == scan.result.readQuality == Quality(ctx, regions)
  {
    hide ScanLedgerOf, Quality, Reader.Sound;
  }

  /**
   Slices the regions over the workers, scans each slice on its own and merges the results in worker order.
   The outcome is that of scanning all regions in sequence; only the order in which players were first
   accepted is not carried over.
   */
  method ScanParallel(ctx: Context, regions: seq<MemoryRegion>, diagnostics: ScanDiagnostics, workerCount: nat)
    returns (result: ScanResult)
    requires ctx.Valid() && diagnostics.IsClear() && 0 < workerCount
    modifies diagnostics
    ensures Finished(ctx, regions, diagnostics, result)
    ensures diagnostics.acceptedPlayerUids == []
  {
    hide Reader.Sound, ScanDiagnostics.IsClear, ScanDiagnostics.Shows, ScanTables.Holds, WorkerScan.Done, Finished,
         ScanLedgerOf, Quality, MergeLedgers, WellKept, Reports, SliceStart;
    var workerScans: seq<WorkerScan> := [];
    for w := 0 to workerCount
      invariant |workerScans| == w && diagnostics.IsClear()
      invariant forall i :: 0 <= i < w ==> fresh(workerScans[i].diagnostics)
      invariant forall i :: 0 <= i < w ==> workerScans[i].Done(ctx, Slice(regions, i, workerCount))
    {
      var workerDiagnostics := new ScanDiagnostics();
      var scan := ScanSequential(ctx, Slice(regions, w, workerCount), workerDiagnostics);
      workerScans := workerScans + [WorkerScan(scan, workerDiagnostics)];
      WorkerIsDone(ctx, Slice(regions, w, workerCount), workerScans[w]);
    }

    var tables := new ScanTables();
    var readQuality := NO_READS;
    NothingMerged(ctx, regions, workerCount, tables, diagnostics);
    for w := 0 to workerCount
      invariant fresh(tables)
      invariant forall i :: 0 <= i < workerCount ==> workerScans[i].Done(ctx, Slice(regions, i, workerCount))
      invariant SliceStart(|regions|, w, workerCount) <= |regions|
      invariant var prefix := regions[..SliceStart(|regions|, w, workerCount)];
                && tables.Holds(ScanLedgerOf(ctx, prefix)) && diagnostics.Shows(ScanLedgerOf(ctx, prefix))
                && readQuality == Quality(ctx, prefix)
      invariant diagnostics.acceptedPlayerUids == []
    {
      ghost var prefix, slice := regions[..SliceStart(|regions|, w, workerCount)], Slice(regions, w, workerCount);
      SliceExtends(regions, w, workerCount);
      ScanLedgerIsWellKept(ctx, prefix);
      ScanLedgerIsWellKept(ctx, slice);
      DoneReports(ctx, slice, workerScans[w]);
      DoneOrder(ctx, slice, workerScans[w]);
      LedgerAppend(ctx, prefix, slice);
      readQuality := readQuality.Add(workerScans[w].result.readQuality);
      MergeWorker(tables, diagnostics, workerScans[w].result, workerScans[w].diagnostics,
                  ScanLedgerOf(ctx, prefix), ScanLedgerOf(ctx, slice));
    }
    SlicesCover(|regions|, 0, workerCount);
    assert regions[..|regions|] == regions;
    result := BuildResult(ctx, tables, diagnostics, readQuality, regions);
  }

  lemma WorkerIsDone(ctx: Context, regions: seq<MemoryRegion>, scan: WorkerScan)
    requires ctx.Valid() && Finished(ctx, regions, scan.diagnostics, scan.result)
    requires scan.diagnostics.acceptedPlayerUids == ScanLedgerOf(ctx, regions).playerOrder
    ensures scan.Done(ctx, regions)
  {
  }

  lemma DoneOrder(ctx: Context, regions: seq<MemoryRegion>, scan: WorkerScan)
    requires ctx.Valid() && scan.Done(ctx, regions)
    ensures scan.diagnostics.acceptedPlayerUids == ScanLedgerOf(ctx, regions).playerOrder
  {
  }

  lemma NothingMerged(ctx: Context, regions: seq<MemoryRegion>, workerCount: nat, tables: ScanTables,
                      diagnostics: ScanDiagnostics)
    requires ctx.Valid() && 0 < workerCount && diagnostics.IsClear()
    requires tables.players == map[] && tables.staff == map[] && tables.managers == map[] && tables.clubs == map[]
    ensures SliceStart(|regions|, 0, workerCount) == 0
    ensures var prefix := regions[..0];
            && tables.Holds(ScanLedgerOf(ctx, prefix)) && diagnostics.Shows(ScanLedgerOf(ctx, prefix))
            && Quality(ctx, prefix) == NO_READS
    ensures diagnostics.acceptedPlayerUids == []
  {
    SlicesCover(|regions|, 0, workerCount);
  }

  // ---------------------------------------------------------------- choosing a form

  const MAXIMUM_WORKER_COUNT: nat := 8
  const LOW_MEMORY_WORKER_COUNT: nat := 2

  function Clamp(value: int, low: int, high: int): int
    requires low <= high
  {
    if value < low then low else if value > high then high else value
  }

  /** A number of workers that leaves a processor free, gives each a region and respects scarce memory. */
  predicate IsAffordable(w: nat, regionCount: nat, processorCount: int, lowMemory: bool) {
    && w <= regionCount && w <= 8 && (w <= 1 || w < processorCount)
    && (lowMemory ==> w <= 2)
  }

  /** The largest affordable number of workers. */
  function GetWorkerCount(regionCount: nat, processorCount: int, lowMemory: bool): (w: nat)
    ensures IsAffordable(w, regionCount, processorCount, lowMemory)
    ensures forall v: nat :: IsAffordable(v, regionCount, processorCount, lowMemory) ==> v <= w
  {
    if regionCount == 0 then 0
    else
      var workers := Min(regionCount, Clamp(processorCount - 1, 1, MAXIMUM_WORKER_COUNT));
      if lowMemory && workers > LOW_MEMORY_WORKER_COUNT then LOW_MEMORY_WORKER_COUNT else workers
  }

  /** One scan on fresh diagnostics: whichever form is chosen, the outcome is the expected one. */
  method Scan(ctx: Context, regions: seq<MemoryRegion>, diagnostics: ScanDiagnostics, processorCount: int,
              lowMemory: bool, supportsConcurrentReads: bool, allowParallel: bool)
    returns (result: ScanResult)
    requires ctx.Valid() && diagnostics.IsClear()
    modifies diagnostics
    ensures Finished(ctx, regions, diagnostics, result)
  {
    var workerCount := GetWorkerCount(|regions|, processorCount, lowMemory);
    if allowParallel && supportsConcurrentReads && workerCount > 1 {
      result := ScanParallel(ctx, regions, diagnostics, workerCount);
    } else {
      result := ScanSequential(ctx, regions, diagnostics);
    }
  }
}
