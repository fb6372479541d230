/**
 The ordered result lists, the mutable state of one scan, and the block-window loop over one region, which is
 proved to record exactly what `ScanSpec` says the region shows.
 */
module PersonScanner {
  import opened Wrappers
  import opened BlockReads
  import opened ScanModel
  import opened ScanLedger
  import opened ScanWalk
  import opened ScanSpec

  // ---------------------------------------------------------------- ordered result lists

  lemma {:induction false} LeastExists(keys: set<nat>, k: nat)
    requires k in keys
    ensures exists m :: m in keys && forall j :: j in keys ==> m <= j
    decreases k
  {
    if j :| j in keys && j < k {
      LeastExists(keys, j);
    }
  }

  function Least(keys: set<nat>): (k: nat)
    requires keys != {}
    ensures k in keys && forall j :: j in keys ==> k <= j
  {
    var any: nat :| any in keys;
    LeastExists(keys, any);
    var k: nat :| k in keys && forall j :: j in keys ==> k <= j;
    k
  }

  function Ascending(keys: set<nat>): (ks: seq<nat>)
    ensures forall k :: k in ks <==> k in keys
    ensures forall i, j :: 0 <= i < j < |ks| ==> ks[i] < ks[j]
    decreases |keys|
  {
    if keys == {} then [] else
      var k := Least(keys);
      var rest := Ascending(keys - {k});
      assert forall i :: 0 <= i < |rest| ==> rest[i] in keys - {k};
      [k] + rest
  }

  /** The table's entries by ascending key. */
  function InKeyOrder<V>(table: map<nat, V>): (list: seq<V>)
    ensures |list| == |Ascending(table.Keys)|
    ensures forall i :: 0 <= i < |list| ==>
                Ascending(table.Keys)[i] in table && list[i] == table[Ascending(table.Keys)[i]]
  {
    var ks := Ascending(table.Keys);
    assert forall i :: 0 <= i < |ks| ==> ks[i] in table.Keys;
    seq(|ks|, i requires 0 <= i < |ks| => table[ks[i]])
  }

  /** A list that names every person of a table once. */
  ghost predicate Lists(list: seq<PersonCandidate>, people: People) {
    && (forall i :: 0 <= i < |list| ==> list[i].uid in people && people[list[i].uid] == list[i])
    && (forall i, j :: 0 <= i < j < |list| ==> list[i].uid != list[j].uid)
    && (forall u :: u in people ==> exists i :: 0 <= i < |list| && list[i].uid == u)
  }

  lemma UidOrderLists(people: People)
    requires Filed(people)
    ensures Lists(InKeyOrder(people), people)
  {
    var ks, list := Ascending(people.Keys), InKeyOrder(people);
    forall u | u in people ensures exists i :: 0 <= i < |list| && list[i].uid == u {
      assert u in ks;
      var i :| 0 <= i < |ks| && ks[i] == u;
      assert list[i].uid == u;
    }
  }

  /** Reading a listed table back entry by entry gives the table. */
  lemma {:induction false} PrefixOfListing(list: seq<PersonCandidate>, people: People, k: nat)
    requires Lists(list, people) && k <= |list|
    ensures forall i :: 0 <= i < |list| ==> (list[i].uid in LowestByUid(list[..k]) <==> i < k)
    ensures forall u :: u in LowestByUid(list[..k]) ==> u in people && LowestByUid(list[..k])[u] == people[u]
  {
    if k > 0 {
      PrefixOfListing(list, people, k - 1);
      assert list[..k][..k - 1] == list[..k - 1];
      assert LowestByUid(list[..k]) == KeepLowest(LowestByUid(list[..k - 1]), list[k - 1]);
    }
  }

  lemma ListingIsTable(list: seq<PersonCandidate>, people: People)
    requires Lists(list, people)
    ensures LowestByUid(list) == people
  {
    PrefixOfListing(list, people, |list|);
    assert list[..|list|] == list;
  }

  ghost predicate ListsClubs(list: seq<ClubCandidate>, clubs: Clubs) {
    && (forall i :: 0 <= i < |list| ==> list[i].address in clubs && clubs[list[i].address] == list[i])
    && (forall i, j :: 0 <= i < j < |list| ==> list[i].address != list[j].address)
    && (forall a :: a in clubs ==> exists i :: 0 <= i < |list| && list[i].address == a)
  }

  lemma AddressOrderLists(clubs: Clubs)
    requires ClubsFiled(clubs)
    ensures ListsClubs(InKeyOrder(clubs), clubs)
  {
    var ks, list := Ascending(clubs.Keys), InKeyOrder(clubs);
    forall a | a in clubs ensures exists i :: 0 <= i < |list| && list[i].address == a {
      assert a in ks;
      var i :| 0 <= i < |ks| && ks[i] == a;
      assert list[i].address == a;
    }
  }

  lemma {:induction false} PrefixOfClubListing(list: seq<ClubCandidate>, clubs: Clubs, k: nat)
    requires ListsClubs(list, clubs) && k <= |list|
    ensures forall a :: a in FirstByAddress(list[..k]) <==> exists i :: 0 <= i < k && list[i].address == a
    ensures forall a :: a in FirstByAddress(list[..k]) ==> a in clubs && FirstByAddress(list[..k])[a] == clubs[a]
  {
    if k > 0 {
      PrefixOfClubListing(list, clubs, k - 1);
      assert list[..k][..k - 1] == list[..k - 1];
      var before, c := FirstByAddress(list[..k - 1]), list[k - 1];
      assert c.address !in before;
      assert FirstByAddress(list[..k]) == before[c.address := c];
      assert c.address in clubs && clubs[c.address] == c;
      hide ListsClubs, FirstByAddress;
    }
  }

  lemma ClubListingIsTable(list: seq<ClubCandidate>, clubs: Clubs)
    requires ListsClubs(list, clubs)
    ensures FirstByAddress(list) == clubs
  {
    PrefixOfClubListing(list, clubs, |list|);
    assert list[..|list|] == list;
  }

  datatype ScanResult = ScanResult(
    players: seq<PersonCandidate>,
    staff: seq<PersonCandidate>,
    humanManagers: seq<PersonCandidate>,
    clubs: seq<ClubCandidate>,
    playerStaffOverlapUids: seq<nat>,
    readQuality: ReadQuality,
    rawStaff: seq<PersonCandidate>)

  /** Lists in uid order; persons who are players as well are left out of the staff list but reported. */
  function ResultOf(players: People, staff: People, managers: People, clubs: Clubs, quality: ReadQuality): ScanResult {
    ScanResult(
      InKeyOrder(players),
      InKeyOrder(staff - players.Keys),
      InKeyOrder(managers),
      InKeyOrder(clubs),
      Ascending(staff.Keys * players.Keys),
      quality,
      InKeyOrder(staff))
  }

  /** The result a scan of these regions must return. */
  ghost function ExpectedResult(ctx: Context, regions: seq<MemoryRegion>): ScanResult
    requires ctx.Valid()
  {
    var l := ScanLedgerOf(ctx, regions);
    ResultOf(l.players.people, l.staff.people, l.managers.people, l.clubs.clubs, Quality(ctx, regions))
  }

  // ---------------------------------------------------------------- mutable state of one scan

  class ScanDiagnostics {
    var bytesScanned: nat
    var vtableHits: nat
    var candidatesRejected: nat
    var duplicatesSkipped: nat
    var playersExcludedByDatabaseScope: nat
    var candidatesAccepted: nat
    var staffCandidatesAccepted: nat
    var humanManagerCandidatesAccepted: nat
    var clubCandidatesAccepted: nat
    var clubCandidatesRejected: nat
    var clubCandidateDuplicatesSkipped: nat
    var playerStaffOverlapCount: nat
    var acceptedPlayerUids: seq<Word32>
    var sampleUids: seq<Word32>
    var classOffsetHistogram: Histogram
    var readQuality: ReadQuality

    constructor ()
      ensures IsClear()
    {
      bytesScanned, vtableHits, candidatesRejected, duplicatesSkipped := 0, 0, 0, 0;
      playersExcludedByDatabaseScope, candidatesAccepted, staffCandidatesAccepted := 0, 0, 0;
      humanManagerCandidatesAccepted, clubCandidatesAccepted, clubCandidatesRejected := 0, 0, 0;
      clubCandidateDuplicatesSkipped, playerStaffOverlapCount := 0, 0;
      acceptedPlayerUids, sampleUids, classOffsetHistogram, readQuality := [], [], map[], NO_READS;
    }

    ghost predicate IsClear()
      reads this
    {
      Shows(Tabulate([], 0)) && acceptedPlayerUids == []
    }

    /** Every counter is what the ledger says. */
    ghost predicate Shows(l: Ledger)
      reads this
    {
      && Counts(bytesScanned, vtableHits, candidatesRejected, playersExcludedByDatabaseScope,
                clubCandidatesRejected, classOffsetHistogram) == l.counts
      && duplicatesSkipped == l.players.repeats + l.staff.repeats + l.managers.repeats
      && candidatesAccepted == l.players.accepted
      && staffCandidatesAccepted == l.staff.accepted
      && humanManagerCandidatesAccepted == l.managers.accepted
      && clubCandidatesAccepted == l.clubs.accepted
      && clubCandidateDuplicatesSkipped == l.clubs.repeats
      && sampleUids == l.sampleUids
    }
  }

  class ScanTables {
    var players: People
    var staff: People
    var managers: People
    var clubs: Clubs
    var classOffsetByVtable: map<Word64, int>

    constructor ()
      ensures players == map[] && staff == map[] && managers == map[] && clubs == map[]
      ensures classOffsetByVtable == map[]
    {
      players, staff, managers, clubs, classOffsetByVtable := map[], map[], map[], map[], map[];
    }

    ghost predicate Holds(l: Ledger)
      reads this
    {
      && players == l.players.people && staff == l.staff.people && managers == l.managers.people
      && clubs == l.clubs.clubs
    }

    /** The cache never answers differently from a fresh resolution. */
    ghost predicate CacheIsTransparent(reader: Reader)
      reads this
    {
      forall v :: v in classOffsetByVtable ==> classOffsetByVtable[v] == ResolveClassOffset(reader, v)
    }
  }

  method TryResolveDynamicOffsetCached(reader: Reader, vtable: Word64, tables: ScanTables) returns (classOffset: int)
    requires tables.CacheIsTransparent(reader)
    modifies tables`classOffsetByVtable
    ensures tables.CacheIsTransparent(reader)
    ensures classOffset == ResolveClassOffset(reader, vtable)
  {
    if vtable in tables.classOffsetByVtable {
      return tables.classOffsetByVtable[vtable];
    }
    classOffset := ResolveClassOffset(reader, vtable);
    tables.classOffsetByVtable := tables.classOffsetByVtable[vtable := classOffset];
  }

  // ---------------------------------------------------------------- one address

  method RecordClub(club: Option<ClubCandidate>, tables: ScanTables, diagnostics: ScanDiagnostics)
    modifies tables`clubs, diagnostics`clubCandidatesAccepted, diagnostics`clubCandidateDuplicatesSkipped,
             diagnostics`clubCandidatesRejected
    ensures diagnostics.clubCandidatesRejected ==
              old(diagnostics.clubCandidatesRejected) + (if club.None? then 1 else 0)
    ensures
      var before := ClubBook(old(tables.clubs), old(diagnostics.clubCandidatesAccepted),
                             old(diagnostics.clubCandidateDuplicatesSkipped));
      var after := ClubBook(tables.clubs, diagnostics.clubCandidatesAccepted,
                            diagnostics.clubCandidateDuplicatesSkipped);
      after == if club.Some? then ClubBookPost(before, club.value) else before
  {
    match club {
      case None =>
        diagnostics.clubCandidatesRejected := diagnostics.clubCandidatesRejected + 1;
      case Some(candidate) =>
        if candidate.address !in tables.clubs {
          tables.clubs := tables.clubs[candidate.address := candidate];
          diagnostics.clubCandidatesAccepted := diagnostics.clubCandidatesAccepted + 1;
        } else {
          diagnostics.clubCandidateDuplicatesSkipped := diagnostics.clubCandidateDuplicatesSkipped + 1;
        }
    }
  }

  method RecordPlayer(c: PersonCandidate, tables: ScanTables, diagnostics: ScanDiagnostics, ghost l: Ledger)
    requires tables.Holds(l) && diagnostics.Shows(l)
    modifies tables`players, diagnostics
    ensures tables.Holds(PostPlayer(l, c)) && diagnostics.Shows(PostPlayer(l, c))
    ensures diagnostics.acceptedPlayerUids ==
              old(diagnostics.acceptedPlayerUids) + (if c.uid in old(tables.players) then [] else [c.uid])
  {
    if c.uid in tables.players {
      tables.players := KeepLowest(tables.players, c);
      diagnostics.duplicatesSkipped := diagnostics.duplicatesSkipped + 1;
      return;
    }
    tables.players := tables.players[c.uid := c];
    diagnostics.acceptedPlayerUids := diagnostics.acceptedPlayerUids + [c.uid];
    diagnostics.candidatesAccepted := diagnostics.candidatesAccepted + 1;
    if |diagnostics.sampleUids| < SAMPLE_LIMIT {
      diagnostics.sampleUids := diagnostics.sampleUids + [c.uid];
    }
  }

  /** Staff and managers: a manager enters both tables. */
  method RecordStaff(c: PersonCandidate, tables: ScanTables, diagnostics: ScanDiagnostics, ghost l: Ledger)
    requires !c.facet.Player? && tables.Holds(l) && diagnostics.Shows(l)
    modifies tables`staff, tables`managers, diagnostics
    ensures tables.Holds(PostPerson(l, c)) && diagnostics.Shows(PostPerson(l, c))
    ensures diagnostics.acceptedPlayerUids == old(diagnostics.acceptedPlayerUids)
  {
    if c.uid in tables.staff {
      tables.staff := KeepLowest(tables.staff, c);
      diagnostics.duplicatesSkipped := diagnostics.duplicatesSkipped + 1;
    } else {
      tables.staff := tables.staff[c.uid := c];
      diagnostics.staffCandidatesAccepted := diagnostics.staffCandidatesAccepted + 1;
    }
    if c.facet.HumanManager? {
      if c.uid in tables.managers {
        tables.managers := KeepLowest(tables.managers, c);
        diagnostics.duplicatesSkipped := diagnostics.duplicatesSkipped + 1;
      } else {
        tables.managers := tables.managers[c.uid := c];
        diagnostics.humanManagerCandidatesAccepted := diagnostics.humanManagerCandidatesAccepted + 1;
      }
    }
  }

  /** The state after `o` was recorded on top of a state that showed `l`. */
  ghost predicate Recorded(tables: ScanTables, diagnostics: ScanDiagnostics, l: Ledger, o: Observation,
                           uidsBefore: seq<Word32>)
    reads tables, diagnostics
  {
    && tables.Holds(Post(l, o))
    && diagnostics.Shows(Post(l, o))
    && diagnostics.acceptedPlayerUids == uidsBefore + NewPlayer(l, o)
  }

  /** The counters of `l` after `o`, before its verdict is counted. */
  ghost predicate ShowsHit(diagnostics: ScanDiagnostics, l: Ledger, o: Observation)
    reads diagnostics
  {
    var k := CountsPost(l.counts, o);
    diagnostics.Shows(l.(counts := l.counts.(bytesScanned := k.bytesScanned, vtableHits := k.vtableHits,
                                             histogram := k.histogram)))
  }

  /** Enters the class of an object into the histogram. */
  method CountClass(classOffset: int, diagnostics: ScanDiagnostics, ghost l: Ledger, ghost verdict: Verdict)
    requires diagnostics.Shows(l.(counts := l.counts.(bytesScanned := l.counts.bytesScanned + 8,
                                                      vtableHits := l.counts.vtableHits + 1)))
    modifies diagnostics`classOffsetHistogram
    ensures ShowsHit(diagnostics, l, Object(classOffset, verdict))
  {
    hide CountOf;
    if 0 < classOffset < 0x2000 {
      diagnostics.classOffsetHistogram :=
        diagnostics.classOffsetHistogram[classOffset := CountOf(diagnostics.classOffsetHistogram, classOffset) + 1];
    }
  }

  /** The body of the inspection loop: one header is classified and recorded. */
  method InspectAddress(ctx: Context, address: Word64, header: seq<Byte>, tables: ScanTables,
                        diagnostics: ScanDiagnostics,
                        ghost l: Ledger)
    requires ctx.layout.Scannable() && |header| == ctx.layout.HeaderBytes()
    requires tables.CacheIsTransparent(ctx.reader) && tables.Holds(l) && diagnostics.Shows(l)
    modifies tables, diagnostics
    ensures tables.CacheIsTransparent(ctx.reader)
    ensures Recorded(tables, diagnostics, l, Observe(ctx, address, header), old(diagnostics.acceptedPlayerUids))
  {
    hide VerdictAt, PostPerson, BookPost, ClubBookPost, UInt32At, UInt64At, IsModuleVtable, ResolveClassOffset, CountOf,
         ShowsHit;
    diagnostics.bytesScanned := diagnostics.bytesScanned + 8;
    var vtable := UInt64At(header, 0);
    if !IsModuleVtable(ctx, vtable) {
      return;
    }
    diagnostics.vtableHits := diagnostics.vtableHits + 1;
    var classOffset := TryResolveDynamicOffsetCached(ctx.reader, vtable, tables);
    if classOffset == 0 {
      diagnostics.candidatesRejected := diagnostics.candidatesRejected + 1;
      return;
    }
    var uid := UInt32At(header, ctx.layout.objectUidOffset);
    CountClass(classOffset, diagnostics, l, VerdictAt(ctx, address, uid, classOffset));
    InspectObject(ctx, address, uid, classOffset, tables, diagnostics, l);
  }

  /** An object whose class is known: file it as a club, a player, a staff member or a manager, or reject it. */
  method InspectObject(ctx: Context, address: Word64, uid: Word32, classOffset: int, tables: ScanTables,
                       diagnostics: ScanDiagnostics, ghost l: Ledger)
    requires tables.Holds(l)
    requires ShowsHit(diagnostics, l, Object(classOffset, VerdictAt(ctx, address, uid, classOffset)))
    modifies tables`players, tables`staff, tables`managers, tables`clubs, diagnostics
    ensures Recorded(tables, diagnostics, l, Object(classOffset, VerdictAt(ctx, address, uid, classOffset)),
                     old(diagnostics.acceptedPlayerUids))
  {
    hide FacetOf, ClubAt, AbilityAt, GenderAt, IsValidUid, TrySubtract, Includes, BookPost, ClubBookPost, PostPlayer,
         HistogramOffsetOf, CountOf, AddSample;
    ghost var o := Object(classOffset, VerdictAt(ctx, address, uid, classOffset));
    if !IsValidUid(uid) {
      diagnostics.candidatesRejected := diagnostics.candidatesRejected + 1;
      return;
    }
    var facet := FacetOf(ctx.layout, classOffset);
    if facet.None? {
      diagnostics.candidatesRejected := diagnostics.candidatesRejected + 1;
      RecordClub(ClubAt(ctx, address), tables, diagnostics);
      return;
    }
    var blockAddress := TrySubtract(address, classOffset);
    if blockAddress.None? {
      diagnostics.candidatesRejected := diagnostics.candidatesRejected + 1;
      return;
    }
    var player := facet.value.Player?;
    var ca := AbilityAt(ctx.reader, blockAddress.value,
                        if player then ctx.layout.currentAbilityOffset else ctx.layout.staffCurrentAbilityOffset);
    var pa := AbilityAt(ctx.reader, blockAddress.value,
                        if player then ctx.layout.potentialAbilityOffset else ctx.layout.staffPotentialAbilityOffset);
    if ca.None? || pa.None? {
      diagnostics.candidatesRejected := diagnostics.candidatesRejected + 1;
      return;
    }
    var c := PersonCandidate(address, blockAddress.value, uid, ca.value, pa.value, classOffset, facet.value);
    if player && !Includes(ctx.scope, GenderAt(ctx, address)) {
      diagnostics.playersExcludedByDatabaseScope := diagnostics.playersExcludedByDatabaseScope + 1;
      return;
    }
    assert o.verdict == Person(c);
    if player {
      RecordPlayer(c, tables, diagnostics, l.(counts := CountsPost(l.counts, o)));
    } else {
      RecordStaff(c, tables, diagnostics, l.(counts := CountsPost(l.counts, o)));
    }
  }

  /** The uid that an observation adds to the order of accepted players, if any. */
  ghost function NewPlayer(l: Ledger, o: Observation): seq<Word32> {
    if PlayerOf(o).Some? && PlayerOf(o).value.uid !in l.players.people then [PlayerOf(o).value.uid] else []
  }

  // ---------------------------------------------------------------- one block

  /** The state of a sequential scan that has seen `obs` and rejected some regions. */
  ghost predicate InStep(reader: Reader, tables: ScanTables, diagnostics: ScanDiagnostics, obs: seq<Observation>,
                         rejectedRegions: nat)
    reads tables, diagnostics
  {
    var l := Tabulate(obs, rejectedRegions);
    && tables.CacheIsTransparent(reader)
    && tables.Holds(l) && diagnostics.Shows(l)
    && diagnostics.acceptedPlayerUids == l.playerOrder
  }

  method ClearBuffer(buffer: array<Byte>, length: nat)
    requires length <= buffer.Length
    modifies buffer
    ensures buffer[..length] == Zeros(length)
  {
    forall i | 0 <= i < length {
      buffer[i] := 0;
    }
  }

  /**
   Reads one block into the buffer and accounts for the part behind `skip`. A read that throws, reports no
   exact coverage or reports too little to count leaves zeros and counts as an internal failure.
   */
  method TryReadScanBlock(reader: Reader, b: Block, buffer: array<Byte>, quality: ReadQuality) returns (q: ReadQuality)
    requires reader.Sound() && Addressable(b) && b.length <= buffer.Length
    modifies buffer
    ensures buffer[..b.length] == SeenIn(reader, b).bytes
    ensures q == quality.Add(BlockQuality(reader, b))
  {
    q := quality;
    var qualityLength := b.length - b.skip;
    match reader.readBlock(b.start, b.length) {
      case Threw =>
        ClearBuffer(buffer, b.length);
        if qualityLength > 0 { q := q.Record(qualityLength, 0, true); }
      case Returned(r, bytes) =>
        if !r.hasExactCoverage || (qualityLength > 0 && b.skip + qualityLength > r.requestedBytes) {
          ClearBuffer(buffer, b.length);
          if qualityLength > 0 { q := q.Record(qualityLength, 0, true); }
          return;
        }
        forall i | 0 <= i < b.length {
          buffer[i] := bytes[i];
        }
        if qualityLength > 0 {
          var readable := CountReadableBytes(r, b.skip, qualityLength);
          q := q.Record(qualityLength, readable, false);
        }
    }
  }

  /** Recording one header extends the list of observations by what it shows. */
  method InspectHeader(ctx: Context, address: Word64, header: seq<Byte>, tables: ScanTables,
                       diagnostics: ScanDiagnostics,
                       ghost obs: seq<Observation>, ghost rejectedRegions: nat)
    requires ctx.layout.Scannable() && |header| == ctx.layout.HeaderBytes()
    requires InStep(ctx.reader, tables, diagnostics, obs, rejectedRegions)
    modifies tables, diagnostics
    ensures InStep(ctx.reader, tables, diagnostics, obs + [Observe(ctx, address, header)], rejectedRegions)
  {
    hide Observe, Tabulate, Post;
    ghost var o := Observe(ctx, address, header);
    InspectAddress(ctx, address, header, tables, diagnostics, Tabulate(obs, rejectedRegions));
    TabulateStep(obs, o, rejectedRegions);
    NewPlayerExtendsOrder(obs, o, rejectedRegions);
  }

  /** Inspects every position of a block that has been read. */
  method InspectBlock(ctx: Context, b: Block, buffer: array<Byte>, tables: ScanTables, diagnostics: ScanDiagnostics,
                      ghost obs: seq<Observation>, ghost rejectedRegions: nat)
    requires ctx.Valid() && Addressable(b) && b.length <= buffer.Length && b.length <= SCAN_BLOCK_SIZE
    requires buffer[..b.length] == SeenIn(ctx.reader, b).bytes
    requires InStep(ctx.reader, tables, diagnostics, obs, rejectedRegions)
    modifies tables, diagnostics
    ensures InStep(ctx.reader, tables, diagnostics, obs + ObserveBlock(ctx, b), rejectedRegions)
  {
    hide SeenIn, Observe, InStep, Reader.Sound, ObserveUpTo;
    var headerBytes := ctx.layout.HeaderBytes();
    var local := 0;
    ghost var k := 0;
    NothingObserved(ctx, b, obs);
    while local + headerBytes <= b.length
      invariant local == 8 * k && k <= Slots(b.length, headerBytes)
      invariant buffer[..b.length] == SeenIn(ctx.reader, b).bytes
      invariant InStep(ctx.reader, tables, diagnostics, obs + ObserveUpTo(ctx, b, k), rejectedRegions)
    {
      assert local + headerBytes <= INT32_MAX && b.start + local + headerBytes < ADDRESS_SPACE;
      ghost var before := obs + ObserveUpTo(ctx, b, k);
      var header := buffer[..b.length][local..local + headerBytes];
      InspectHeader(ctx, b.start + local, header, tables, diagnostics, before, rejectedRegions);
      OneMoreObserved(ctx, b, obs, k);
      k := k + 1;
      local := local + 8;
    }
  }

  lemma NothingObserved(ctx: Context, b: Block, obs: seq<Observation>)
    requires ctx.Valid() && Addressable(b)
    ensures obs + ObserveUpTo(ctx, b, 0) == obs
  {
  }

  lemma OneMoreObserved(ctx: Context, b: Block, obs: seq<Observation>, k: nat)
    requires ctx.Valid() && Addressable(b) && k < Slots(b.length, ctx.layout.HeaderBytes())
    ensures obs + ObserveUpTo(ctx, b, k + 1) ==
              obs + ObserveUpTo(ctx, b, k) + [ObservationAt(ctx, b, b.start + 8 * k)]
  {
    hide SeenIn, Observe, ObservationAt;
    assert ObserveUpTo(ctx, b, k + 1) == ObserveUpTo(ctx, b, k) + [ObservationAt(ctx, b, b.start + 8 * k)];
  }

  lemma NewPlayerExtendsOrder(obs: seq<Observation>, o: Observation, rejectedRegions: nat)
    ensures var l := Tabulate(obs, rejectedRegions);
            Tabulate(obs + [o], rejectedRegions).playerOrder == l.playerOrder + NewPlayer(l, o)
  {
    TabulateStep(obs, o, rejectedRegions);
  }

  // ---------------------------------------------------------------- one region

  /** The overlapping windows of one region, from its first aligned address to its end. */
  method ScanRegion(ctx: Context, start: Word64, end: Word64, buffer: array<Byte>, tables: ScanTables,
                    diagnostics: ScanDiagnostics, quality: ReadQuality,
                    ghost obs: seq<Observation>, ghost rejectedRegions: nat)
    returns (q: ReadQuality)
    requires ctx.Valid() && start <= end && end - start >= ctx.layout.HeaderBytes()
    requires buffer.Length == SCAN_BLOCK_SIZE
    requires AllAddressable(Walk(start, end, ctx.layout.HeaderBytes(), ctx.layout.Overlap(), false))
    requires InStep(ctx.reader, tables, diagnostics, obs, rejectedRegions)
    modifies buffer, tables, diagnostics
    ensures var blocks := Walk(start, end, ctx.layout.HeaderBytes(), ctx.layout.Overlap(), false);
            && InStep(ctx.reader, tables, diagnostics, obs + ObserveBlocks(ctx, blocks), rejectedRegions)
            && q == quality.Add(BlocksQuality(ctx.reader, blocks))
  {
    hide SeenIn, Observe, ObserveBlock, BlockQuality, InStep, Reader.Sound, ReadQuality.Add;
    var headerBytes, overlap := ctx.layout.HeaderBytes(), ctx.layout.Overlap();
    var blockStart: nat := start;
    var hasPriorBlock := false;
    q := quality;
    ghost var rest := Walk(start, end, headerBytes, overlap, false);
    ghost var allObserved, allQuality := obs + ObserveBlocks(ctx, rest), quality.Add(BlocksQuality(ctx.reader, rest));
    ghost var seen := obs;
    while end - blockStart >= headerBytes
      invariant start <= blockStart <= end
      invariant rest == Walk(blockStart, end, headerBytes, overlap, hasPriorBlock) && AllAddressable(rest)
      invariant InStep(ctx.reader, tables, diagnostics, seen, rejectedRegions)
      invariant seen + ObserveBlocks(ctx, rest) == allObserved
      invariant q.Add(BlocksQuality(ctx.reader, rest)) == allQuality
      decreases end - blockStart
    {
      var toRead := Min(SCAN_BLOCK_SIZE, end - blockStart);
      if toRead < headerBytes {
        break;
      }
      var b := Block(blockStart, toRead, if hasPriorBlock then Min(overlap, toRead) else 0);
      WalkStep(blockStart, end, headerBytes, overlap, hasPriorBlock);
      TakeBlock(ctx, rest, seen, q);
      q := TryReadScanBlock(ctx.reader, b, buffer, q);
      InspectBlock(ctx, b, buffer, tables, diagnostics, seen, rejectedRegions);
      seen := seen + ObserveBlock(ctx, b);
      rest := rest[1..];
      hasPriorBlock := true;
      var advance := if toRead > overlap then toRead - overlap else 8;
      if advance < 8 {
        advance := 8;
      }
      match TryAdd(blockStart, advance) {
        case None => assert false;
        case Some(next) => blockStart := next;
      }
    }
    NothingLeft(ctx, rest, seen, q);
  }

  lemma TakeBlock(ctx: Context, rest: seq<Block>, seen: seq<Observation>, q: ReadQuality)
    requires ctx.Valid() && rest != [] && AllAddressable(rest)
    ensures AllAddressable(rest[1..])
    ensures seen + ObserveBlocks(ctx, rest) == seen + ObserveBlock(ctx, rest[0]) + ObserveBlocks(ctx, rest[1..])
    ensures q.Add(BlocksQuality(ctx.reader, rest)) ==
              q.Add(BlockQuality(ctx.reader, rest[0])).Add(BlocksQuality(ctx.reader, rest[1..]))
  {
    hide SeenIn, ObserveBlock, BlockQuality;
  }

  lemma NothingLeft(ctx: Context, rest: seq<Block>, seen: seq<Observation>, q: ReadQuality)
    requires ctx.Valid() && rest == []
    ensures seen + ObserveBlocks(ctx, rest) == seen
    ensures q.Add(BlocksQuality(ctx.reader, rest)) == q
  {
  }
}
