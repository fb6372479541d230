/**
 The ledger a scan keeps: tables and counters. `Tabulate` defines it from the complete list of
 observations; `Post` is the effect of one observation; `MergeLedgers` is the effect of joining two
 independent scans.
 */
module ScanLedger {
  import opened Wrappers
  import opened BlockReads
  import opened ScanModel

  /** Byte coverage of the blocks that drive discovery. */
  datatype ReadQuality = ReadQuality(requested: nat, readable: nat, unread: nat, internalFailure: nat)
  {
    function Record(requestedBytes: nat, readableBytes: nat, failed: bool): (q: ReadQuality)
      requires 0 < requestedBytes && readableBytes <= requestedBytes
      ensures Conserved() ==> q.Conserved()
    {
      var unreadBytes := requestedBytes - readableBytes;
      ReadQuality(requested + requestedBytes, readable + readableBytes, unread + unreadBytes,
                  internalFailure + (if failed then unreadBytes else 0))
    }

    function Add(other: ReadQuality): (q: ReadQuality)
      ensures Conserved() && other.Conserved() ==> q.Conserved()
    {
      ReadQuality(requested + other.requested, readable + other.readable, unread + other.unread,
                  internalFailure + other.internalFailure)
    }

    /** Every requested byte is either readable or unread, and internal failures are unread bytes. */
    predicate Conserved() { readable + unread == requested && internalFailure <= unread }

    /** More than ten percent of the requested bytes are unread. */
    predicate IsMateriallyIncomplete() { requested > 0 && unread * 100 > requested * 10 }
  }

  const NO_READS: ReadQuality := ReadQuality(0, 0, 0, 0)

  /** A table of persons with the number of persons accepted and of repeated hits skipped. */
  datatype Book = Book(people: People, accepted: nat, repeats: nat)

  datatype ClubBook = ClubBook(clubs: Clubs, accepted: nat, repeats: nat)

  datatype Counts = Counts(
    bytesScanned: nat,
    vtableHits: nat,
    rejected: nat,
    excluded: nat,
    clubsRejected: nat,
    histogram: Histogram)
  {
    function Add(other: Counts): Counts {
      Counts(bytesScanned + other.bytesScanned, vtableHits + other.vtableHits, rejected + other.rejected,
             excluded + other.excluded, clubsRejected + other.clubsRejected,
             HistogramSum(histogram, other.histogram))
    }
  }

  datatype Ledger = Ledger(
    players: Book,
    playerOrder: seq<Word32>,
    sampleUids: seq<Word32>,
    staff: Book,
    managers: Book,
    clubs: ClubBook,
    counts: Counts)

  /** One entry per person, at the first of its lowest addresses; every further hit is a repeat. */
  ghost function BookOf(hits: seq<PersonCandidate>): Book {
    RepeatsAreCounted(hits);
    Book(LowestByUid(hits), |LowestByUid(hits)|, |hits| - |LowestByUid(hits)|)
  }

  ghost function ClubBookOf(hits: seq<ClubCandidate>): ClubBook {
    ClubRepeatsAreCounted(hits);
    ClubBook(FirstByAddress(hits), |FirstByAddress(hits)|, |hits| - |FirstByAddress(hits)|)
  }

  ghost function CountsOf(obs: seq<Observation>, rejectedRegions: nat): Counts {
    Counts(
      8 * |obs|,
      Count(obs, IsVtableHit),
      Count(obs, IsRejected) + rejectedRegions,
      Count(obs, IsExcluded),
      Count(obs, IsRejectedClub),
      HistogramOf(Select(obs, HistogramOffsetOf)))
  }

  /** The ledger a whole scan must end with, read off the list of everything it observed. */
  ghost function Tabulate(obs: seq<Observation>, rejectedRegions: nat): Ledger {
    var order := FirstUids(Select(obs, PlayerOf));
    Ledger(
      BookOf(Select(obs, PlayerOf)), order, Samples(order),
      BookOf(Select(obs, StaffOf)), BookOf(Select(obs, ManagerOf)),
      ClubBookOf(Select(obs, ClubOf)), CountsOf(obs, rejectedRegions))
  }

  lemma {:induction false} RepeatsAreCounted(hits: seq<PersonCandidate>)
    ensures |LowestByUid(hits)| <= |hits|
  {
    if hits != [] { RepeatsAreCounted(hits[..|hits| - 1]); }
  }

  lemma {:induction false} ClubRepeatsAreCounted(hits: seq<ClubCandidate>)
    ensures |FirstByAddress(hits)| <= |hits|
  {
    if hits != [] { ClubRepeatsAreCounted(hits[..|hits| - 1]); }
  }

  // ---------------------------------------------------------------- one more observation

  ghost function BookPost(b: Book, c: PersonCandidate): Book {
    if c.uid in b.people then Book(KeepLowest(b.people, c), b.accepted, b.repeats + 1)
    else Book(b.people[c.uid := c], b.accepted + 1, b.repeats)
  }

  ghost function ClubBookPost(b: ClubBook, c: ClubCandidate): ClubBook {
    if c.address in b.clubs then b.(repeats := b.repeats + 1)
    else ClubBook(b.clubs[c.address := c], b.accepted + 1, b.repeats)
  }

  function AddSample(samples: seq<Word32>, uid: Word32): seq<Word32> {
    if |samples| < SAMPLE_LIMIT then samples + [uid] else samples
  }

  ghost function CountsPost(k: Counts, o: Observation): Counts {
    Counts(
      k.bytesScanned + 8,
      k.vtableHits + (if IsVtableHit(o) then 1 else 0),
      k.rejected + (if IsRejected(o) then 1 else 0),
      k.excluded + (if IsExcluded(o) then 1 else 0),
      k.clubsRejected + (if IsRejectedClub(o) then 1 else 0),
      match HistogramOffsetOf(o)
      case Some(offset) => k.histogram[offset := CountOf(k.histogram, offset) + 1]
      case None => k.histogram)
  }

  ghost function PostPlayer(l: Ledger, c: PersonCandidate): Ledger {
    if c.uid in l.players.people then l.(players := BookPost(l.players, c))
    else l.(players := BookPost(l.players, c), playerOrder := l.playerOrder + [c.uid],
            sampleUids := AddSample(l.sampleUids, c.uid))
  }

  ghost function PostPerson(l: Ledger, c: PersonCandidate): Ledger {
    match c.facet
    case Player => PostPlayer(l, c)
    case Staff => l.(staff := BookPost(l.staff, c))
    case HumanManager => l.(staff := BookPost(l.staff, c), managers := BookPost(l.managers, c))
  }

  ghost function Post(l: Ledger, o: Observation): Ledger {
    var counted := l.(counts := CountsPost(l.counts, o));
    if PersonOf(o).Some? then PostPerson(counted, PersonOf(o).value)
    else if ClubOf(o).Some? then counted.(clubs := ClubBookPost(l.clubs, ClubOf(o).value))
    else counted
  }

  lemma SelectLast<T>(obs: seq<Observation>, o: Observation, f: Observation -> Option<T>)
    ensures Select(obs + [o], f) == if f(o).Some? then Select(obs, f) + [f(o).value] else Select(obs, f)
  {
    assert (obs + [o])[..|obs|] == obs;
  }

  lemma CountLast(obs: seq<Observation>, o: Observation, p: Observation -> bool)
    ensures Count(obs + [o], p) == Count(obs, p) + (if p(o) then 1 else 0)
  {
    assert (obs + [o])[..|obs|] == obs;
  }

  lemma BookStep(hits: seq<PersonCandidate>, c: PersonCandidate)
    ensures BookOf(hits + [c]) == BookPost(BookOf(hits), c)
    ensures FirstUids(hits + [c]) ==
              if c.uid in BookOf(hits).people then FirstUids(hits) else FirstUids(hits) + [c.uid]
  {
    assert (hits + [c])[..|hits|] == hits;
    FirstUidsAreKeys(hits);
    if c.uid in LowestByUid(hits) {
      assert KeepLowest(LowestByUid(hits), c).Keys == LowestByUid(hits).Keys;
    }
  }

  lemma ClubBookStep(hits: seq<ClubCandidate>, c: ClubCandidate)
    ensures ClubBookOf(hits + [c]) == ClubBookPost(ClubBookOf(hits), c)
  {
    assert (hits + [c])[..|hits|] == hits;
  }

  lemma CountsStep(obs: seq<Observation>, o: Observation, rejectedRegions: nat)
    ensures CountsOf(obs + [o], rejectedRegions) == CountsPost(CountsOf(obs, rejectedRegions), o)
  {
    CountLast(obs, o, IsVtableHit);
    CountLast(obs, o, IsRejected);
    CountLast(obs, o, IsExcluded);
    CountLast(obs, o, IsRejectedClub);
    SelectLast(obs, o, HistogramOffsetOf);
    if HistogramOffsetOf(o).Some? {
      var offsets, k := Select(obs, HistogramOffsetOf), HistogramOffsetOf(o).value;
      assert (offsets + [k])[..|offsets|] == offsets;
    }
  }

  lemma SamplesStep(uids: seq<Word32>, u: Word32)
    ensures Samples(uids + [u]) == AddSample(Samples(uids), u)
  {
  }

  lemma BooksStep(obs: seq<Observation>, o: Observation, f: Observation -> Option<PersonCandidate>)
    ensures BookOf(Select(obs + [o], f)) ==
              if f(o).Some? then BookPost(BookOf(Select(obs, f)), f(o).value) else BookOf(Select(obs, f))
  {
    SelectLast(obs, o, f);
    if f(o).Some? { BookStep(Select(obs, f), f(o).value); }
  }

  lemma ClubsStep(obs: seq<Observation>, o: Observation)
    ensures ClubBookOf(Select(obs + [o], ClubOf)) ==
              if ClubOf(o).Some? then ClubBookPost(ClubBookOf(Select(obs, ClubOf)), ClubOf(o).value)
              else ClubBookOf(Select(obs, ClubOf))
  {
    SelectLast(obs, o, ClubOf);
    if ClubOf(o).Some? { ClubBookStep(Select(obs, ClubOf), ClubOf(o).value); }
  }

  lemma OrderStep(obs: seq<Observation>, o: Observation)
    ensures var before, after := FirstUids(Select(obs, PlayerOf)), FirstUids(Select(obs + [o], PlayerOf));
            if PlayerOf(o).Some? && PlayerOf(o).value.uid !in BookOf(Select(obs, PlayerOf)).people
            then after == before + [PlayerOf(o).value.uid] && Samples(after) == AddSample(Samples(before), PlayerOf(o).value.uid)
            else after == before
  {
    SelectLast(obs, o, PlayerOf);
    if PlayerOf(o).Some? {
      BookStep(Select(obs, PlayerOf), PlayerOf(o).value);
      SamplesStep(FirstUids(Select(obs, PlayerOf)), PlayerOf(o).value.uid);
    }
  }

  /** Recording one observation turns the ledger of a list into the ledger of the list with it appended. */
  lemma TabulateStep(obs: seq<Observation>, o: Observation, rejectedRegions: nat)
    ensures Tabulate(obs + [o], rejectedRegions) == Post(Tabulate(obs, rejectedRegions), o)
  {
    hide Select, Count, BookOf, ClubBookOf, BookPost, ClubBookPost, CountsOf, CountsPost, FirstUids, Samples, AddSample;
    CountsStep(obs, o, rejectedRegions);
    BooksStep(obs, o, PlayerOf);
    BooksStep(obs, o, StaffOf);
    BooksStep(obs, o, ManagerOf);
    ClubsStep(obs, o);
    OrderStep(obs, o);
  }

  // ---------------------------------------------------------------- two scans joined

  ghost function MergeBooks(a: Book, b: Book): Book {
    var people := Merged(a.people, b.people);
    MergedSize(a.people, b.people);
    Book(people, |people|, a.repeats + b.repeats + (|a.people| + |b.people| - |people|))
  }

  ghost function MergeClubBooks(a: ClubBook, b: ClubBook): ClubBook {
    var clubs := b.clubs + a.clubs;
    ClubsMergedSize(a.clubs, b.clubs);
    ClubBook(clubs, |clubs|, a.repeats + b.repeats + (|a.clubs| + |b.clubs| - |clubs|))
  }

  ghost function MergeLedgers(a: Ledger, b: Ledger): Ledger {
    var order := a.playerOrder + Without(b.playerOrder, a.players.people.Keys);
    Ledger(
      MergeBooks(a.players, b.players), order, Samples(order),
      MergeBooks(a.staff, b.staff), MergeBooks(a.managers, b.managers),
      MergeClubBooks(a.clubs, b.clubs), a.counts.Add(b.counts))
  }

  lemma MergedSize(a: People, b: People)
    ensures |Merged(a, b)| <= |a| + |b|
  {
    assert Merged(a, b).Keys == a.Keys + b.Keys;
    assert |a.Keys + b.Keys| == |a.Keys| + |b.Keys| - |a.Keys * b.Keys|;
  }

  lemma ClubsMergedSize(a: Clubs, b: Clubs)
    ensures |b + a| <= |a| + |b|
  {
    assert (b + a).Keys == b.Keys + a.Keys;
    assert |b.Keys + a.Keys| == |b.Keys| + |a.Keys| - |b.Keys * a.Keys|;
  }

  lemma BookAppend(a: seq<PersonCandidate>, b: seq<PersonCandidate>)
    ensures BookOf(a + b) == MergeBooks(BookOf(a), BookOf(b))
  {
    LowestAppend(a, b);
  }

  lemma ClubBookAppend(a: seq<ClubCandidate>, b: seq<ClubCandidate>)
    ensures ClubBookOf(a + b) == MergeClubBooks(ClubBookOf(a), ClubBookOf(b))
  {
    ClubsAppend(a, b);
  }

  lemma CountsAppend(a: seq<Observation>, b: seq<Observation>, rejectedA: nat, rejectedB: nat)
    ensures CountsOf(a + b, rejectedA + rejectedB) == CountsOf(a, rejectedA).Add(CountsOf(b, rejectedB))
  {
    SelectAppend(a, b, HistogramOffsetOf);
    HistogramAppend(Select(a, HistogramOffsetOf), Select(b, HistogramOffsetOf));
    CountAppend(a, b, IsVtableHit);
    CountAppend(a, b, IsRejected);
    CountAppend(a, b, IsExcluded);
    CountAppend(a, b, IsRejectedClub);
  }

  /** Splitting a list of observations anywhere, tabulating the parts and joining them loses nothing. */
  lemma TabulateAppend(a: seq<Observation>, b: seq<Observation>, rejectedA: nat, rejectedB: nat)
    ensures Tabulate(a + b, rejectedA + rejectedB) == MergeLedgers(Tabulate(a, rejectedA), Tabulate(b, rejectedB))
  {
    SelectAppend(a, b, PlayerOf);
    SelectAppend(a, b, StaffOf);
    SelectAppend(a, b, ManagerOf);
    SelectAppend(a, b, ClubOf);
    BookAppend(Select(a, PlayerOf), Select(b, PlayerOf));
    BookAppend(Select(a, StaffOf), Select(b, StaffOf));
    BookAppend(Select(a, ManagerOf), Select(b, ManagerOf));
    FirstUidsAppend(Select(a, PlayerOf), Select(b, PlayerOf));
    ClubBookAppend(Select(a, ClubOf), Select(b, ClubOf));
    CountsAppend(a, b, rejectedA, rejectedB);
  }
}
