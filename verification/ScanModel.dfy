/**
 What one scan of a fixed memory image observes, and the declarative tables a list of observations
 stands for: per person the candidate at the lowest address, per club address the first candidate, and
 every counter as a property of the whole list.
 */
module ScanModel {
  import opened Wrappers
  import opened BlockReads

  const INVALID_UID: Word32 := 0xFFFFFFFF
  const MIN_OBJECT_HEADER_BYTES: nat := 0x10
  const MAX_TEAMS_PER_CLUB: nat := 24
  const SAMPLE_LIMIT: nat := 16

  /** 32 MiB: the largest block one read asks for. */
  const SCAN_BLOCK_SIZE: nat := 33554432

  /** The largest signed 32-bit value. */
  const INT32_MAX: nat := 0x7FFFFFFF

  datatype Facet = Player | Staff | HumanManager

  datatype PersonCandidate = PersonCandidate(
    objectAddress: Word64,
    blockAddress: Word64,
    uid: Word32,
    ca: int,
    pa: int,
    classOffset: int,
    facet: Facet)

  datatype ClubCandidate = ClubCandidate(address: Word64, name: string)

  datatype MemoryRegion = MemoryRegion(baseAddress: Word64, size: Word64)

  datatype ModuleBounds = ModuleBounds(baseAddress: Word64, endAddress: Word64)
  {
    predicate Contains(address: Word64) { baseAddress <= address < endAddress }
  }

  datatype Scope = Men | Women | Both
  datatype Gender = Male | Female | Unknown

  function Includes(scope: Scope, gender: Gender): bool {
    match scope
    case Men => gender.Male? || gender.Unknown?
    case Women => gender.Female?
    case Both => true
  }

  /** A block read either throws or reports its coverage and leaves some bytes in the buffer. */
  datatype BlockOutcome = Threw | Returned(result: BlockReadResult, bytes: seq<Byte>)

  /** A reader over a memory image that does not change during the scan: equal reads give equal answers. */
  datatype Reader = Reader(
    readBlock: (Word64, nat) -> BlockOutcome,
    readByte: Word64 -> Option<Byte>,
    readUInt16: Word64 -> Option<nat>,
    readInt32: Word64 -> Option<int>,
    readUInt64: Word64 -> Option<Word64>,
    clubName: Word64 -> Option<string>)
  {
    /** Results are only ever built by their constructors, and the caller's slice has the requested length. */
    ghost predicate Sound() {
      forall address: Word64, length: nat :: readBlock(address, length).Returned? ==>
        readBlock(address, length).result.Valid() && |readBlock(address, length).bytes| == length
    }
  }

  datatype Layout = Layout(
    objectUidOffset: int,
    playerClassOffsets: set<int>,
    staffClassOffsets: set<int>,
    humanManagerClassOffsets: set<int>,
    currentAbilityOffset: int,
    potentialAbilityOffset: int,
    staffCurrentAbilityOffset: int,
    staffPotentialAbilityOffset: int,
    genderOffset: int,
    isFemale: Byte -> bool,
    clubTeamsBeginOffset: int,
    clubTeamsEndOffset: int)
  {
    /** The offsets the scanner accepts without throwing. */
    predicate Scannable() { 0 <= objectUidOffset <= INT32_MAX - 4 }

    /** How many bytes at an address are needed to see its vtable and its uid. */
    function HeaderBytes(): (h: nat)
      requires Scannable()
      ensures MIN_OBJECT_HEADER_BYTES <= h && objectUidOffset + 4 <= h
    {
      if objectUidOffset + 4 > MIN_OBJECT_HEADER_BYTES then objectUidOffset + 4 else MIN_OBJECT_HEADER_BYTES
    }

    /** How far two neighbouring blocks overlap. */
    function Overlap(): (o: nat)
      requires Scannable()
      ensures HeaderBytes() <= o < HeaderBytes() + 8
      ensures o % 8 == 0
    {
      AlignUp(HeaderBytes())
    }
  }

  /** The next multiple of eight. */
  function AlignUp(value: nat): (aligned: nat)
    ensures value <= aligned < value + 8
    ensures aligned % 8 == 0
  {
    (value + 7) / 8 * 8
  }

  /** Aligning refuses a value whose rounding would leave the address space. */
  function TryAlignUp(value: Word64): Option<Word64> {
    if value > ADDRESS_SPACE - 1 - 7 then None else Some(AlignUp(value))
  }

  datatype Context = Context(
    reader: Reader,
    layout: Layout,
    gameAssembly: ModuleBounds,
    gamePlugin: Option<ModuleBounds>,
    scope: Scope)
  {
    ghost predicate Valid() { reader.Sound() && layout.Scannable() }
  }

  // ---------------------------------------------------------------- one inspected address

  function UInt32At(bytes: seq<Byte>, i: nat): Word32
    requires i + 4 <= |bytes|
  {
    var b0: int, b1: int, b2: int, b3: int := bytes[i], bytes[i + 1], bytes[i + 2], bytes[i + 3];
    b0 + 0x100 * b1 + 0x1_0000 * b2 + 0x100_0000 * b3
  }

  function UInt64At(bytes: seq<Byte>, i: nat): Word64
    requires i + 8 <= |bytes|
  {
    var low: int, high: int := UInt32At(bytes, i), UInt32At(bytes, i + 4);
    low + 0x1_0000_0000 * high
  }

  predicate IsValidUid(uid: Word32) { uid != 0 && uid != INVALID_UID }

  predicate IsValidAbility(value: int) { 1 <= value <= 200 }

  predicate IsModuleVtable(ctx: Context, vtable: Word64) {
    ctx.gameAssembly.Contains(vtable) || (ctx.gamePlugin.Some? && ctx.gamePlugin.value.Contains(vtable))
  }

  /** The class offset behind a vtable: `*(int*)(*(vtable - 8) + 4)`, or 0 when it cannot be resolved. */
  function ResolveClassOffset(reader: Reader, vtable: Word64): int {
    if vtable < 8 then 0
    else
      match reader.readUInt64(vtable - 8)
      case None => 0
      case Some(meta) =>
        if meta == 0 then 0
        else
          match TryAdd(meta, 4)
          case None => 0
          case Some(address) =>
            match reader.readInt32(address)
            case None => 0
            case Some(offset) => offset
  }

  function FacetOf(layout: Layout, classOffset: int): Option<Facet> {
    if classOffset in layout.playerClassOffsets then Some(Player)
    else if classOffset in layout.staffClassOffsets then Some(Staff)
    else if classOffset in layout.humanManagerClassOffsets then Some(HumanManager)
    else None
  }

  function ReadPointerAt(reader: Reader, address: Word64, offset: int): Option<Word64> {
    match TryAdd(address, offset)
    case None => None
    case Some(field) => reader.readUInt64(field)
  }

  /** An address is a club when its team vector is plausible and its name can be read. */
  function ClubAt(ctx: Context, address: Word64): Option<ClubCandidate> {
    var begin := ReadPointerAt(ctx.reader, address, ctx.layout.clubTeamsBeginOffset);
    var end := ReadPointerAt(ctx.reader, address, ctx.layout.clubTeamsEndOffset);
    if begin.None? || end.None? then None
    else if begin.value == 0 || end.value <= begin.value || begin.value % 8 != 0 || end.value % 8 != 0 then None
    else if (end.value - begin.value) / 8 > MAX_TEAMS_PER_CLUB then None
    else
      match ctx.reader.clubName(address)
      case None => None
      case Some(name) => Some(ClubCandidate(address, name))
  }

  function AbilityAt(reader: Reader, blockAddress: Word64, offset: int): Option<nat> {
    match TryAdd(blockAddress, offset)
    case None => None
    case Some(address) =>
      match reader.readUInt16(address)
      case None => None
      case Some(value) => if IsValidAbility(value) then Some(value) else None
  }

  function GenderAt(ctx: Context, address: Word64): Gender {
    match TryAdd(address, ctx.layout.genderOffset)
    case None => Unknown
    case Some(field) =>
      match ctx.reader.readByte(field)
      case None => Unknown
      case Some(raw) => if ctx.layout.isFemale(raw) then Female else Male
  }

  /** Why a resolved object was or was not kept. */
  datatype Verdict =
    | BadUid
    | Club(club: ClubCandidate)
    | NotAClub
    | Unreadable
    | ExcludedByScope
    | Person(candidate: PersonCandidate)

  datatype Observation = NotAnObject | Unresolved | Object(classOffset: int, verdict: Verdict)

  function VerdictAt(ctx: Context, address: Word64, uid: Word32, classOffset: int): Verdict {
    if !IsValidUid(uid) then BadUid
    else
      match FacetOf(ctx.layout, classOffset)
      case None =>
        (match ClubAt(ctx, address)
         case None => NotAClub
         case Some(club) => Club(club))
      case Some(facet) =>
        match TrySubtract(address, classOffset)
        case None => Unreadable
        case Some(blockAddress) =>
          var caOffset := if facet.Player? then ctx.layout.currentAbilityOffset else ctx.layout.staffCurrentAbilityOffset;
          var paOffset :=
            if facet.Player? then ctx.layout.potentialAbilityOffset else ctx.layout.staffPotentialAbilityOffset;
          var ca, pa := AbilityAt(ctx.reader, blockAddress, caOffset), AbilityAt(ctx.reader, blockAddress, paOffset);
          if ca.None? || pa.None? then Unreadable
          else if facet.Player? && !Includes(ctx.scope, GenderAt(ctx, address)) then ExcludedByScope
          else Person(PersonCandidate(address, blockAddress, uid, ca.value, pa.value, classOffset, facet))
  }

  /** What the scanner makes of one address, given the header bytes its block read left in the buffer. */
  function Observe(ctx: Context, address: Word64, header: seq<Byte>): Observation
    requires ctx.layout.Scannable() && |header| == ctx.layout.HeaderBytes()
  {
    var vtable := UInt64At(header, 0);
    if !IsModuleVtable(ctx, vtable) then NotAnObject
    else
      var classOffset := ResolveClassOffset(ctx.reader, vtable);
      if classOffset == 0 then Unresolved
      else Object(classOffset, VerdictAt(ctx, address, UInt32At(header, ctx.layout.objectUidOffset), classOffset))
  }

  // ---------------------------------------------------------------- lists of observations

  function PersonOf(o: Observation): Option<PersonCandidate> {
    if o.Object? && o.verdict.Person? then Some(o.verdict.candidate) else None
  }

  function PlayerOf(o: Observation): Option<PersonCandidate> {
    match PersonOf(o)
    case Some(c) => if c.facet.Player? then Some(c) else None
    case None => None
  }

  /** Managers are recorded as staff as well. */
  function StaffOf(o: Observation): Option<PersonCandidate> {
    match PersonOf(o)
    case Some(c) => if c.facet.Player? then None else Some(c)
    case None => None
  }

  function ManagerOf(o: Observation): Option<PersonCandidate> {
    match PersonOf(o)
    case Some(c) => if c.facet.HumanManager? then Some(c) else None
    case None => None
  }

  function ClubOf(o: Observation): Option<ClubCandidate> {
    if o.Object? && o.verdict.Club? then Some(o.verdict.club) else None
  }

  /** The class offsets that enter the histogram. */
  function HistogramOffsetOf(o: Observation): Option<int> {
    if o.Object? && 0 < o.classOffset < 0x2000 then Some(o.classOffset) else None
  }

  /** Everything but a person, or a player outside the requested scope, counts as rejected. */
  predicate IsRejected(o: Observation) {
    o.Unresolved? || (o.Object? && !o.verdict.Person? && !o.verdict.ExcludedByScope?)
  }

  predicate IsVtableHit(o: Observation) { !o.NotAnObject? }

  predicate IsRejectedClub(o: Observation) { o.Object? && o.verdict.NotAClub? }

  predicate IsExcluded(o: Observation) { o.Object? && o.verdict.ExcludedByScope? }

  ghost function Select<T>(obs: seq<Observation>, f: Observation -> Option<T>): seq<T> {
    if obs == [] then []
    else
      var rest, last := Select(obs[..|obs| - 1], f), f(obs[|obs| - 1]);
      if last.Some? then rest + [last.value] else rest
  }

  ghost function Count(obs: seq<Observation>, p: Observation -> bool): nat {
    if obs == [] then 0
    else Count(obs[..|obs| - 1], p) + (if p(obs[|obs| - 1]) then 1 else 0)
  }

  lemma {:induction false} SelectAppend<T>(a: seq<Observation>, b: seq<Observation>, f: Observation -> Option<T>)
    ensures Select(a + b, f) == Select(a, f) + Select(b, f)
  {
    if b == [] {
      assert a + b == a;
    } else {
      SelectAppend(a, b[..|b| - 1], f);
      assert (a + b)[..|a + b| - 1] == a + b[..|b| - 1];
    }
  }

  lemma {:induction false} CountAppend(a: seq<Observation>, b: seq<Observation>, p: Observation -> bool)
    ensures Count(a + b, p) == Count(a, p) + Count(b, p)
  {
    if b == [] {
      assert a + b == a;
    } else {
      CountAppend(a, b[..|b| - 1], p);
      assert (a + b)[..|a + b| - 1] == a + b[..|b| - 1];
    }
  }

  // ---------------------------------------------------------------- lowest address per person

  type People = map<Word32, PersonCandidate>

  /** A candidate replaces the kept one only when its address is strictly lower. */
  function KeepLowest(people: People, c: PersonCandidate): People {
    if c.uid in people && people[c.uid].objectAddress <= c.objectAddress then people else people[c.uid := c]
  }

  ghost function LowestByUid(hits: seq<PersonCandidate>): People {
    if hits == [] then map[] else KeepLowest(LowestByUid(hits[..|hits| - 1]), hits[|hits| - 1])
  }

  /** Hit `i` lies as low as any hit of its person, and lower than every earlier one. */
  ghost predicate IsFirstLowest(hits: seq<PersonCandidate>, i: int) {
    && 0 <= i < |hits|
    && forall j :: 0 <= j < |hits| && hits[j].uid == hits[i].uid ==>
         hits[i].objectAddress <= hits[j].objectAddress && (j < i ==> hits[i].objectAddress < hits[j].objectAddress)
  }

  /** The table holds, for exactly the persons that were hit, the first of the lowest hits. */
  ghost predicate ListsLowest(people: People, hits: seq<PersonCandidate>) {
    && (forall c :: c in hits ==> c.uid in people)
    && (forall u :: u in people ==> exists i :: IsFirstLowest(hits, i) && hits[i].uid == u && people[u] == hits[i])
  }

  lemma {:induction false} HitsAreKept(hits: seq<PersonCandidate>)
    ensures forall c :: c in hits ==> c.uid in LowestByUid(hits)
  {
    if hits != [] {
      var n := |hits| - 1;
      HitsAreKept(hits[..n]);
      assert hits == hits[..n] + [hits[n]];
    }
  }

  lemma {:induction false} WinnerOf(hits: seq<PersonCandidate>, u: Word32) returns (i: int)
    requires u in LowestByUid(hits)
    ensures IsFirstLowest(hits, i) && hits[i].uid == u && LowestByUid(hits)[u] == hits[i]
  {
    var n := |hits| - 1;
    var init, last := hits[..n], hits[n];
    HitsAreKept(init);
    assert forall j :: 0 <= j < n ==> hits[j] == init[j] && init[j] in init;
    if u in LowestByUid(init) {
      i := WinnerOf(init, u);
      if u == last.uid && last.objectAddress < hits[i].objectAddress { i := n; }
    } else {
      i := n;
    }
  }

  lemma WinnersAgree(hits: seq<PersonCandidate>, i: int, j: int)
    requires IsFirstLowest(hits, i) && IsFirstLowest(hits, j) && hits[i].uid == hits[j].uid
    ensures i == j
  {
  }

  /** The table the scanner keeps is the one and only table of first-lowest candidates. */
  lemma LowestIsUnique(people: People, hits: seq<PersonCandidate>)
    ensures ListsLowest(people, hits) <==> people == LowestByUid(hits)
  {
    var own := LowestByUid(hits);
    HitsAreKept(hits);
    forall u | u in own ensures exists i :: IsFirstLowest(hits, i) && hits[i].uid == u && own[u] == hits[i] {
      var i := WinnerOf(hits, u);
    }
    if ListsLowest(people, hits) {
      forall u | u in people ensures u in own && people[u] == own[u] {
        var i :| IsFirstLowest(hits, i) && hits[i].uid == u && people[u] == hits[i];
        assert hits[i] in hits;
        var j := WinnerOf(hits, u);
        WinnersAgree(hits, i, j);
      }
      forall u | u in own ensures u in people {
        var j := WinnerOf(hits, u);
        assert hits[j] in hits;
      }
    }
  }

  /** Two tables made into one: on a collision the lower address wins, and the first table wins ties. */
  ghost function Merged(a: People, b: People): People {
    map u | u in a.Keys + b.Keys ::
      if u !in b then a[u] else if u !in a then b[u]
      else if b[u].objectAddress < a[u].objectAddress then b[u] else a[u]
  }

  /** Every entry is filed under its own uid. */
  ghost predicate Filed(people: People) {
    forall u :: u in people ==> people[u].uid == u
  }

  lemma {:induction false} LowestIsFiled(hits: seq<PersonCandidate>)
    ensures Filed(LowestByUid(hits))
  {
    if hits != [] { LowestIsFiled(hits[..|hits| - 1]); }
  }

  /** Scanning on is the same as scanning apart and merging. */
  lemma {:induction false} LowestAppend(a: seq<PersonCandidate>, b: seq<PersonCandidate>)
    ensures LowestByUid(a + b) == Merged(LowestByUid(a), LowestByUid(b))
  {
    LowestIsFiled(a);
    if b == [] {
      assert a + b == a;
    } else {
      var n := |b| - 1;
      LowestAppend(a, b[..n]);
      LowestIsFiled(b[..n]);
      assert (a + b)[..|a + b| - 1] == a + b[..n];
      MergeStep(LowestByUid(a), LowestByUid(b[..n]), b[n]);
    }
  }

  /** Keeping one more candidate commutes with merging. */
  lemma MergeStep(a: People, b: People, c: PersonCandidate)
    ensures KeepLowest(Merged(a, b), c) == Merged(a, KeepLowest(b, c))
  {
  }

  // ---------------------------------------------------------------- first candidate per club address

  type Clubs = map<Word64, ClubCandidate>

  function KeepFirst(clubs: Clubs, c: ClubCandidate): Clubs {
    if c.address in clubs then clubs else clubs[c.address := c]
  }

  ghost function FirstByAddress(hits: seq<ClubCandidate>): Clubs {
    if hits == [] then map[] else KeepFirst(FirstByAddress(hits[..|hits| - 1]), hits[|hits| - 1])
  }

  ghost predicate ClubsFiled(clubs: Clubs) {
    forall a :: a in clubs ==> clubs[a].address == a
  }

  lemma KeepFirstBehind(a: Clubs, b: Clubs, c: ClubCandidate)
    ensures KeepFirst(b + a, c) == KeepFirst(b, c) + a
    ensures ClubsFiled(b) ==> ClubsFiled(KeepFirst(b, c))
  {
  }

  lemma {:induction false} ClubsAppend(a: seq<ClubCandidate>, b: seq<ClubCandidate>)
    ensures FirstByAddress(a + b) == FirstByAddress(b) + FirstByAddress(a)
    ensures ClubsFiled(FirstByAddress(b))
  {
    if b == [] {
      assert a + b == a;
    } else {
      var n := |b| - 1;
      ClubsAppend(a, b[..n]);
      assert (a + b)[..|a + b| - 1] == a + b[..n];
      KeepFirstBehind(FirstByAddress(a), FirstByAddress(b[..n]), b[n]);
      hide KeepFirst, ClubsFiled;
    }
  }

  // ---------------------------------------------------------------- order of first acceptance

  /** The uids in the order in which they were first seen. */
  ghost function FirstUids(hits: seq<PersonCandidate>): seq<Word32> {
    if hits == [] then []
    else
      var rest, last := FirstUids(hits[..|hits| - 1]), hits[|hits| - 1].uid;
      if last in rest then rest else rest + [last]
  }

  ghost function Without(uids: seq<Word32>, known: set<Word32>): seq<Word32> {
    if uids == [] then []
    else
      var rest, last := Without(uids[..|uids| - 1], known), uids[|uids| - 1];
      if last in known then rest else rest + [last]
  }

  lemma {:induction false} FirstUidsAreKeys(hits: seq<PersonCandidate>)
    ensures forall u :: u in FirstUids(hits) <==> u in LowestByUid(hits)
    ensures |FirstUids(hits)| == |LowestByUid(hits)|
    ensures Unique(FirstUids(hits))
  {
    if hits != [] {
      var init, c := hits[..|hits| - 1], hits[|hits| - 1];
      FirstUidsAreKeys(init);
      if c.uid in LowestByUid(init) {
        assert LowestByUid(hits).Keys == LowestByUid(init).Keys;
      } else {
        assert LowestByUid(hits).Keys == LowestByUid(init).Keys + {c.uid};
      }
    }
  }

  ghost predicate Unique<T(!new)>(s: seq<T>) {
    forall i, j :: 0 <= i < j < |s| ==> s[i] != s[j]
  }

  lemma {:induction false} WithoutMembers(uids: seq<Word32>, known: set<Word32>, u: Word32)
    ensures u in Without(uids, known) <==> u in uids && u !in known
  {
    if uids != [] { WithoutMembers(uids[..|uids| - 1], known, u); }
  }

  lemma {:induction false} FirstUidsAppend(a: seq<PersonCandidate>, b: seq<PersonCandidate>)
    ensures FirstUids(a + b) == FirstUids(a) + Without(FirstUids(b), LowestByUid(a).Keys)
  {
    FirstUidsAreKeys(a);
    if b == [] {
      assert a + b == a;
    } else {
      var n := |b| - 1;
      FirstUidsAppend(a, b[..n]);
      assert (a + b)[..|a + b| - 1] == a + b[..n];
      var known, fb, u := LowestByUid(a).Keys, FirstUids(b[..n]), b[n].uid;
      WithoutMembers(fb, known, u);
      if u !in fb {
        assert (fb + [u])[..|fb|] == fb;
      }
    }
  }

  ghost function Samples(uids: seq<Word32>): (samples: seq<Word32>)
    ensures samples <= uids && |samples| <= 16 && (|samples| < 16 ==> samples == uids)
  {
    if |uids| <= SAMPLE_LIMIT then uids else uids[..SAMPLE_LIMIT]
  }

  // ---------------------------------------------------------------- class offset histogram

  type Histogram = map<int, nat>

  function CountOf(h: Histogram, k: int): nat { if k in h then h[k] else 0 }

  ghost function HistogramOf(offsets: seq<int>): Histogram {
    if offsets == [] then map[]
    else
      var h, k := HistogramOf(offsets[..|offsets| - 1]), offsets[|offsets| - 1];
      h[k := CountOf(h, k) + 1]
  }

  function HistogramSum(a: Histogram, b: Histogram): Histogram {
    map k | k in a.Keys + b.Keys :: CountOf(a, k) + CountOf(b, k)
  }

  /** The histogram counts every offset as often as it occurs. */
  lemma {:induction false} HistogramIsMultiplicity(offsets: seq<int>, k: int)
    ensures k in HistogramOf(offsets) <==> k in multiset(offsets)
    ensures CountOf(HistogramOf(offsets), k) == multiset(offsets)[k]
  {
    if offsets != [] {
      var n := |offsets| - 1;
      HistogramIsMultiplicity(offsets[..n], k);
      HistogramIsMultiplicity(offsets[..n], offsets[n]);
      assert offsets == offsets[..n] + [offsets[n]];
    }
  }

  lemma HistogramAppend(a: seq<int>, b: seq<int>)
    ensures HistogramOf(a + b) == HistogramSum(HistogramOf(a), HistogramOf(b))
  {
    var whole, sum := HistogramOf(a + b), HistogramSum(HistogramOf(a), HistogramOf(b));
    assert multiset(a + b) == multiset(a) + multiset(b);
    forall k ensures (k in whole <==> k in sum) && (k in whole ==> whole[k] == sum[k]) {
      HistogramIsMultiplicity(a, k);
      HistogramIsMultiplicity(b, k);
      HistogramIsMultiplicity(a + b, k);
    }
  }
}
