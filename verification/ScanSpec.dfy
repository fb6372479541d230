/**
 What scanning a list of regions observes and accounts for, and the ordered result lists. Sequential and
 parallel scans are both proved against these definitions.
 */
module ScanSpec {
  import opened Wrappers
  import opened BlockReads
  import opened ScanModel
  import opened ScanLedger
  import opened ScanWalk

  /** The bytes a block read leaves for inspection and how much of its unskipped part was readable. */
  datatype Seen = Seen(bytes: seq<Byte>, failed: bool, readable: nat)

  function Zeros(n: nat): seq<Byte> { seq(n, _ => 0) }

  ghost predicate Addressable(b: Block) {
    b.skip <= b.length && b.start + b.length < ADDRESS_SPACE
  }

  /** A read that throws, or reports no exact coverage, or too little to count, leaves only zeros. */
  ghost function SeenIn(reader: Reader, b: Block): (s: Seen)
    requires reader.Sound() && Addressable(b)
    ensures |s.bytes| == b.length && s.readable <= b.length - b.skip
  {
    var start: Word64 := b.start;
    match reader.readBlock(start, b.length)
    case Threw => Seen(Zeros(b.length), true, 0)
    case Returned(r, bytes) =>
      if !r.hasExactCoverage || (b.skip < b.length && b.length > r.requestedBytes) then
        Seen(Zeros(b.length), true, 0)
      else
        CoveredSize(r.ranges, b.skip, b.length);
        Seen(bytes, false, |CoveredIn(r.ranges, b.skip, b.length)|)
  }

  lemma CoveredSize(ranges: seq<Range>, lo: nat, hi: nat)
    requires lo <= hi
    ensures |CoveredIn(ranges, lo, hi)| <= hi - lo
  {
    SubsetSize(CoveredIn(ranges, lo, hi), Interval(lo, hi));
  }

  /** How many headers fit into a block when stepping by eight. */
  function Slots(length: nat, header: nat): nat {
    if length < header then 0 else (length - header) / 8 + 1
  }

  /** The observations at the first `k` positions of a block. */
  ghost function ObserveUpTo(ctx: Context, b: Block, k: nat): (obs: seq<Observation>)
    requires ctx.Valid() && Addressable(b) && k <= Slots(b.length, ctx.layout.HeaderBytes())
    ensures |obs| == k
  {
    if k == 0 then []
    else ObserveUpTo(ctx, b, k - 1) + [ObservationAt(ctx, b, b.start + 8 * (k - 1))]
  }

  /** What is observed at one address that the block inspects. */
  ghost function ObservationAt(ctx: Context, b: Block, address: nat): Observation
    requires ctx.Valid() && Addressable(b) && b.Inspects(ctx.layout.HeaderBytes(), address)
  {
    var local := address - b.start;
    Observe(ctx, address, SeenIn(ctx.reader, b).bytes[local..local + ctx.layout.HeaderBytes()])
  }

  ghost function ObserveBlock(ctx: Context, b: Block): seq<Observation>
    requires ctx.Valid() && Addressable(b)
  {
    ObserveUpTo(ctx, b, Slots(b.length, ctx.layout.HeaderBytes()))
  }

  ghost function BlockQuality(reader: Reader, b: Block): ReadQuality
    requires reader.Sound() && Addressable(b)
  {
    var seen, counted := SeenIn(reader, b), b.length - b.skip;
    ReadQuality(counted, seen.readable, counted - seen.readable, if seen.failed then counted - seen.readable else 0)
  }

  ghost predicate AllAddressable(blocks: seq<Block>) {
    forall b :: b in blocks ==> Addressable(b)
  }

  ghost function ObserveBlocks(ctx: Context, blocks: seq<Block>): seq<Observation>
    requires ctx.Valid() && AllAddressable(blocks)
  {
    if blocks == [] then [] else ObserveBlock(ctx, blocks[0]) + ObserveBlocks(ctx, blocks[1..])
  }

  ghost function BlocksQuality(reader: Reader, blocks: seq<Block>): ReadQuality
    requires reader.Sound() && AllAddressable(blocks)
  {
    if blocks == [] then NO_READS else BlockQuality(reader, blocks[0]).Add(BlocksQuality(reader, blocks[1..]))
  }

  // ---------------------------------------------------------------- regions

  /** A region is skipped when it cannot hold a header, rejected when its bounds make no sense, or walked. */
  datatype Plan = TooSmall | Malformed | Walked(start: Word64, end: Word64)

  function PlanFor(layout: Layout, region: MemoryRegion): Plan
    requires layout.Scannable()
  {
    var header := layout.HeaderBytes();
    if region.size < header then TooSmall
    else
      var end, start := TryAdd(region.baseAddress, region.size), TryAlignUp(region.baseAddress);
      if end.None? || start.None? || start.value > end.value || end.value - start.value < header then Malformed
      else Walked(start.value, end.value)
  }

  ghost function BlocksOf(layout: Layout, region: MemoryRegion): (blocks: seq<Block>)
    requires layout.Scannable()
    ensures AllAddressable(blocks)
  {
    match PlanFor(layout, region)
    case TooSmall => []
    case Malformed => []
    case Walked(start, end) =>
      var blocks := Walk(start, end, layout.HeaderBytes(), layout.Overlap(), false);
      assert AllAddressable(blocks) by {
        forall b | b in blocks ensures Addressable(b) {
          BlocksFit(start, end, layout.HeaderBytes(), layout.Overlap(), false, b);
        }
      }
      blocks
  }

  ghost function Observations(ctx: Context, regions: seq<MemoryRegion>): seq<Observation>
    requires ctx.Valid()
  {
    if regions == [] then []
    else
      var n := |regions| - 1;
      Observations(ctx, regions[..n]) + ObserveBlocks(ctx, BlocksOf(ctx.layout, regions[n]))
  }

  ghost function RejectedRegions(layout: Layout, regions: seq<MemoryRegion>): nat
    requires layout.Scannable()
  {
    if regions == [] then 0
    else
      var n := |regions| - 1;
      RejectedRegions(layout, regions[..n]) + (if PlanFor(layout, regions[n]).Malformed? then 1 else 0)
  }

  ghost function Quality(ctx: Context, regions: seq<MemoryRegion>): ReadQuality
    requires ctx.Valid()
  {
    if regions == [] then NO_READS
    else
      var n := |regions| - 1;
      Quality(ctx, regions[..n]).Add(BlocksQuality(ctx.reader, BlocksOf(ctx.layout, regions[n])))
  }

  /** The ledger of a whole scan. */
  ghost function ScanLedgerOf(ctx: Context, regions: seq<MemoryRegion>): Ledger
    requires ctx.Valid()
  {
    Tabulate(Observations(ctx, regions), RejectedRegions(ctx.layout, regions))
  }

  lemma {:induction false} ObservationsAppend(ctx: Context, a: seq<MemoryRegion>, b: seq<MemoryRegion>)
    requires ctx.Valid()
    ensures Observations(ctx, a + b) == Observations(ctx, a) + Observations(ctx, b)
  {
    hide ObserveBlocks, BlocksOf, Context.Valid;
    if b == [] {
      assert a + b == a;
    } else {
      var n := |b| - 1;
      ObservationsAppend(ctx, a, b[..n]);
      assert (a + b)[..|a + b| - 1] == a + b[..n];
    }
  }

  lemma {:induction false} RejectedAppend(layout: Layout, a: seq<MemoryRegion>, b: seq<MemoryRegion>)
    requires layout.Scannable()
    ensures RejectedRegions(layout, a + b) == RejectedRegions(layout, a) + RejectedRegions(layout, b)
  {
    hide PlanFor;
    if b == [] {
      assert a + b == a;
    } else {
      var n := |b| - 1;
      RejectedAppend(layout, a, b[..n]);
      assert (a + b)[..|a + b| - 1] == a + b[..n];
    }
  }

  lemma {:induction false} QualityAppend(ctx: Context, a: seq<MemoryRegion>, b: seq<MemoryRegion>)
    requires ctx.Valid()
    ensures Quality(ctx, a + b) == Quality(ctx, a).Add(Quality(ctx, b))
  {
    hide BlocksQuality, BlocksOf, Reader.Sound, Layout.Scannable, AllAddressable, ReadQuality.Add;
    if b == [] {
      assert a + b == a;
      AddingQualities(Quality(ctx, a), NO_READS, NO_READS);
    } else {
      var n := |b| - 1;
      QualityAppend(ctx, a, b[..n]);
      QualityLast(ctx, a + b, n + |a|);
      QualityLast(ctx, b, n);
      assert (a + b)[..n + |a|] == a + b[..n];
      AddingQualities(Quality(ctx, a), Quality(ctx, b[..n]), BlocksQuality(ctx.reader, BlocksOf(ctx.layout, b[n])));
    }
  }

  lemma QualityLast(ctx: Context, regions: seq<MemoryRegion>, n: nat)
    requires ctx.Valid() && |regions| == n + 1
    ensures Quality(ctx, regions) ==
                Quality(ctx, regions[..n]).Add(BlocksQuality(ctx.reader, BlocksOf(ctx.layout, regions[n])))
  {
    hide BlocksQuality, BlocksOf, Reader.Sound, Layout.Scannable, AllAddressable, ReadQuality.Add;
  }

  lemma AddingQualities(a: ReadQuality, b: ReadQuality, c: ReadQuality)
    ensures a.Add(b).Add(c) == a.Add(b.Add(c)) && a.Add(NO_READS) == a
  {
  }

  /** A scan of two lists of regions is the merge of two independent scans. */
  lemma LedgerAppend(ctx: Context, a: seq<MemoryRegion>, b: seq<MemoryRegion>)
    requires ctx.Valid()
    ensures ScanLedgerOf(ctx, a + b) == MergeLedgers(ScanLedgerOf(ctx, a), ScanLedgerOf(ctx, b))
    ensures Quality(ctx, a + b) == Quality(ctx, a).Add(Quality(ctx, b))
  {
    hide Observations, RejectedRegions, Quality, Tabulate, MergeLedgers, Reader.Sound, Layout.Scannable, ReadQuality.Add;
    var rejectedA, rejectedB := RejectedRegions(ctx.layout, a), RejectedRegions(ctx.layout, b);
    ObservationsAppend(ctx, a, b);
    RejectedAppend(ctx.layout, a, b);
    QualityAppend(ctx, a, b);
    TabulateAppend(Observations(ctx, a), Observations(ctx, b), rejectedA, rejectedB);
  }

  // ---------------------------------------------------------------- what a scan finds and accounts for

  lemma {:induction false} ObservedInBlock(ctx: Context, b: Block, address: nat, k: nat)
    requires ctx.Valid() && Addressable(b) && b.Inspects(ctx.layout.HeaderBytes(), address)
    requires (address - b.start) / 8 < k <= Slots(b.length, ctx.layout.HeaderBytes())
    ensures ObservationAt(ctx, b, address) in ObserveUpTo(ctx, b, k)
  {
    hide SeenIn, Observe;
    if address != b.start + 8 * (k - 1) {
      ObservedInBlock(ctx, b, address, k - 1);
    }
  }

  lemma {:induction false} ObservedInBlocks(ctx: Context, blocks: seq<Block>, b: Block, o: Observation)
    requires ctx.Valid() && AllAddressable(blocks) && b in blocks && o in ObserveBlock(ctx, b)
    ensures o in ObserveBlocks(ctx, blocks)
  {
    if b != blocks[0] {
      ObservedInBlocks(ctx, blocks[1..], b, o);
    }
  }

  lemma {:induction false} ObservedInRegions(ctx: Context, regions: seq<MemoryRegion>, region: MemoryRegion,
                                             o: Observation)
    requires ctx.Valid() && region in regions && o in ObserveBlocks(ctx, BlocksOf(ctx.layout, region))
    ensures o in Observations(ctx, regions)
  {
    hide BlocksOf, ObserveBlocks, Reader.Sound, Layout.Scannable;
    var n := |regions| - 1;
    assert Observations(ctx, regions) ==
           Observations(ctx, regions[..n]) + ObserveBlocks(ctx, BlocksOf(ctx.layout, regions[n]));
    if region != regions[n] {
      assert region in regions[..n];
      ObservedInRegions(ctx, regions[..n], region, o);
    }
  }

  lemma {:induction false} InspectingBlock(blocks: seq<Block>, header: nat, address: int) returns (b: Block)
    requires VisitCount(blocks, header, address) >= 1
    ensures b in blocks && b.Inspects(header, address)
  {
    if blocks[0].Inspects(header, address) {
      b := blocks[0];
    } else {
      b := InspectingBlock(blocks[1..], header, address);
    }
  }

  /**
   Nothing in a walked region escapes: for every multiple of eight with room for a header, some block of
   the region contains it and what that block shows there is among the scan's observations.
   */
  lemma EveryObjectIsObserved(ctx: Context, regions: seq<MemoryRegion>, region: MemoryRegion, address: nat)
    returns (b: Block)
    requires ctx.Valid() && ctx.layout.HeaderBytes() <= SCAN_BLOCK_SIZE
    requires region in regions && PlanFor(ctx.layout, region).Walked?
    requires address % 8 == 0 && PlanFor(ctx.layout, region).start <= address
    requires address + ctx.layout.HeaderBytes() <= PlanFor(ctx.layout, region).end
    ensures b in BlocksOf(ctx.layout, region) && b.Inspects(ctx.layout.HeaderBytes(), address)
    ensures ObservationAt(ctx, b, address) in Observations(ctx, regions)
  {
    var header := ctx.layout.HeaderBytes();
    var Walked(start, end) := PlanFor(ctx.layout, region);
    EveryHeaderIsInspected(start, end, header, ctx.layout.Overlap(), address);
    b := InspectingBlock(BlocksOf(ctx.layout, region), header, address);
    ObservedInBlock(ctx, b, address, Slots(b.length, header));
    ObservedInBlocks(ctx, BlocksOf(ctx.layout, region), b, ObservationAt(ctx, b, address));
    ObservedInRegions(ctx, regions, region, ObservationAt(ctx, b, address));
  }

  lemma BlockIsAccounted(reader: Reader, b: Block)
    requires reader.Sound() && Addressable(b)
    ensures BlockQuality(reader, b).requested == b.length - b.skip
    ensures BlockQuality(reader, b).Conserved()
  {
    hide SeenIn;
  }

  lemma {:induction false} BlocksAreAccounted(reader: Reader, blocks: seq<Block>)
    requires reader.Sound() && AllAddressable(blocks)
    ensures BlocksQuality(reader, blocks).requested == Accounted(blocks)
    ensures BlocksQuality(reader, blocks).Conserved()
  {
    hide BlockQuality, Reader.Sound;
    if blocks != [] {
      BlockIsAccounted(reader, blocks[0]);
      BlocksAreAccounted(reader, blocks[1..]);
    }
  }

  /** The bytes of the walked regions, each counted once. */
  ghost function RegionBytes(layout: Layout, regions: seq<MemoryRegion>): nat
    requires layout.Scannable()
  {
    if regions == [] then 0
    else
      var n := |regions| - 1;
      RegionBytes(layout, regions[..n]) +
      (match PlanFor(layout, regions[n])
       case Walked(start, end) => end - start
       case _ => 0)
  }

  /** Read quality counts every byte of every walked region once, as readable or as unread. */
  lemma {:induction false} QualityIsConserved(ctx: Context, regions: seq<MemoryRegion>)
    requires ctx.Valid()
    ensures Quality(ctx, regions).Conserved()
    ensures ctx.layout.Overlap() < SCAN_BLOCK_SIZE ==>
              Quality(ctx, regions).requested == RegionBytes(ctx.layout, regions)
  {
    hide BlocksQuality, Walk;
    if regions != [] {
      var n := |regions| - 1;
      QualityIsConserved(ctx, regions[..n]);
      BlocksAreAccounted(ctx.reader, BlocksOf(ctx.layout, regions[n]));
      match PlanFor(ctx.layout, regions[n]) {
        case Walked(start, end) => EveryByteOnce(start, end, ctx.layout.HeaderBytes(), ctx.layout.Overlap());
        case _ =>
      }
    }
  }

  // ---------------------------------------------------------------- genuine candidates

  /** What every kept person is known to be; `ScannedMemory` says what that means for the memory behind the reader. */
  ghost predicate Genuine(ctx: Context, c: PersonCandidate) {
    && IsValidUid(c.uid)
    && FacetOf(ctx.layout, c.classOffset) == Some(c.facet)
    && TrySubtract(c.objectAddress, c.classOffset) == Some(c.blockAddress)
    && var player := c.facet.Player?;
       var caOffset := if player then ctx.layout.currentAbilityOffset else ctx.layout.staffCurrentAbilityOffset;
       var paOffset := if player then ctx.layout.potentialAbilityOffset else ctx.layout.staffPotentialAbilityOffset;
       && AbilityAt(ctx.reader, c.blockAddress, caOffset) == Some(c.ca)
       && AbilityAt(ctx.reader, c.blockAddress, paOffset) == Some(c.pa)
       && (player ==> Includes(ctx.scope, GenderAt(ctx, c.objectAddress)))
  }

  ghost predicate GenuineObservation(ctx: Context, o: Observation) {
    PersonOf(o).Some? ==> Genuine(ctx, PersonOf(o).value)
  }

  lemma ObservationIsGenuine(ctx: Context, address: Word64, header: seq<Byte>)
    requires ctx.layout.Scannable() && |header| == ctx.layout.HeaderBytes()
    ensures GenuineObservation(ctx, Observe(ctx, address, header))
  {
  }

  lemma {:induction false} UpToIsGenuine(ctx: Context, b: Block, k: nat, o: Observation)
    requires ctx.Valid() && Addressable(b) && k <= Slots(b.length, ctx.layout.HeaderBytes())
    requires o in ObserveUpTo(ctx, b, k)
    ensures GenuineObservation(ctx, o)
  {
    hide SeenIn, Observe, GenuineObservation;
    if o in ObserveUpTo(ctx, b, k - 1) {
      UpToIsGenuine(ctx, b, k - 1, o);
    } else {
      var address := b.start + 8 * (k - 1);
      var local := address - b.start;
      ObservationIsGenuine(ctx, address, SeenIn(ctx.reader, b).bytes[local..local + ctx.layout.HeaderBytes()]);
      assert o == ObservationAt(ctx, b, address);
    }
  }

  lemma {:induction false} BlocksAreGenuine(ctx: Context, blocks: seq<Block>, o: Observation)
    requires ctx.Valid() && AllAddressable(blocks) && o in ObserveBlocks(ctx, blocks)
    ensures GenuineObservation(ctx, o)
  {
    if o in ObserveBlock(ctx, blocks[0]) {
      UpToIsGenuine(ctx, blocks[0], Slots(blocks[0].length, ctx.layout.HeaderBytes()), o);
    } else {
      BlocksAreGenuine(ctx, blocks[1..], o);
    }
  }

  lemma {:induction false} ObservationsAreGenuine(ctx: Context, regions: seq<MemoryRegion>, o: Observation)
    requires ctx.Valid() && o in Observations(ctx, regions)
    ensures GenuineObservation(ctx, o)
  {
    var n := |regions| - 1;
    if o in Observations(ctx, regions[..n]) {
      ObservationsAreGenuine(ctx, regions[..n], o);
    } else {
      BlocksAreGenuine(ctx, BlocksOf(ctx.layout, regions[n]), o);
    }
  }

  lemma {:induction false} SelectedFrom<T>(obs: seq<Observation>, f: Observation -> Option<T>, x: T)
    returns (o: Observation)
    requires x in Select(obs, f)
    ensures o in obs && f(o) == Some(x)
  {
    var n := |obs| - 1;
    if f(obs[n]) == Some(x) {
      o := obs[n];
    } else {
      o := SelectedFrom(obs[..n], f, x);
    }
  }

  /** Every player the scan keeps is genuine: its abilities are what the reader gives at its addresses. */
  lemma PlayersAreGenuine(ctx: Context, regions: seq<MemoryRegion>, u: Word32)
    requires ctx.Valid() && u in ScanLedgerOf(ctx, regions).players.people
    ensures var c := ScanLedgerOf(ctx, regions).players.people[u];
            Genuine(ctx, c) && c.uid == u && c.facet.Player?
  {
    var hits := Select(Observations(ctx, regions), PlayerOf);
    var i := WinnerOf(hits, u);
    var o := SelectedFrom(Observations(ctx, regions), PlayerOf, hits[i]);
    ObservationsAreGenuine(ctx, regions, o);
  }

  lemma StaffAreGenuine(ctx: Context, regions: seq<MemoryRegion>, u: Word32)
    requires ctx.Valid() && u in ScanLedgerOf(ctx, regions).staff.people
    ensures var c := ScanLedgerOf(ctx, regions).staff.people[u];
            Genuine(ctx, c) && c.uid == u && !c.facet.Player?
  {
    var hits := Select(Observations(ctx, regions), StaffOf);
    var i := WinnerOf(hits, u);
    var o := SelectedFrom(Observations(ctx, regions), StaffOf, hits[i]);
    ObservationsAreGenuine(ctx, regions, o);
  }
}
