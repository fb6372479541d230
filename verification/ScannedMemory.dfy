/**
 What a scan has to do with the memory it scans: everything kept is what memory holds, where it holds it, and
 every person that memory holds in a readable place of a walked region is kept.
 */
module ScannedMemory {
  import opened Wrappers
  import opened BlockReads
  import opened ScanModel
  import opened ScanLedger
  import opened ScanWalk
  import opened ScanSpec
  import opened ProcessMemory
  import opened PersonLayout
  import opened Boosts

  function U64At(image: Image, address: nat): (value: Word64)
    requires Mapped(image, address, 8)
  {
    var low: int, high: int := U32At(image, address), U32At(image, address + 4);
    low + 0x1_0000_0000 * high
  }

  /** Four bytes read as a signed value. */
  function I32At(image: Image, address: nat): int
    requires Mapped(image, address, 4)
  {
    var value: int := U32At(image, address);
    if value >= 0x8000_0000 then value - 0x1_0000_0000 else value
  }

  /** A completed block read holds the true bytes where it reports coverage and zeros elsewhere. */
  ghost predicate ShowsImage(outcome: BlockOutcome, image: Image, address: nat, length: nat) {
    outcome.Returned? && outcome.result.hasExactCoverage && |outcome.bytes| == length ==>
      forall p :: 0 <= p < length ==>
        if Covers(outcome.result.ranges, p) then address + p in image && outcome.bytes[p] == image[address + p]
        else outcome.bytes[p] == 0
  }

  /** Whatever the reader returns is true of this memory image; any read may fail. */
  ghost predicate ReadsImage(reader: Reader, image: Image) {
    && reader.Sound()
    && (forall a: Word64, n: nat :: ShowsImage(reader.readBlock(a, n), image, a, n))
    && (forall a: Word64 :: reader.readByte(a).Some? ==> a in image && reader.readByte(a).value == image[a])
    && (forall a: Word64 :: reader.readUInt16(a).Some? ==>
          Mapped(image, a, 2) && reader.readUInt16(a).value == U16At(image, a))
    && (forall a: Word64 :: reader.readInt32(a).Some? ==>
          Mapped(image, a, 4) && reader.readInt32(a).value == I32At(image, a))
    && (forall a: Word64 :: reader.readUInt64(a).Some? ==>
          Mapped(image, a, 8) && reader.readUInt64(a).value == U64At(image, a))
  }

  /** The scanner and the boosts look for uid and abilities in the same places. */
  predicate SameOffsets(scan: Layout, layout: MutationLayout) {
    && scan.objectUidOffset == layout.objectUidOffset
    && scan.currentAbilityOffset == layout.currentAbilityOffset
    && scan.potentialAbilityOffset == layout.potentialAbilityOffset
    && scan.staffCurrentAbilityOffset == layout.staffCurrentAbilityOffset
    && scan.staffPotentialAbilityOffset == layout.staffPotentialAbilityOffset
  }

  /** Whatever object has one of the scanned classes keeps its own values apart. */
  ghost predicate KeepsRecordsApart(scan: Layout, layout: MutationLayout) {
    forall c: PersonCandidate ::
      HasScannedClass(scan, c) ==> KeepsOwnApart(layout, c)
  }

  predicate HasScannedClass(scan: Layout, c: PersonCandidate) {
    && FacetOf(scan, c.classOffset) == Some(c.facet)
    && TrySubtract(c.objectAddress, c.classOffset) == Some(c.blockAddress)
  }

  /** The scanner's view of the one layout the bridge ships. */
  predicate IsPinned(scan: Layout) {
    && SameOffsets(scan, FM_26_3)
    && scan.playerClassOffsets == FM_26_3_PLAYER_CLASS_OFFSETS
    && scan.staffClassOffsets == FM_26_3_STAFF_CLASS_OFFSETS
    && scan.humanManagerClassOffsets == FM_26_3_MANAGER_CLASS_OFFSETS
  }

  lemma PinnedScanKeepsRecordsApart(scan: Layout)
    requires IsPinned(scan)
    ensures KeepsRecordsApart(scan, FM_26_3)
  {
    forall c: PersonCandidate | HasScannedClass(scan, c) ensures KeepsOwnApart(FM_26_3, c) {
      PinnedLayoutKeepsRecordsApart(c);
    }
  }

  /** The abilities of everyone a scan keeps are those that memory holds for that person. */
  lemma GenuineHoldsAbilities(ctx: Context, image: Image, layout: MutationLayout, c: PersonCandidate)
    requires ReadsImage(ctx.reader, image) && SameOffsets(ctx.layout, layout) && Genuine(ctx, c)
    ensures HoldsAbilities(image, layout, c, c.ca, c.pa) && IsValidAbility(c.ca) && IsValidAbility(c.pa)
  {
    hide GenderAt, Reader.Sound, ShowsImage;
  }

  // ---------------------------------------------------------------- where a kept person was seen

  /** The block inspects the person's address, and what it shows there is that person. */
  ghost predicate ShownBy(ctx: Context, b: Block, c: PersonCandidate)
    requires ctx.Valid() && Addressable(b)
  {
    && b.Inspects(ctx.layout.HeaderBytes(), c.objectAddress)
    && ObservationAt(ctx, b, c.objectAddress) == Object(c.classOffset, Verdict.Person(c))
  }

  lemma {:induction false} ShownInBlock(ctx: Context, b: Block, k: nat, o: Observation, c: PersonCandidate)
    requires ctx.Valid() && Addressable(b) && k <= Slots(b.length, ctx.layout.HeaderBytes())
    requires o in ObserveUpTo(ctx, b, k) && PersonOf(o) == Some(c)
    ensures ShownBy(ctx, b, c)
  {
    hide SeenIn, Observe;
    if o in ObserveUpTo(ctx, b, k - 1) {
      ShownInBlock(ctx, b, k - 1, o, c);
    } else {
      var address := b.start + 8 * (k - 1);
      assert o == ObservationAt(ctx, b, address);
      ObservedIsThere(ctx, b, address, c);
    }
  }

  lemma ObservedIsThere(ctx: Context, b: Block, address: nat, c: PersonCandidate)
    requires ctx.Valid() && Addressable(b) && b.Inspects(ctx.layout.HeaderBytes(), address)
    requires PersonOf(ObservationAt(ctx, b, address)) == Some(c)
    ensures c.objectAddress == address && ObservationAt(ctx, b, address) == Object(c.classOffset, Verdict.Person(c))
  {
    hide SeenIn, ResolveClassOffset, UInt32At, UInt64At, IsModuleVtable;
  }

  lemma {:induction false} ShownInBlocks(ctx: Context, blocks: seq<Block>, o: Observation, c: PersonCandidate)
    returns (b: Block)
    requires ctx.Valid() && AllAddressable(blocks) && o in ObserveBlocks(ctx, blocks) && PersonOf(o) == Some(c)
    ensures b in blocks && ShownBy(ctx, b, c)
  {
    hide ShownBy;
    b := blocks[0];
    if o in ObserveBlock(ctx, b) {
      ShownInBlock(ctx, b, Slots(b.length, ctx.layout.HeaderBytes()), o, c);
    } else {
      b := ShownInBlocks(ctx, blocks[1..], o, c);
    }
  }

  lemma {:induction false} ShownInRegions(ctx: Context, regions: seq<MemoryRegion>, o: Observation, c: PersonCandidate)
    returns (region: MemoryRegion, b: Block)
    requires ctx.Valid() && o in Observations(ctx, regions) && PersonOf(o) == Some(c)
    ensures region in regions && b in BlocksOf(ctx.layout, region) && ShownBy(ctx, b, c)
  {
    hide ShownBy, BlocksOf, ObserveBlocks;
    var n := |regions| - 1;
    if o in Observations(ctx, regions[..n]) {
      region, b := ShownInRegions(ctx, regions[..n], o, c);
    } else {
      region := regions[n];
      b := ShownInBlocks(ctx, BlocksOf(ctx.layout, region), o, c);
    }
  }

  /** The scan keeps this person, as a player or as staff. */
  ghost predicate Keeps(ctx: Context, regions: seq<MemoryRegion>, c: PersonCandidate)
    requires ctx.Valid()
  {
    var l := ScanLedgerOf(ctx, regions);
    || (c.uid in l.players.people && l.players.people[c.uid] == c)
    || (c.uid in l.staff.people && l.staff.people[c.uid] == c)
  }

  lemma KeptWasObserved(ctx: Context, regions: seq<MemoryRegion>, c: PersonCandidate) returns (o: Observation)
    requires ctx.Valid() && Keeps(ctx, regions, c)
    ensures o in Observations(ctx, regions) && PersonOf(o) == Some(c)
  {
    var obs, l := Observations(ctx, regions), ScanLedgerOf(ctx, regions);
    hide Observations;
    if c.uid in l.players.people && l.players.people[c.uid] == c {
      var i := WinnerOf(Select(obs, PlayerOf), c.uid);
      o := SelectedFrom(obs, PlayerOf, c);
    } else {
      var i := WinnerOf(Select(obs, StaffOf), c.uid);
      o := SelectedFrom(obs, StaffOf, c);
    }
  }

  /** All bytes of the header at an address were covered by the block read. */
  ghost predicate HeaderCovered(reader: Reader, b: Block, header: nat, address: nat)
    requires Addressable(b)
  {
    var start: Word64 := b.start;
    var outcome := reader.readBlock(start, b.length);
    && outcome.Returned? && outcome.result.hasExactCoverage && b.length <= outcome.result.requestedBytes
    && forall p :: address - b.start <= p < address - b.start + header ==> Covers(outcome.result.ranges, p)
  }

  /** Where its header was covered, a block shows what memory holds. */
  lemma CoveredShowsMemory(reader: Reader, image: Image, b: Block, header: nat, address: nat)
    requires ReadsImage(reader, image) && Addressable(b) && b.Inspects(header, address)
    requires HeaderCovered(reader, b, header, address)
    ensures Mapped(image, address, header)
    ensures SeenIn(reader, b).bytes[address - b.start..address - b.start + header] == Get(image, address, header)
  {
    var start: Word64 := b.start;
    var outcome := reader.readBlock(start, b.length);
    assert ShowsImage(outcome, image, start, b.length);
    assert SeenIn(reader, b).bytes == outcome.bytes;
    hide ReadsImage, SeenIn, Reader.Sound;
    CoveredIsMapped(outcome, image, b.start, b.length, address - b.start, header);
  }

  lemma CoveredIsMapped(outcome: BlockOutcome, image: Image, start: nat, length: nat, local: nat, header: nat)
    requires ShowsImage(outcome, image, start, length) && outcome.Returned? && outcome.result.hasExactCoverage
    requires |outcome.bytes| == length && local + header <= length
    requires forall p :: local <= p < local + header ==> Covers(outcome.result.ranges, p)
    ensures Mapped(image, start + local, header)
    ensures outcome.bytes[local..local + header] == Get(image, start + local, header)
  {
    hide Covers;
    forall k | start + local <= k < start + local + header ensures k in image && outcome.bytes[k - start] == image[k] {
      assert Covers(outcome.result.ranges, k - start);
    }
  }

  /** An inspected address lies in the walked part of its region, on a multiple of eight if the region ends on one. */
  lemma InspectedIsInside(start: nat, end: nat, header: nat, overlap: nat, b: Block, address: nat)
    requires Geometry(header, overlap) && start % 8 == 0 && start + header <= end
    requires b in Walk(start, end, header, overlap, false) && b.Inspects(header, address)
    ensures start <= address && address + header <= end
    ensures end % 8 == 0 && overlap < SCAN_BLOCK_SIZE ==> address % 8 == 0
  {
    BlocksFit(start, end, header, overlap, false, b);
    if end % 8 == 0 && overlap < SCAN_BLOCK_SIZE {
      AlignedStarts(start, end, header, overlap, false);
      hide Walk;
      var i :| 0 <= i < |Walk(start, end, header, overlap, false)| && Walk(start, end, header, overlap, false)[i] == b;
      assert b.start % 8 == 0;
    }
  }

  lemma WordIsMemory(image: Image, address: nat, header: nat, offset: nat)
    requires Mapped(image, address, header) && offset + 4 <= header
    ensures Mapped(image, address + offset, 4)
    ensures UInt32At(Get(image, address, header), offset) == U32At(image, address + offset)
  {
    var bytes := Get(image, address, header);
    assert bytes[offset] == image[address + offset] && bytes[offset + 1] == image[address + offset + 1];
    assert bytes[offset + 2] == image[address + offset + 2] && bytes[offset + 3] == image[address + offset + 3];
  }

  lemma HeaderIsMemory(image: Image, address: nat, header: nat, uidOffset: nat)
    requires Mapped(image, address, header) && 16 <= header && uidOffset + 4 <= header
    ensures Mapped(image, address, 8) && UInt64At(Get(image, address, header), 0) == U64At(image, address)
    ensures Mapped(image, address + uidOffset, 4)
    ensures UInt32At(Get(image, address, header), uidOffset) == U32At(image, address + uidOffset)
  {
    hide UInt32At, U32At;
    WordIsMemory(image, address, header, 0);
    WordIsMemory(image, address, header, 4);
    WordIsMemory(image, address, header, uidOffset);
  }

  /** The class offset behind a vtable, as memory holds it: `*(int*)(*(vtable - 8) + 4)`. */
  ghost predicate HasClassOffset(image: Image, vtable: Word64, classOffset: int) {
    && vtable >= 8 && Mapped(image, vtable - 8, 8)
    && var meta := U64At(image, vtable - 8);
       Mapped(image, meta + 4, 4) && I32At(image, meta + 4) == classOffset
  }

  lemma ResolvedIsMemory(reader: Reader, image: Image, vtable: Word64)
    requires ReadsImage(reader, image) && ResolveClassOffset(reader, vtable) != 0
    ensures HasClassOffset(image, vtable, ResolveClassOffset(reader, vtable))
  {
    hide ShowsImage, Reader.Sound, U64At, I32At;
  }

  /** Memory holds at the person's address an object of its class and of its uid. */
  ghost predicate IsThere(ctx: Context, image: Image, c: PersonCandidate) {
    && ctx.layout.Scannable() && Mapped(image, c.objectAddress, ctx.layout.HeaderBytes())
    && var vtable := U64At(image, c.objectAddress);
       && IsModuleVtable(ctx, vtable) && HasClassOffset(image, vtable, c.classOffset)
       && U32At(image, c.objectAddress + ctx.layout.objectUidOffset) == c.uid
  }

  /**
   Everyone a scan keeps was seen in a walked region, and is what memory holds there: an object with a vtable
   of the game's modules, of that person's class and uid, unless the block read left gaps in its header.
   */
  lemma KeptIsThere(ctx: Context, image: Image, regions: seq<MemoryRegion>, c: PersonCandidate)
    returns (region: MemoryRegion, b: Block)
    requires ctx.Valid() && ReadsImage(ctx.reader, image) && Keeps(ctx, regions, c)
    ensures region in regions && b in BlocksOf(ctx.layout, region) && ShownBy(ctx, b, c)
    ensures var plan := PlanFor(ctx.layout, region);
            && plan.Walked?
            && plan.start <= c.objectAddress && c.objectAddress + ctx.layout.HeaderBytes() <= plan.end
            && (plan.end % 8 == 0 && ctx.layout.Overlap() < SCAN_BLOCK_SIZE ==> c.objectAddress % 8 == 0)
    ensures HeaderCovered(ctx.reader, b, ctx.layout.HeaderBytes(), c.objectAddress) ==> IsThere(ctx, image, c)
  {
    hide Keeps, ReadsImage, IsThere, Observations, ObservationAt, HeaderCovered;
    var o := KeptWasObserved(ctx, regions, c);
    region, b := ShownInRegions(ctx, regions, o, c);
    var Walked(start, end) := PlanFor(ctx.layout, region);
    InspectedIsInside(start, end, ctx.layout.HeaderBytes(), ctx.layout.Overlap(), b, c.objectAddress);
    if HeaderCovered(ctx.reader, b, ctx.layout.HeaderBytes(), c.objectAddress) {
      ShownIsThere(ctx, image, b, c);
    }
  }

  lemma ShownIsThere(ctx: Context, image: Image, b: Block, c: PersonCandidate)
    requires ctx.Valid() && ReadsImage(ctx.reader, image) && Addressable(b) && ShownBy(ctx, b, c)
    requires HeaderCovered(ctx.reader, b, ctx.layout.HeaderBytes(), c.objectAddress)
    ensures IsThere(ctx, image, c)
  {
    hide SeenIn, HeaderCovered, HasClassOffset, ResolveClassOffset, U64At, U32At, UInt32At, UInt64At, ReadsImage;
    var header, address := ctx.layout.HeaderBytes(), c.objectAddress;
    CoveredShowsMemory(ctx.reader, image, b, header, address);
    HeaderIsMemory(image, address, header, ctx.layout.objectUidOffset);
    var vtable := U64At(image, address);
    assert ResolveClassOffset(ctx.reader, vtable) == c.classOffset != 0;
    ResolvedIsMemory(ctx.reader, image, vtable);
  }

  // ---------------------------------------------------------------- who is found

  lemma {:induction false} SelectedIsIn<T>(obs: seq<Observation>, f: Observation -> Option<T>, o: Observation, x: T)
    requires o in obs && f(o) == Some(x)
    ensures x in Select(obs, f)
  {
    var n := |obs| - 1;
    if f(obs[n]) != Some(x) {
      SelectedIsIn(obs[..n], f, o, x);
    }
  }

  lemma LowestIsNoHigher(hits: seq<PersonCandidate>, c: PersonCandidate)
    requires c in hits
    ensures c.uid in LowestByUid(hits) && LowestByUid(hits)[c.uid].objectAddress <= c.objectAddress
  {
    HitsAreKept(hits);
    var i := WinnerOf(hits, c.uid);
  }

  /** Every block that inspects the address had its header covered. */
  ghost predicate Readable(ctx: Context, region: MemoryRegion, address: nat)
    requires ctx.Valid()
  {
    forall b :: b in BlocksOf(ctx.layout, region) && b.Inspects(ctx.layout.HeaderBytes(), address) ==>
      HeaderCovered(ctx.reader, b, ctx.layout.HeaderBytes(), address)
  }

  /**
   Nobody readable is missed: whoever memory holds at a multiple of eight in a walked region, with a header
   that the block reads covered, is in the result with its uid, at that address or a lower one.
   */
  lemma ReadablePersonIsFound(ctx: Context, image: Image, regions: seq<MemoryRegion>, region: MemoryRegion,
                              address: Word64, c: PersonCandidate)
    requires ctx.Valid() && ctx.layout.HeaderBytes() <= SCAN_BLOCK_SIZE && ReadsImage(ctx.reader, image)
    requires region in regions && PlanFor(ctx.layout, region).Walked?
    requires address % 8 == 0 && PlanFor(ctx.layout, region).start <= address
    requires address + ctx.layout.HeaderBytes() <= PlanFor(ctx.layout, region).end
    requires Readable(ctx, region, address) && Mapped(image, address, ctx.layout.HeaderBytes())
    requires PersonOf(Observe(ctx, address, Get(image, address, ctx.layout.HeaderBytes()))) == Some(c)
    ensures var l := ScanLedgerOf(ctx, regions);
            if c.facet.Player?
            then c.uid in l.players.people && l.players.people[c.uid].objectAddress <= address
            else c.uid in l.staff.people && l.staff.people[c.uid].objectAddress <= address
  {
    hide SeenIn, Observe, Observations, HeaderCovered, ReadsImage, PlanFor, BlocksOf, LowestByUid, Select;
    var b := EveryObjectIsObserved(ctx, regions, region, address);
    CoveredShowsMemory(ctx.reader, image, b, ctx.layout.HeaderBytes(), address);
    var o := ObservationAt(ctx, b, address);
    ObservedIsThere(ctx, b, address, c);
    if c.facet.Player? {
      SelectedIsIn(Observations(ctx, regions), PlayerOf, o, c);
      LowestIsNoHigher(Select(Observations(ctx, regions), PlayerOf), c);
    } else {
      SelectedIsIn(Observations(ctx, regions), StaffOf, o, c);
      LowestIsNoHigher(Select(Observations(ctx, regions), StaffOf), c);
    }
  }
}
