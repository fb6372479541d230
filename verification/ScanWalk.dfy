/**
 The overlapping block windows of one region: which addresses they inspect, how often, and how many
 bytes they account for.
 */
module ScanWalk {
  import opened Wrappers
  import opened BlockReads
  import opened ScanModel
  import opened ScanLedger

  /** One window: `length` bytes read at `start`, of which the first `skip` were already accounted for. */
  datatype Block = Block(start: nat, length: nat, skip: nat)
  {
    /** Inspection goes in steps of eight from the start while a whole header fits. */
    predicate Inspects(header: nat, address: int) {
      start <= address && (address - start) % 8 == 0 && (address - start) + header <= length
    }
  }

  /** Header size and its rounding to the next multiple of eight. */
  predicate Geometry(header: nat, overlap: nat) {
    MIN_OBJECT_HEADER_BYTES <= header <= overlap < header + 8 && overlap % 8 == 0
  }

  /** How far the next block starts behind this one. */
  function Advance(length: nat, overlap: nat): (advance: nat)
    ensures 8 <= advance && (8 <= length ==> advance <= length)
  {
    var step := if length > overlap then length - overlap else 8;
    if step < 8 then 8 else step
  }

  ghost function Walk(start: nat, end: nat, header: nat, overlap: nat, hasPrior: bool): seq<Block>
    requires Geometry(header, overlap) && start <= end
    decreases end - start
  {
    var length := Min(SCAN_BLOCK_SIZE, end - start);
    if end - start < header || length < header then []
    else
      [Block(start, length, if hasPrior then Min(overlap, length) else 0)]
      + Walk(start + Advance(length, overlap), end, header, overlap, true)
  }

  /** A region with room for a header starts with one block, and the walk goes on behind it. */
  lemma WalkStep(start: nat, end: nat, header: nat, overlap: nat, hasPrior: bool)
    requires Geometry(header, overlap) && start + header <= end && header <= SCAN_BLOCK_SIZE
    ensures var length := Min(SCAN_BLOCK_SIZE, end - start);
            var first := Block(start, length, if hasPrior then Min(overlap, length) else 0);
            var blocks := Walk(start, end, header, overlap, hasPrior);
            && blocks == [first] + Walk(start + Advance(length, overlap), end, header, overlap, true)
            && blocks[0] == first && blocks[1..] == Walk(start + Advance(length, overlap), end, header, overlap, true)
  {
  }

  /** How many of the blocks inspect an address. */
  ghost function VisitCount(blocks: seq<Block>, header: nat, address: int): nat {
    if blocks == [] then 0
    else (if blocks[0].Inspects(header, address) then 1 else 0) + VisitCount(blocks[1..], header, address)
  }

  /** The address is a seam: some block after the first starts there. */
  ghost predicate IsSeam(blocks: seq<Block>, address: int) {
    exists i :: 1 <= i < |blocks| && blocks[i].start == address
  }

  lemma SeamTail(blocks: seq<Block>, address: int)
    requires |blocks| >= 1
    ensures IsSeam(blocks, address) <==>
              |blocks| >= 2 && (blocks[1].start == address || IsSeam(blocks[1..], address))
  {
    if IsSeam(blocks, address) {
      var i :| 1 <= i < |blocks| && blocks[i].start == address;
      assert i > 1 ==> blocks[1..][i - 1].start == address;
    }
    if |blocks| >= 2 && IsSeam(blocks[1..], address) {
      var i :| 1 <= i < |blocks[1..]| && blocks[1..][i].start == address;
      assert blocks[i + 1].start == address;
    }
  }

  /** From an aligned block the walk moves on to an aligned one, unless only the overlap is left. */
  lemma NextIsAligned(start: nat, end: nat, overlap: nat)
    requires start % 8 == 0 && overlap % 8 == 0 && start <= end
    ensures var length := Min(SCAN_BLOCK_SIZE, end - start);
            var next := start + Advance(length, overlap);
            next % 8 == 0 || end - next <= overlap
  {
  }

  /** What a walk from `start` makes of an address: how often it inspects it, and whether it is a seam. */
  ghost predicate VisitsAsExpected(blocks: seq<Block>, start: nat, end: nat, header: nat, overlap: nat, a: int) {
    var n := VisitCount(blocks, header, a);
    && (a < start || end < a + header || start % 8 != 0 ==> n == 0)
    && (start % 8 == 0 && start <= a && a + header <= end ==>
          n == if overlap < SCAN_BLOCK_SIZE && IsSeam(blocks, a) then 2 else 1)
    && (IsSeam(blocks, a) ==> start < a && start % 8 == 0)
    && (blocks != [] ==> blocks[0].start == start)
  }

  /** A walk over less than a header makes nothing of any address. */
  lemma EmptyWalkVisits(start: nat, end: nat, header: nat, overlap: nat, a: int)
    requires end - start < header
    ensures VisitsAsExpected([], start, end, header, overlap, a)
  {
  }

  /** An unaligned remainder of at most the overlap is one block and inspects no aligned address. */
  lemma TailVisits(start: nat, end: nat, header: nat, overlap: nat, hasPrior: bool, a: int)
    requires Geometry(header, overlap) && header <= SCAN_BLOCK_SIZE && header <= end - start <= overlap
    requires start % 8 != 0 && a % 8 == 0
    ensures VisitsAsExpected(Walk(start, end, header, overlap, hasPrior), start, end, header, overlap, a)
  {
    var blocks := Walk(start, end, header, overlap, hasPrior);
    SeamTail(blocks, a);
    assert blocks[1..] == Walk(start + 8, end, header, overlap, true) == [];
  }

  /** Visit counts of one walk, for every address that is a multiple of eight. */
  lemma {:induction false} WalkVisits(start: nat, end: nat, header: nat, overlap: nat, hasPrior: bool, a: int)
    requires Geometry(header, overlap) && start <= end && header <= SCAN_BLOCK_SIZE
    requires start % 8 == 0 || end - start <= overlap
    requires a % 8 == 0
    ensures VisitsAsExpected(Walk(start, end, header, overlap, hasPrior), start, end, header, overlap, a)
    decreases end - start
  {
    hide VisitsAsExpected;
    if end - start < header {
      EmptyWalkVisits(start, end, header, overlap, a);
    } else if start % 8 != 0 {
      TailVisits(start, end, header, overlap, hasPrior, a);
    } else {
      NextIsAligned(start, end, overlap);
      WalkVisits(start + Advance(Min(SCAN_BLOCK_SIZE, end - start), overlap), end, header, overlap, true, a);
      AlignedStepVisits(start, end, header, overlap, hasPrior, a);
    }
  }

  lemma AlignedInspects(b: Block, header: nat, a: int)
    requires b.start % 8 == 0 && a % 8 == 0
    ensures b.Inspects(header, a) <==> b.start <= a && a + header <= b.start + b.length
  {
  }

  /** Every aligned address of the rest of a region is in the next block or behind its end, in both only at the seam. */
  lemma BlockOrBehind(start: nat, end: nat, header: nat, overlap: nat, a: int)
    requires Geometry(header, overlap) && header <= SCAN_BLOCK_SIZE && header <= end - start
    requires start % 8 == 0 && a % 8 == 0 && start <= a && a + header <= end
    ensures var length := Min(SCAN_BLOCK_SIZE, end - start);
            var next := start + Advance(length, overlap);
            && (a + header <= start + length || (next <= a && next % 8 == 0))
            && (a + header <= start + length && next <= a && next % 8 == 0 <==> a == next && overlap < SCAN_BLOCK_SIZE)
  {
  }

  /** One aligned block and a walk behind it that does as expected do so together. */
  lemma AlignedStepVisits(start: nat, end: nat, header: nat, overlap: nat, hasPrior: bool, a: int)
    requires Geometry(header, overlap) && header <= SCAN_BLOCK_SIZE && header <= end - start
    requires start % 8 == 0 && a % 8 == 0
    requires var next := start + Advance(Min(SCAN_BLOCK_SIZE, end - start), overlap);
             VisitsAsExpected(Walk(next, end, header, overlap, true), next, end, header, overlap, a)
    ensures VisitsAsExpected(Walk(start, end, header, overlap, hasPrior), start, end, header, overlap, a)
  {
    hide Walk, IsSeam, Block.Inspects;
    var blocks := Walk(start, end, header, overlap, hasPrior);
    var next := start + Advance(Min(SCAN_BLOCK_SIZE, end - start), overlap);
    WalkStep(start, end, header, overlap, hasPrior);
    assert blocks[1..] == Walk(next, end, header, overlap, true);
    SeamTail(blocks, a);
    AlignedInspects(blocks[0], header, a);
    if start <= a && a + header <= end {
      BlockOrBehind(start, end, header, overlap, a);
    }
  }

  /**
   The window walk misses nothing: between the first aligned address and the end of the region every
   multiple of eight with room for a header is inspected once, or twice exactly when it is a seam and
   blocks are longer than their overlap.
   */
  lemma EveryHeaderIsInspected(start: nat, end: nat, header: nat, overlap: nat, a: int)
    requires Geometry(header, overlap) && start % 8 == 0 && start <= end && header <= SCAN_BLOCK_SIZE
    requires a % 8 == 0 && start <= a && a + header <= end
    ensures var blocks := Walk(start, end, header, overlap, false);
            VisitCount(blocks, header, a) == if overlap < SCAN_BLOCK_SIZE && IsSeam(blocks, a) then 2 else 1
  {
    WalkVisits(start, end, header, overlap, false, a);
  }

  /** A header larger than a block is never inspected, so full coverage is exactly a matter of header size. */
  lemma InspectsOnlyIfHeaderFits(start: nat, end: nat, header: nat, overlap: nat)
    requires Geometry(header, overlap) && start % 8 == 0 && start + header <= end
    ensures header <= SCAN_BLOCK_SIZE <==>
              forall a :: a % 8 == 0 && start <= a && a + header <= end ==>
                VisitCount(Walk(start, end, header, overlap, false), header, a) >= 1
  {
    if header <= SCAN_BLOCK_SIZE {
      forall a | a % 8 == 0 && start <= a && a + header <= end
        ensures VisitCount(Walk(start, end, header, overlap, false), header, a) >= 1
      {
        EveryHeaderIsInspected(start, end, header, overlap, a);
      }
    } else {
      assert Walk(start, end, header, overlap, false) == [];
      assert VisitCount([], header, start) == 0;
    }
  }

  /** The length of the block that reaches the end of a region of `n` bytes. */
  ghost function LastLength(n: nat, overlap: nat): nat
    requires overlap < SCAN_BLOCK_SIZE
  {
    if n <= SCAN_BLOCK_SIZE then n else LastLength(n - (SCAN_BLOCK_SIZE - overlap), overlap)
  }

  ghost predicate StartsAligned(blocks: seq<Block>) {
    forall i :: 0 <= i < |blocks| ==> blocks[i].start % 8 == 0
  }

  /** Where the walk goes on behind a full block. */
  lemma NextAfterFullBlock(start: nat, end: nat, overlap: nat)
    requires start % 8 == 0 && overlap % 8 == 0 && overlap < SCAN_BLOCK_SIZE < end - start
    ensures var next := start + Advance(SCAN_BLOCK_SIZE, overlap);
            && next % 8 == 0 && start < next && overlap < end - next
            && LastLength(end - start, overlap) == LastLength(end - next, overlap)
  {
  }

  /** Where it goes on behind a block that reaches the end. */
  lemma NextAfterLastBlock(start: nat, end: nat, overlap: nat)
    requires start % 8 == 0 && overlap % 8 == 0 && start <= end && overlap < SCAN_BLOCK_SIZE
    ensures var next := start + Advance(end - start, overlap);
            && end - next <= overlap && start < next
            && next == (if end - start < overlap + 8 then start + 8 else end - overlap)
            && (next % 8 == 0 <==> end % 8 == 0 || end - start < overlap + 8)
  {
  }

  /**
   Only multiples of eight are inspected unless the region ends off a multiple of eight and its last
   block is long enough to step back from that end.
   */
  lemma {:induction false} AlignedStarts(start: nat, end: nat, header: nat, overlap: nat, hasPrior: bool)
    requires Geometry(header, overlap) && start % 8 == 0 && start + header <= end
    requires overlap < SCAN_BLOCK_SIZE
    ensures StartsAligned(Walk(start, end, header, overlap, hasPrior)) <==>
              end % 8 == 0 || LastLength(end - start, overlap) < overlap + 8
    decreases end - start
  {
    hide StartsAligned, Walk, Advance;
    var length := Min(SCAN_BLOCK_SIZE, end - start);
    var next := start + Advance(length, overlap);
    WalkStep(start, end, header, overlap, hasPrior);
    AlignedFromFirst(Block(start, length, if hasPrior then Min(overlap, length) else 0),
                     Walk(next, end, header, overlap, true));
    if end - start > SCAN_BLOCK_SIZE {
      NextAfterFullBlock(start, end, overlap);
      hide LastLength;
      AlignedStarts(next, end, header, overlap, true);
    } else {
      NextAfterLastBlock(start, end, overlap);
      LastBlocks(next, end, header, overlap);
    }
  }

  lemma AlignedFromFirst(first: Block, rest: seq<Block>)
    requires first.start % 8 == 0
    ensures StartsAligned([first] + rest) <==> StartsAligned(rest)
    ensures StartsAligned([])
    ensures |rest| == 1 ==> (StartsAligned(rest) <==> rest[0].start % 8 == 0)
  {
    var blocks := [first] + rest;
    assert forall i :: 0 <= i < |rest| ==> rest[i] == blocks[i + 1];
    assert forall i :: 1 <= i < |blocks| ==> blocks[i] == rest[i - 1];
  }

  /** Behind a block that reached the end there is at most one more, and it starts where it starts. */
  lemma LastBlocks(next: nat, end: nat, header: nat, overlap: nat)
    requires Geometry(header, overlap) && next <= end && end - next <= overlap < SCAN_BLOCK_SIZE
    ensures var rest := Walk(next, end, header, overlap, true);
            if next + header <= end then |rest| == 1 && rest[0].start == next else rest == []
  {
    if next + header <= end {
      assert Walk(next + 8, end, header, overlap, true) == [];
    }
  }

  // ---------------------------------------------------------------- bytes accounted for

  /** The bytes the blocks account for: each block's length without the part an earlier block covered. */
  ghost function Accounted(blocks: seq<Block>): int {
    if blocks == [] then 0 else (blocks[0].length - blocks[0].skip) + Accounted(blocks[1..])
  }

  lemma AccountedFromFirst(first: Block, rest: seq<Block>)
    ensures Accounted([first] + rest) == first.length - first.skip + Accounted(rest)
  {
    assert ([first] + rest)[1..] == rest;
  }

  /** A block read stays inside the region, covers a header and asks for no more than one buffer. */
  ghost predicate Fits(b: Block, start: nat, end: nat, header: nat) {
    && b.skip <= b.length && header <= b.length <= SCAN_BLOCK_SIZE
    && start <= b.start && b.start + b.length <= end
  }

  lemma {:induction false} BlocksFit(start: nat, end: nat, header: nat, overlap: nat, hasPrior: bool, b: Block)
    requires Geometry(header, overlap) && start <= end
    requires b in Walk(start, end, header, overlap, hasPrior)
    ensures Fits(b, start, end, header)
    decreases end - start
  {
    var length := Min(SCAN_BLOCK_SIZE, end - start);
    if b != Block(start, length, if hasPrior then Min(overlap, length) else 0) {
      BlocksFit(start + Advance(length, overlap), end, header, overlap, true, b);
    }
  }

  lemma {:induction false} AccountedBehindPrior(start: nat, end: nat, header: nat, overlap: nat)
    requires Geometry(header, overlap) && start <= end && header <= SCAN_BLOCK_SIZE
    requires start % 8 == 0 || end - start <= overlap
    ensures Accounted(Walk(start, end, header, overlap, true)) ==
              if overlap < SCAN_BLOCK_SIZE && end - start > overlap then end - start - overlap else 0
    decreases end - start
  {
    var blocks := Walk(start, end, header, overlap, true);
    if end - start >= header {
      var length := Min(SCAN_BLOCK_SIZE, end - start);
      var next := start + Advance(length, overlap);
      assert blocks[1..] == Walk(next, end, header, overlap, true);
      AccountedBehindPrior(next, end, header, overlap);
    }
  }

  /**
   Despite the overlaps every byte of the region is accounted for once. The exceptions are headers that
   fill a whole block: then the blocks behind the first account for nothing.
   */
  lemma EveryByteOnce(start: nat, end: nat, header: nat, overlap: nat)
    requires Geometry(header, overlap) && start % 8 == 0 && start + header <= end
    ensures Accounted(Walk(start, end, header, overlap, false)) ==
              if header > SCAN_BLOCK_SIZE then 0
              else if overlap < SCAN_BLOCK_SIZE then end - start
              else Min(SCAN_BLOCK_SIZE, end - start)
  {
    if header <= SCAN_BLOCK_SIZE {
      var length := Min(SCAN_BLOCK_SIZE, end - start);
      var next := start + Advance(length, overlap);
      WalkStep(start, end, header, overlap, false);
      AccountedFromFirst(Block(start, length, 0), Walk(next, end, header, overlap, true));
      AccountedBehindPrior(next, end, header, overlap);
      hide Walk, Accounted;
    }
  }
}
