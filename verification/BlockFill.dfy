/**
 Filling a caller's buffer around unreadable pages: a failed read is split and both halves are tried
 again, down to one page. The result is proved against a plain page-by-page read.
 */
module BlockFill {
  import opened Wrappers
  import opened BlockReads

  /** Smallest block a failed read is split down to by default: one page. */
  const MIN_BLOCK_READ_SIZE: nat := 0x1000

  /** How many bytes one direct read of `length` bytes at `address` fills. */
  type Oracle = (nat, nat) -> nat

  function Filled(oracle: Oracle, address: nat, length: nat): (n: nat)
    ensures n <= length
  {
    var filled := oracle(address, length);
    if filled <= length then filled else length
  }

  function Direct(oracle: Oracle, address: nat, length: nat): BlockReadResult {
    FromReadablePrefix(length, Filled(oracle, address, length), true)
  }

  /**
   The process image behind the direct reads. A direct read reports exactly what it copied, but it may
   leave anything in the rest of its slice. When `steady` holds, what it reports is determined by the
   oracle; otherwise two reads of one address may differ.
   */
  class DirectReader {
    const bytes: nat -> Byte
    const oracle: Oracle
    const steady: bool

    constructor (bytes: nat -> Byte, oracle: Oracle, steady: bool)
      ensures this.bytes == bytes && this.oracle == oracle && this.steady == steady
    {
      this.bytes, this.oracle, this.steady := bytes, oracle, steady;
    }

    method Read(address: nat, buffer: array<Byte>, offset: nat, length: nat) returns (r: BlockReadResult)
      requires offset + length <= buffer.Length
      modifies buffer
      ensures r.requestedBytes == length && Faithful(r, bytes, address, buffer[..], offset)
      ensures steady ==> r == Direct(oracle, address, length)
      ensures SameOutside(old(buffer[..]), buffer[..], offset, length)
    {
      var filled := Filled(oracle, address, length);
      if !steady {
        filled :| 0 <= filled <= length;
      }
      r := FromReadablePrefix(length, filled, true);
      forall p ensures r.Valid() && (Covers(r.ranges, p) <==> 0 <= p < filled) {
        PrefixCovers(length, filled, true, p);
      }
      PrefixCovers(length, filled, true, 0);
      var garbage: Byte := *;
      forall i | offset <= i < offset + length {
        buffer[i] := if i - offset < r.readableBytes then bytes(address + (i - offset)) else garbage;
      }
    }
  }

  /** `n` is a whole number of pages. */
  ghost predicate OnPage(n: nat, pageSize: nat)
    requires pageSize >= 1
    decreases n
  {
    n == 0 || (n >= pageSize && OnPage(n - pageSize, pageSize))
  }

  /** The start of the page that position `p` is on, when pages are counted from 0. */
  ghost function PageStart(p: nat, pageSize: nat): (start: nat)
    requires pageSize >= 1
    ensures start <= p < start + pageSize
    decreases p
  {
    if p < pageSize then 0 else pageSize + PageStart(p - pageSize, pageSize)
  }

  lemma {:induction false} PageStartOf(q: nat, r: nat, pageSize: nat)
    requires r < pageSize
    ensures PageStart(q * pageSize + r, pageSize) == q * pageSize
  {
    if q > 0 {
      PageStartOf(q - 1, r, pageSize);
      assert q * pageSize == (q - 1) * pageSize + pageSize;
    }
  }

  /** Page starts are what rounding down by division computes. */
  lemma PageStartByDivision(p: nat, pageSize: nat)
    requires pageSize >= 1
    ensures PageStart(p, pageSize) == (p / pageSize) * pageSize
  {
    var q, r := p / pageSize, p % pageSize;
    QuotientAndRemainder(p, pageSize);
    PageStartOf(q, r, pageSize);
  }

  lemma QuotientAndRemainder(p: nat, m: nat)
    requires m >= 1
    ensures p == (p / m) * m + p % m
  {
  }

  lemma {:induction false} SinglesArePages(n: nat)
    ensures OnPage(n, 1)
  {
    if n > 0 { SinglesArePages(n - 1); }
  }

  /** Where a failed read is split: the page start nearest below the middle, or one page. */
  ghost function SplitPoint(length: nat, minBlockSize: nat): (half: nat)
    requires 1 <= minBlockSize < length
    ensures 0 < half < length
  {
    if minBlockSize == 1 then length / 2
    else if PageStart(length / 2, minBlockSize) > 0 then PageStart(length / 2, minBlockSize)
    else minBlockSize
  }

  lemma {:induction false} PageStartIsOnPage(p: nat, pageSize: nat)
    requires pageSize >= 1
    ensures OnPage(PageStart(p, pageSize), pageSize)
    decreases p
  {
    if p >= pageSize { PageStartIsOnPage(p - pageSize, pageSize); }
  }

  lemma SplitIsOnPage(length: nat, minBlockSize: nat)
    requires 1 <= minBlockSize < length
    ensures OnPage(SplitPoint(length, minBlockSize), minBlockSize)
  {
    if minBlockSize == 1 {
      SinglesArePages(length / 2);
    } else {
      PageStartIsOnPage(length / 2, minBlockSize);
    }
  }

  /** Splits on the last page boundary up to the middle, or behind the first page. */
  method ChooseSplit(length: nat, minBlockSize: nat) returns (half: nat)
    requires 1 <= minBlockSize < length
    ensures half == SplitPoint(length, minBlockSize)
    ensures 0 < half < length && OnPage(half, minBlockSize)
    ensures half <= length / 2 < half + minBlockSize || length / 2 < half == minBlockSize
  {
    SplitIsOnPage(length, minBlockSize);
    half := length / 2;
    if minBlockSize > 1 {
      var aligned := (half / minBlockSize) * minBlockSize;
      PageStartByDivision(half, minBlockSize);
      half := if aligned > 0 then aligned else minBlockSize;
    }
  }

  /** What the subdivision reports for a steady reader. */
  ghost function Subdivided(oracle: Oracle, address: nat, length: nat, minBlockSize: nat): BlockReadResult
    requires minBlockSize >= 1
    decreases length
  {
    if Filled(oracle, address, length) == length || length <= minBlockSize then
      Direct(oracle, address, length)
    else
      var half := SplitPoint(length, minBlockSize);
      Joined(length, Subdivided(oracle, address, half, minBlockSize),
             Subdivided(oracle, address + half, length - half, minBlockSize), half)
  }

  lemma SubdividedBase(oracle: Oracle, address: nat, length: nat, m: nat)
    requires m >= 1 && (Filled(oracle, address, length) == length || length <= m)
    ensures Subdivided(oracle, address, length, m) == Direct(oracle, address, length)
  {
  }

  lemma SubdividedStep(oracle: Oracle, address: nat, length: nat, m: nat, half: nat)
    requires 1 <= m < length && Filled(oracle, address, length) != length && half == SplitPoint(length, m)
    ensures Subdivided(oracle, address, length, m) ==
              Joined(length, Subdivided(oracle, address, half, m),
                     Subdivided(oracle, address + half, length - half, m), half)
  {
  }

  /** Nothing outside the slice changed. */
  ghost predicate SameOutside(before: seq<Byte>, after: seq<Byte>, offset: nat, length: nat) {
    && |before| == |after|
    && forall i :: 0 <= i < |before| && !(offset <= i < offset + length) ==> before[i] == after[i]
  }

  /** Every position the result reports as readable holds the true byte. */
  ghost predicate Faithful(r: BlockReadResult, memory: nat -> Byte, address: nat, buffer: seq<Byte>, offset: nat) {
    && r.Valid()
    && offset + r.requestedBytes <= |buffer|
    && forall p :: 0 <= p < r.requestedBytes && Covers(r.ranges, p) ==> buffer[offset + p] == memory(address + p)
  }

  lemma FaithfulIsValid(r: BlockReadResult, memory: nat -> Byte, address: nat, buffer: seq<Byte>, offset: nat)
    requires Faithful(r, memory, address, buffer, offset)
    ensures r.Valid()
  {
  }

  lemma JoinedIsFaithful(left: BlockReadResult, right: BlockReadResult, memory: nat -> Byte, address: nat,
                         middle: seq<Byte>, buffer: seq<Byte>, offset: nat)
    requires Faithful(left, memory, address, middle, offset)
    requires Faithful(right, memory, address + left.requestedBytes, buffer, offset + left.requestedBytes)
    requires SameOutside(middle, buffer, offset + left.requestedBytes, right.requestedBytes)
    ensures Faithful(Joined(left.requestedBytes + right.requestedBytes, left, right, left.requestedBytes),
                     memory, address, buffer, offset)
  {
    var half, length := left.requestedBytes, left.requestedBytes + right.requestedBytes;
    var r := Joined(length, left, right, half);
    JoinedIsValid(length, left, right, half);
    forall p | 0 <= p < length && Covers(r.ranges, p) ensures buffer[offset + p] == memory(address + p) {
      JoinedCovers(left.ranges, right.ranges, half, p);
      if p < half {
        assert middle[offset + p] == buffer[offset + p];
      } else {
        var k := p - half;
        assert buffer[(offset + half) + k] == memory((address + half) + k);
      }
    }
  }

  lemma DirectIsComplete(oracle: Oracle, address: nat, length: nat)
    ensures Direct(oracle, address, length).IsComplete() <==> Filled(oracle, address, length) == length
  {
  }

  /** Changing two neighbouring slices changes nothing outside the two. */
  lemma SameOutsideBoth(before: seq<Byte>, first: seq<Byte>, middle: seq<Byte>, last: seq<Byte>, offset: nat, half: nat,
                        length: nat)
    requires half <= length && SameOutside(before, first, offset, length)
    requires SameOutside(first, middle, offset, half) && SameOutside(middle, last, offset + half, length - half)
    ensures SameOutside(before, last, offset, length)
  {
  }

  method Fill(reader: DirectReader, address: nat, buffer: array<Byte>, offset: nat, length: nat, minBlockSize: nat)
    returns (r: BlockReadResult)
    requires minBlockSize >= 1 && offset + length <= buffer.Length
    modifies buffer
    ensures r.requestedBytes == length && Faithful(r, reader.bytes, address, buffer[..], offset)
    ensures reader.steady ==> r == Subdivided(reader.oracle, address, length, minBlockSize)
    ensures SameOutside(old(buffer[..]), buffer[..], offset, length)
    decreases length
  {
    hide OnPage, SplitPoint, PageStart, Covers, Joined, Subdivided, Filled, Direct, SameOutside, Faithful;
    ghost var before := buffer[..];
    r := reader.Read(address, buffer, offset, length);
    ghost var first := buffer[..];
    DirectIsComplete(reader.oracle, address, length);
    if r.IsComplete() || length <= minBlockSize {
      if reader.steady {
        SubdividedBase(reader.oracle, address, length, minBlockSize);
      }
      return;
    }
    var half := ChooseSplit(length, minBlockSize);
    var left := Fill(reader, address, buffer, offset, half, minBlockSize);
    ghost var middle := buffer[..];
    var right := Fill(reader, address + half, buffer, offset + half, length - half, minBlockSize);
    SameOutsideBoth(before, first, middle, buffer[..], offset, half, length);
    FaithfulIsValid(left, reader.bytes, address, middle, offset);
    FaithfulIsValid(right, reader.bytes, address + half, buffer[..], offset + half);
    JoinedIsFaithful(left, right, reader.bytes, address, middle, buffer[..], offset);
    if reader.steady {
      SubdividedStep(reader.oracle, address, length, minBlockSize, half);
    }
    r := Combine(length, left, right, half);
  }

  /** The bytes with one span of them zeroed. */
  ghost function Zeroed(bytes: seq<Byte>, from: nat, length: nat): seq<Byte> {
    seq(|bytes|, i requires 0 <= i < |bytes| => if from <= i < from + length then 0 else bytes[i])
  }

  method ClearSpan(buffer: array<Byte>, offset: nat, length: nat)
    requires offset + length <= buffer.Length
    modifies buffer
    ensures buffer[..] == Zeroed(old(buffer[..]), offset, length)
  {
    forall i | offset <= i < offset + length {
      buffer[i] := 0;
    }
  }

  /** Up to a position of the slice, what the ranges do not cover is zeroed; nothing else has changed. */
  ghost predicate ClearedUpTo(now: seq<Byte>, was: seq<Byte>, offset: nat, through: nat, ranges: seq<Range>) {
    && |now| == |was|
    && forall i :: 0 <= i < |was| ==>
         now[i] == if offset <= i < offset + through && !Covers(ranges, i - offset) then 0 else was[i]
  }

  /** Clearing the gap in front of one more range. */
  lemma ClearedPastRange(now: seq<Byte>, was: seq<Byte>, offset: nat, through: nat, ranges: seq<Range>, range: Range)
    requires ClearedUpTo(now, was, offset, through, ranges) && Separated(ranges, through) && through <= range.offset
    ensures ClearedUpTo(Zeroed(now, offset + through, range.offset - through), was, offset,
                        range.offset + range.length, ranges + [range])
  {
    hide Covers, Separated;
    forall i | 0 <= i < |was|
      ensures Zeroed(now, offset + through, range.offset - through)[i] ==
                if offset <= i < offset + range.offset + range.length && !Covers(ranges + [range], i - offset)
                then 0 else was[i]
    {
      CoversAppend(ranges, range, i - offset);
      if Covers(ranges, i - offset) {
        CoversBelow(ranges, through, i - offset);
      }
    }
  }

  /** Clearing behind the last range. */
  lemma ClearedToEnd(now: seq<Byte>, was: seq<Byte>, offset: nat, through: nat, ranges: seq<Range>, length: nat)
    requires ClearedUpTo(now, was, offset, through, ranges) && Separated(ranges, through) && through <= length
    ensures ClearedUpTo(Zeroed(now, offset + through, length - through), was, offset, length, ranges)
  {
    hide Covers, Separated;
    forall i | 0 <= i < |was|
      ensures Zeroed(now, offset + through, length - through)[i] ==
                if offset <= i < offset + length && !Covers(ranges, i - offset) then 0 else was[i]
    {
      if Covers(ranges, i - offset) {
        CoversBelow(ranges, through, i - offset);
      }
    }
  }

  /** Where the ranges before position `n` of the list end. */
  function EndBefore(ranges: seq<Range>, n: nat): nat
    requires n <= |ranges|
  {
    if n == 0 then 0 else ranges[n - 1].offset + ranges[n - 1].length
  }

  lemma NothingCleared(was: seq<Byte>, offset: nat, ranges: seq<Range>)
    ensures ClearedUpTo(was, was, offset, 0, ranges[..0])
    ensures EndBefore(ranges, 0) == 0 && Separated(ranges[..0], 0)
  {
  }

  /** Zeroes the slice from one position up to another, if there is anything between them. */
  method ClearGap(buffer: array<Byte>, offset: nat, from: nat, to: nat)
    requires from <= to && offset + to <= buffer.Length
    modifies buffer
    ensures buffer[..] == Zeroed(old(buffer[..]), offset + from, to - from)
  {
    if to > from {
      ClearSpan(buffer, offset + from, to - from);
    }
  }

  lemma RangesInOrder(ranges: seq<Range>, length: nat, n: nat)
    requires Separated(ranges, length) && n < |ranges|
    ensures EndBefore(ranges, n) <= ranges[n].offset
    ensures EndBefore(ranges, n + 1) == ranges[n].offset + ranges[n].length <= length
    ensures Separated(ranges[..n], EndBefore(ranges, n)) ==> Separated(ranges[..n + 1], EndBefore(ranges, n + 1))
  {
    SeparatedMeans(ranges, length, n);
    if n > 0 {
      SeparatedMeans(ranges, length, n - 1);
    }
    PrefixSeparated(ranges, length, n);
    assert ranges[..n + 1] == ranges[..n] + [ranges[n]];
  }

  /** Zeroes every position of the slice that the result does not report as readable. */
  method ClearUnreadBytes(buffer: array<Byte>, offset: nat, length: nat, r: BlockReadResult)
    requires offset + length <= buffer.Length && r.Valid() && r.requestedBytes == length
    modifies buffer
    ensures ClearedUpTo(buffer[..], old(buffer[..]), offset, length, r.ranges)
  {
    hide Zeroed, ClearedUpTo, Covers, Separated, TotalLength, EndBefore;
    ghost var was := buffer[..];
    NothingCleared(was, offset, r.ranges);
    var clearedThrough: nat := 0;
    for n := 0 to |r.ranges|
      invariant clearedThrough == EndBefore(r.ranges, n) <= length && Separated(r.ranges[..n], clearedThrough)
      invariant ClearedUpTo(buffer[..], was, offset, clearedThrough, r.ranges[..n])
    {
      var range := r.ranges[n];
      RangesInOrder(r.ranges, length, n);
      ClearedPastRange(buffer[..], was, offset, clearedThrough, r.ranges[..n], range);
      assert r.ranges[..n + 1] == r.ranges[..n] + [range];
      ClearGap(buffer, offset, clearedThrough, range.offset);
      clearedThrough := range.offset + range.length;
    }
    assert r.ranges[..|r.ranges|] == r.ranges;
    ClearedToEnd(buffer[..], was, offset, clearedThrough, r.ranges, length);
    ClearGap(buffer, offset, clearedThrough, length);
  }

  /**
   Fills `buffer[offset..offset + length)` from memory. Whatever the reader does, bytes outside the slice
   stay as they were, every position reported readable holds the true byte and every other position of
   the slice is zero.
   */
  method TryFill(reader: DirectReader, address: nat, buffer: array<Byte>, offset: nat, length: nat,
                 minBlockSize: nat := MIN_BLOCK_READ_SIZE)
    returns (complete: bool, r: BlockReadResult)
    requires minBlockSize >= 1 && offset + length <= buffer.Length
    requires address + length <= ADDRESS_SPACE
    modifies buffer
    ensures r.Valid() && r.requestedBytes == length
    ensures complete <==> forall p :: 0 <= p < length ==> Covers(r.ranges, p)
    ensures forall i :: 0 <= i < buffer.Length ==>
              buffer[i] == if !(offset <= i < offset + length) then old(buffer[i])
                           else if Covers(r.ranges, i - offset) then reader.bytes(address + (i - offset))
                           else 0
    ensures reader.steady && length > 0 ==> r == Subdivided(reader.oracle, address, length, minBlockSize)
  {
    if length == 0 {
      r := EMPTY;
      return true, r;
    }
    ClearSpan(buffer, offset, length);
    r := Fill(reader, address, buffer, offset, length, minBlockSize);
    ghost var filled := buffer[..];
    ClearUnreadBytes(buffer, offset, length, r);
    forall i | offset <= i < offset + length && Covers(r.ranges, i - offset)
      ensures buffer[i] == reader.bytes(address + (i - offset))
    {
      var p := i - offset;
      assert filled[offset + p] == reader.bytes(address + p);
    }
    CompleteMeansCovered(r);
    complete := r.IsComplete();
  }

  // ---------------------------------------------------------------- refinement of a page-by-page read

  /** The reference: one direct read per page, in order, the last one possibly short. */
  ghost function PageByPage(oracle: Oracle, address: nat, length: nat, pageSize: nat): BlockReadResult
    requires pageSize >= 1
    decreases length
  {
    if length <= pageSize then
      Direct(oracle, address, length)
    else
      Joined(length, Direct(oracle, address, pageSize),
             PageByPage(oracle, address + pageSize, length - pageSize, pageSize), pageSize)
  }

  /** Whether position `p` is reported by the page-by-page read. */
  ghost predicate PageReaches(oracle: Oracle, address: nat, length: nat, pageSize: nat, p: int)
    requires pageSize >= 1
    decreases length
  {
    if length <= pageSize then 0 <= p < Filled(oracle, address, length)
    else if p < pageSize then 0 <= p < Filled(oracle, address, pageSize)
    else PageReaches(oracle, address + pageSize, length - pageSize, pageSize, p - pageSize)
  }

  /** Whether position `p` is reported by the subdivision. */
  ghost predicate SplitReaches(oracle: Oracle, address: nat, length: nat, pageSize: nat, p: int)
    requires pageSize >= 1
    decreases length
  {
    if Filled(oracle, address, length) == length || length <= pageSize then 0 <= p < Filled(oracle, address, length)
    else
      var half := SplitPoint(length, pageSize);
      if p < half then SplitReaches(oracle, address, half, pageSize, p)
      else SplitReaches(oracle, address + half, length - half, pageSize, p - half)
  }

  lemma PageByPageStep(oracle: Oracle, address: nat, length: nat, pageSize: nat)
    requires pageSize >= 1
    ensures PageByPage(oracle, address, length, pageSize) ==
              if length <= pageSize then Direct(oracle, address, length)
              else Joined(length, Direct(oracle, address, pageSize),
                          PageByPage(oracle, address + pageSize, length - pageSize, pageSize), pageSize)
  {
  }

  lemma {:induction false} PageByPageIsValid(oracle: Oracle, address: nat, length: nat, pageSize: nat)
    requires pageSize >= 1
    ensures var r := PageByPage(oracle, address, length, pageSize); r.Valid() && r.requestedBytes == length
    decreases length
  {
    hide PageByPage, BlockReadResult.Valid, Covers, FromReadablePrefix;
    PageByPageStep(oracle, address, length, pageSize);
    if length <= pageSize {
      PrefixCovers(length, Filled(oracle, address, length), true, 0);
      RequestedIsKept(oracle, address, length);
    } else {
      PrefixCovers(pageSize, Filled(oracle, address, pageSize), true, 0);
      RequestedIsKept(oracle, address, pageSize);
      PageByPageIsValid(oracle, address + pageSize, length - pageSize, pageSize);
      JoinedIsValid(length, Direct(oracle, address, pageSize),
                    PageByPage(oracle, address + pageSize, length - pageSize, pageSize), pageSize);
    }
  }

  lemma {:induction false} PageByPageCovers(oracle: Oracle, address: nat, length: nat, pageSize: nat, p: int)
    requires pageSize >= 1
    ensures Covers(PageByPage(oracle, address, length, pageSize).ranges, p) <==>
              PageReaches(oracle, address, length, pageSize, p)
    decreases length
  {
    hide PageByPage, Covers;
    PageByPageStep(oracle, address, length, pageSize);
    if length <= pageSize {
      PrefixCovers(length, Filled(oracle, address, length), true, p);
    } else {
      PrefixCovers(pageSize, Filled(oracle, address, pageSize), true, p);
      PageByPageCovers(oracle, address + pageSize, length - pageSize, pageSize, p - pageSize);
      JoinedCovers(Direct(oracle, address, pageSize).ranges,
                   PageByPage(oracle, address + pageSize, length - pageSize, pageSize).ranges, pageSize, p);
    }
  }

  lemma {:induction false} SubdividedIsValid(oracle: Oracle, address: nat, length: nat, pageSize: nat)
    requires pageSize >= 1
    ensures var r := Subdivided(oracle, address, length, pageSize); r.Valid() && r.requestedBytes == length
    decreases length
  {
    hide Subdivided, BlockReadResult.Valid, Covers, SplitPoint, FromReadablePrefix;
    if Filled(oracle, address, length) == length || length <= pageSize {
      SubdividedBase(oracle, address, length, pageSize);
      PrefixCovers(length, Filled(oracle, address, length), true, 0);
      RequestedIsKept(oracle, address, length);
    } else {
      var half := SplitPoint(length, pageSize);
      var left := Subdivided(oracle, address, half, pageSize);
      var right := Subdivided(oracle, address + half, length - half, pageSize);
      SubdividedIsValid(oracle, address, half, pageSize);
      SubdividedIsValid(oracle, address + half, length - half, pageSize);
      JoinedIsValid(length, left, right, half);
      SubdividedStep(oracle, address, length, pageSize, half);
    }
  }

  lemma RequestedIsKept(oracle: Oracle, address: nat, length: nat)
    ensures Direct(oracle, address, length).requestedBytes == length
  {
  }

  lemma {:induction false} SubdividedCovers(oracle: Oracle, address: nat, length: nat, pageSize: nat, p: int)
    requires pageSize >= 1
    ensures Covers(Subdivided(oracle, address, length, pageSize).ranges, p) <==>
              SplitReaches(oracle, address, length, pageSize, p)
    decreases length
  {
    hide Subdivided, Covers, SplitPoint;
    if Filled(oracle, address, length) == length || length <= pageSize {
      SubdividedBase(oracle, address, length, pageSize);
      PrefixCovers(length, Filled(oracle, address, length), true, p);
    } else {
      var half := SplitPoint(length, pageSize);
      SubdividedCovers(oracle, address, half, pageSize, p);
      SubdividedCovers(oracle, address + half, length - half, pageSize, p - half);
      SubdividedIsValid(oracle, address, half, pageSize);
      SubdividedStep(oracle, address, length, pageSize, half);
      JoinedCovers(Subdivided(oracle, address, half, pageSize).ranges,
                   Subdivided(oracle, address + half, length - half, pageSize).ranges, half, p);
    }
  }

  ghost predicate SameCoverage(a: BlockReadResult, b: BlockReadResult) {
    && a.readableBytes == b.readableBytes
    && forall p :: Covers(a.ranges, p) <==> Covers(b.ranges, p)
  }

  /** A range that one direct read fills completely has no page that a direct read would not fill. */
  ghost predicate WholeImpliesPages(oracle: Oracle, pageSize: nat)
    requires pageSize >= 1
  {
    forall address: nat, length: nat, p: nat :: Filled(oracle, address, length) == length && p < length ==>
      PageReaches(oracle, address, length, pageSize, p)
  }

  /** A page-by-page read may be cut at any page boundary. */
  lemma {:induction false} CutAtPage(oracle: Oracle, address: nat, length: nat, pageSize: nat, cut: nat, p: int)
    requires pageSize >= 1 && 0 < cut < length && OnPage(cut, pageSize)
    ensures PageReaches(oracle, address, length, pageSize, p) <==>
              if p < cut then PageReaches(oracle, address, cut, pageSize, p)
              else PageReaches(oracle, address + cut, length - cut, pageSize, p - cut)
    decreases cut
  {
    if cut > pageSize && p >= pageSize {
      CutAtPage(oracle, address + pageSize, length - pageSize, pageSize, cut - pageSize, p - pageSize);
      assert (address + pageSize) + (cut - pageSize) == address + cut;
    }
  }

  lemma {:induction false} BeyondTheEnd(oracle: Oracle, address: nat, length: nat, pageSize: nat, p: int)
    requires pageSize >= 1 && !(0 <= p < length)
    ensures !PageReaches(oracle, address, length, pageSize, p)
    decreases length
  {
    if length > pageSize && p >= pageSize {
      BeyondTheEnd(oracle, address + pageSize, length - pageSize, pageSize, p - pageSize);
    }
  }

  /** The subdivision reaches exactly the positions that reading page by page reaches. */
  lemma {:induction false} SubdivisionReachesPages(oracle: Oracle, address: nat, length: nat, pageSize: nat, p: int)
    requires pageSize >= 1 && WholeImpliesPages(oracle, pageSize)
    ensures SplitReaches(oracle, address, length, pageSize, p) <==> PageReaches(oracle, address, length, pageSize, p)
    decreases length
  {
    if Filled(oracle, address, length) == length {
      if !(0 <= p < length) { BeyondTheEnd(oracle, address, length, pageSize, p); }
    } else if length > pageSize {
      var half := SplitPoint(length, pageSize);
      SplitIsOnPage(length, pageSize);
      CutAtPage(oracle, address, length, pageSize, half, p);
      if p < half {
        SubdivisionReachesPages(oracle, address, half, pageSize, p);
      } else {
        SubdivisionReachesPages(oracle, address + half, length - half, pageSize, p - half);
      }
    }
  }

  /** The subdivision reports exactly the bytes that reading page by page reports. */
  lemma SubdivisionRefinesPages(oracle: Oracle, address: nat, length: nat, pageSize: nat)
    requires pageSize >= 1 && WholeImpliesPages(oracle, pageSize)
    ensures SameCoverage(Subdivided(oracle, address, length, pageSize), PageByPage(oracle, address, length, pageSize))
  {
    var fast, plain := Subdivided(oracle, address, length, pageSize), PageByPage(oracle, address, length, pageSize);
    forall p ensures Covers(fast.ranges, p) <==> Covers(plain.ranges, p) {
      SubdividedCovers(oracle, address, length, pageSize, p);
      PageByPageCovers(oracle, address, length, pageSize, p);
      SubdivisionReachesPages(oracle, address, length, pageSize, p);
    }
    SubdividedIsValid(oracle, address, length, pageSize);
    PageByPageIsValid(oracle, address, length, pageSize);
    CoverageIsTotal(fast.ranges, length);
    CoverageIsTotal(plain.ranges, length);
    assert CoveredIn(fast.ranges, 0, length) == CoveredIn(plain.ranges, 0, length);
  }

  /** The refinement holds for every request exactly when no complete read hides an incomplete page. */
  lemma RefinementCondition(oracle: Oracle, pageSize: nat)
    requires pageSize >= 1
    ensures WholeImpliesPages(oracle, pageSize) <==> forall address: nat, length: nat ::
              SameCoverage(Subdivided(oracle, address, length, pageSize), PageByPage(oracle, address, length, pageSize))
  {
    if WholeImpliesPages(oracle, pageSize) {
      forall address: nat, length: nat
        ensures SameCoverage(Subdivided(oracle, address, length, pageSize),
                             PageByPage(oracle, address, length, pageSize))
      {
        SubdivisionRefinesPages(oracle, address, length, pageSize);
      }
    } else {
      var address: nat, length: nat, p: nat :|
        Filled(oracle, address, length) == length && p < length && !PageReaches(oracle, address, length, pageSize, p);
      SubdividedCovers(oracle, address, length, pageSize, p);
      PageByPageCovers(oracle, address, length, pageSize, p);
      assert !SameCoverage(Subdivided(oracle, address, length, pageSize), PageByPage(oracle, address, length, pageSize));
    }
  }

  // ---------------------------------------------------------------- an image with readable and unreadable bytes

  /** How many bytes can be read from `address` before the first unreadable one. */
  ghost function ReadableRun(readable: nat -> bool, address: nat, length: nat): (n: nat)
    ensures n <= length
    ensures forall a :: address <= a < address + n ==> readable(a)
    ensures n < length ==> !readable(address + n)
    decreases length
  {
    if length == 0 || !readable(address) then 0 else 1 + ReadableRun(readable, address + 1, length - 1)
  }

  /** A direct read that copies up to the first unreadable byte. */
  ghost function RunOracle(readable: nat -> bool): Oracle {
    (address, length) => ReadableRun(readable, address, length)
  }

  ghost predicate AllReadable(readable: nat -> bool, first: nat, last: nat) {
    forall a :: first <= a <= last ==> readable(a)
  }

  /** Read page by page, a byte is reached exactly when no byte before it in its own page is unreadable. */
  lemma {:induction false} PagesStopAtHoles(readable: nat -> bool, address: nat, length: nat, pageSize: nat, p: nat)
    requires pageSize >= 1 && p < length
    ensures PageReaches(RunOracle(readable), address, length, pageSize, p) <==>
              AllReadable(readable, address + PageStart(p, pageSize), address + p)
    decreases length
  {
    hide ReadableRun, AllReadable, PageStart;
    if p < pageSize {
      RunStopsAtHole(readable, address, if length <= pageSize then length else pageSize, p);
      StartOfFirstPage(p, pageSize);
    } else {
      PagesStopAtHoles(readable, address + pageSize, length - pageSize, pageSize, p - pageSize);
      StartOfLaterPage(p, pageSize);
      assert address + PageStart(p, pageSize) == address + pageSize + PageStart(p - pageSize, pageSize);
      assert address + pageSize + (p - pageSize) == address + p;
    }
  }

  lemma StartOfFirstPage(p: nat, pageSize: nat)
    requires p < pageSize
    ensures PageStart(p, pageSize) == 0
  {
  }

  lemma StartOfLaterPage(p: nat, pageSize: nat)
    requires 1 <= pageSize <= p
    ensures PageStart(p, pageSize) == pageSize + PageStart(p - pageSize, pageSize)
  {
  }

  lemma RunStopsAtHole(readable: nat -> bool, address: nat, length: nat, p: nat)
    requires p < length
    ensures p < ReadableRun(readable, address, length) <==> AllReadable(readable, address, address + p)
  {
    var n := ReadableRun(readable, address, length);
    assert n <= p ==> !readable(address + n);
  }

  lemma WholeReadIsReadable(readable: nat -> bool, address: nat, length: nat, pageSize: nat, p: nat)
    requires pageSize >= 1 && p < length && Filled(RunOracle(readable), address, length) == length
    ensures AllReadable(readable, address + PageStart(p, pageSize), address + p)
  {
    hide PageStart;
    assert ReadableRun(readable, address, length) == length;
  }

  lemma RunOracleIsConsistent(readable: nat -> bool, pageSize: nat)
    requires pageSize >= 1
    ensures WholeImpliesPages(RunOracle(readable), pageSize)
  {
    hide PageReaches, AllReadable, RunOracle, Filled, PageStart;
    forall address: nat, length: nat, p: nat | Filled(RunOracle(readable), address, length) == length && p < length
      ensures PageReaches(RunOracle(readable), address, length, pageSize, p)
    {
      WholeReadIsReadable(readable, address, length, pageSize, p);
      PagesStopAtHoles(readable, address, length, pageSize, p);
    }
  }

  lemma OnePageReadsAlike(readable: nat -> bool, address: nat, pageSize: nat, p: nat)
    requires pageSize >= 1 && OnPage(address, pageSize)
    requires forall a: nat :: readable(a) == readable(PageStart(a, pageSize))
    ensures AllReadable(readable, address + PageStart(p, pageSize), address + p) <==> readable(address + p)
  {
    hide PageStart, OnPage;
    forall a: nat | address + PageStart(p, pageSize) <= a <= address + p ensures readable(a) == readable(address + p) {
      SamePage(address, a - address, p, pageSize);
    }
  }

  /** When readability is a property of whole pages, a page-aligned fill reports exactly the readable bytes. */
  lemma AlignedFillIsExact(readable: nat -> bool, address: nat, length: nat, pageSize: nat, p: nat)
    requires pageSize >= 1 && p < length
    requires OnPage(address, pageSize)
    requires forall a: nat :: readable(a) == readable(PageStart(a, pageSize))
    ensures Covers(Subdivided(RunOracle(readable), address, length, pageSize).ranges, p) <==> readable(address + p)
  {
    RunOracleIsConsistent(readable, pageSize);
    SubdividedCovers(RunOracle(readable), address, length, pageSize, p);
    SubdivisionReachesPages(RunOracle(readable), address, length, pageSize, p);
    PagesStopAtHoles(readable, address, length, pageSize, p);
    OnePageReadsAlike(readable, address, pageSize, p);
  }

  /** A page-aligned request keeps positions of one page on one page. */
  lemma {:induction false} SamePage(address: nat, k: nat, p: nat, pageSize: nat)
    requires pageSize >= 1 && OnPage(address, pageSize) && PageStart(p, pageSize) <= k <= p
    ensures PageStart(address + k, pageSize) == PageStart(address + p, pageSize)
    decreases address, p
  {
    if address > 0 {
      SamePage(address - pageSize, k, p, pageSize);
      assert address + k - pageSize == address - pageSize + k;
      assert address + p - pageSize == address - pageSize + p;
    } else if p >= pageSize {
      SamePage(0, k - pageSize, p - pageSize, pageSize);
    }
  }
}
