/** The exact readable coverage of one block read: ranges of readable bytes, their counts and their construction. */
module BlockReads {
  import opened Wrappers

  datatype Range = Range(offset: nat, length: nat)
  {
    predicate Contains(p: int) { offset <= p < offset + length }
  }

  /** The sum of the lengths of all ranges. */
  ghost function TotalLength(ranges: seq<Range>): nat {
    if ranges == [] then 0 else TotalLength(ranges[..|ranges| - 1]) + ranges[|ranges| - 1].length
  }

  /** Ranges are non-empty, in ascending order, pairwise disjoint and inside `[0, limit)`. */
  ghost predicate Separated(ranges: seq<Range>, limit: nat) {
    ranges == [] ||
    var last := ranges[|ranges| - 1];
    0 < last.length && last.offset + last.length <= limit && Separated(ranges[..|ranges| - 1], last.offset)
  }

  /** What `Separated` means for any range, and for any two. */
  lemma {:induction false} SeparatedMeans(ranges: seq<Range>, limit: nat, i: nat)
    requires Separated(ranges, limit) && i < |ranges|
    ensures 0 < ranges[i].length && ranges[i].offset + ranges[i].length <= limit
    ensures forall j :: i < j < |ranges| ==> ranges[i].offset + ranges[i].length <= ranges[j].offset
  {
    var n := |ranges| - 1;
    if i < n {
      SeparatedMeans(ranges[..n], ranges[n].offset, i);
      forall j | i < j < |ranges| ensures ranges[i].offset + ranges[i].length <= ranges[j].offset {
        if j < n { assert ranges[..n][j] == ranges[j]; }
      }
    }
  }

  lemma {:induction false} PrefixSeparated(ranges: seq<Range>, limit: nat, n: nat)
    requires Separated(ranges, limit) && n < |ranges|
    ensures Separated(ranges[..n], ranges[n].offset)
  {
    if n < |ranges| - 1 {
      PrefixSeparated(ranges[..|ranges| - 1], ranges[|ranges| - 1].offset, n);
      assert ranges[..|ranges| - 1][..n] == ranges[..n];
    }
  }

  /** A larger limit is weaker. */
  lemma SeparatedWeaken(ranges: seq<Range>, limit: nat, larger: nat)
    requires Separated(ranges, limit) && limit <= larger
    ensures Separated(ranges, larger)
  {
  }

  ghost predicate Covers(ranges: seq<Range>, p: int) {
    exists i :: 0 <= i < |ranges| && ranges[i].Contains(p)
  }

  /** The covered positions of the window `[lo, hi)`. */
  ghost function CoveredIn(ranges: seq<Range>, lo: int, hi: int): set<int> {
    set p | lo <= p < hi && Covers(ranges, p)
  }

  datatype BlockReadResult = BlockReadResult(
    requestedBytes: nat,
    ranges: seq<Range>,
    readableBytes: nat,
    hasExactCoverage: bool)
  {
    predicate IsComplete() { readableBytes == requestedBytes }

    /** What every constructor of a result establishes. */
    ghost predicate Valid() {
      && Separated(ranges, requestedBytes)
      && TotalLength(ranges) == readableBytes
    }
  }

  const EMPTY: BlockReadResult := BlockReadResult(0, [], 0, true)

  // ---------------------------------------------------------------- counting covered positions

  ghost function Interval(lo: int, hi: int): (r: set<int>)
    ensures forall p :: p in r <==> lo <= p < hi
    ensures |r| == if lo <= hi then hi - lo else 0
    decreases hi - lo
  {
    if lo < hi then Interval(lo, hi - 1) + {hi - 1} else {}
  }

  lemma SubsetSize<T>(small: set<T>, large: set<T>)
    requires small <= large
    ensures |small| <= |large|
    ensures |small| == |large| ==> small == large
  {
    assert large == small + (large - small);
    assert |large| == |small| + |large - small|;
  }

  /** The overlap of one range with a window, as the counting loop computes it. */
  function Overlap(range: Range, lo: nat, hi: nat): nat {
    var start := if lo >= range.offset then lo else range.offset;
    var end := if hi <= range.offset + range.length then hi else range.offset + range.length;
    if end > start then end - start else 0
  }

  lemma CoversAppend(ranges: seq<Range>, range: Range, p: int)
    ensures Covers(ranges + [range], p) <==> Covers(ranges, p) || range.Contains(p)
  {
    var all := ranges + [range];
    if Covers(ranges, p) {
      var i :| 0 <= i < |ranges| && ranges[i].Contains(p);
      assert all[i].Contains(p);
    }
    if range.Contains(p) { assert all[|ranges|].Contains(p); }
    if Covers(all, p) {
      var i :| 0 <= i < |all| && all[i].Contains(p);
      assert i < |ranges| ==> ranges[i].Contains(p);
    }
  }

  /** The part of a range that lies in a window. */
  ghost function Clip(range: Range, lo: int, hi: int): set<int> {
    Interval(if lo >= range.offset then lo else range.offset,
             if hi <= range.offset + range.length then hi else range.offset + range.length)
  }

  lemma ClipSize(range: Range, lo: nat, hi: nat)
    ensures |Clip(range, lo, hi)| == Overlap(range, lo, hi)
  {
  }

  lemma DisjointSizes<T>(a: set<T>, b: set<T>)
    requires a !! b
    ensures |a + b| == |a| + |b|
  {
  }

  lemma ClipDisjoint(ranges: seq<Range>, next: Range, lo: int, hi: int)
    requires Separated(ranges, next.offset)
    ensures CoveredIn(ranges, lo, hi) !! Clip(next, lo, hi)
  {
    forall p | p in CoveredIn(ranges, lo, hi) ensures p < next.offset {
      CoversBelow(ranges, next.offset, p);
    }
  }

  lemma CoversBelow(ranges: seq<Range>, limit: nat, p: int)
    requires Separated(ranges, limit) && Covers(ranges, p)
    ensures 0 <= p < limit
  {
    var i :| 0 <= i < |ranges| && ranges[i].Contains(p);
    SeparatedMeans(ranges, limit, i);
  }

  lemma ClipUnion(ranges: seq<Range>, range: Range, lo: int, hi: int)
    ensures CoveredIn(ranges + [range], lo, hi) == CoveredIn(ranges, lo, hi) + Clip(range, lo, hi)
  {
    forall p ensures p in CoveredIn(ranges + [range], lo, hi) <==> p in CoveredIn(ranges, lo, hi) + Clip(range, lo, hi) {
      CoversAppend(ranges, range, p);
    }
  }

  /** Adding one more range adds exactly its overlap with the window to the number of covered positions. */
  lemma OneMoreRange(ranges: seq<Range>, next: Range, lo: nat, hi: nat)
    requires Separated(ranges, next.offset)
    ensures |CoveredIn(ranges + [next], lo, hi)| == |CoveredIn(ranges, lo, hi)| + Overlap(next, lo, hi)
  {
    ClipDisjoint(ranges, next, lo, hi);
    ClipUnion(ranges, next, lo, hi);
    DisjointSizes(CoveredIn(ranges, lo, hi), Clip(next, lo, hi));
    ClipSize(next, lo, hi);
  }

  /** Widening the window beyond the limit covers nothing new. */
  lemma WindowBeyondLimit(ranges: seq<Range>, limit: nat, hi: nat)
    requires Separated(ranges, limit) && limit <= hi
    ensures CoveredIn(ranges, 0, hi) == CoveredIn(ranges, 0, limit)
  {
    forall p | p in CoveredIn(ranges, 0, hi) ensures p in CoveredIn(ranges, 0, limit) {
      CoversBelow(ranges, limit, p);
    }
  }

  /** Every position of a valid result is inside one range only, so the lengths add up to the coverage. */
  lemma {:induction false} CoverageIsTotal(ranges: seq<Range>, limit: nat)
    requires Separated(ranges, limit)
    ensures |CoveredIn(ranges, 0, limit)| == TotalLength(ranges) <= limit
  {
    if ranges == [] {
      assert CoveredIn(ranges, 0, limit) == {};
    } else {
      var init, last := ranges[..|ranges| - 1], ranges[|ranges| - 1];
      CoverageIsTotal(init, last.offset);
      WindowBeyondLimit(init, last.offset, limit);
      OneMoreRange(init, last, 0, limit);
      assert init + [last] == ranges;
    }
  }

  /** A valid result counts as complete exactly when every requested byte is covered. */
  lemma CompleteMeansCovered(r: BlockReadResult)
    requires r.Valid()
    ensures r.readableBytes <= r.requestedBytes
    ensures r.IsComplete() <==> forall p :: 0 <= p < r.requestedBytes ==> Covers(r.ranges, p)
  {
    var covered, all := CoveredIn(r.ranges, 0, r.requestedBytes), Interval(0, r.requestedBytes);
    CoverageIsTotal(r.ranges, r.requestedBytes);
    SubsetSize(covered, all);
    if forall p :: 0 <= p < r.requestedBytes ==> Covers(r.ranges, p) {
      assert covered == all;
    }
    if r.IsComplete() {
      forall p | 0 <= p < r.requestedBytes ensures Covers(r.ranges, p) {
        assert p in all && p in covered;
      }
    }
  }

  /** The number of readable bytes in a window is the number of covered positions in it. */
  method CountReadableBytes(r: BlockReadResult, offset: nat, length: nat) returns (readableBytes: nat)
    requires r.Valid() && offset + length <= r.requestedBytes
    ensures readableBytes == |CoveredIn(r.ranges, offset, offset + length)| <= length
  {
    var end := offset + length;
    readableBytes := 0;
    assert CoveredIn(r.ranges[..0], offset, end) == {};
    for n := 0 to |r.ranges|
      invariant readableBytes == |CoveredIn(r.ranges[..n], offset, end)|
    {
      var range := r.ranges[n];
      PrefixSeparated(r.ranges, r.requestedBytes, n);
      assert r.ranges[..n + 1] == r.ranges[..n] + [range];
      var start := if offset >= range.offset then offset else range.offset;
      var rangeEnd := range.offset + range.length;
      var overlapEnd := if end <= rangeEnd then end else rangeEnd;
      OneMoreRange(r.ranges[..n], range, offset, end);
      if overlapEnd > start {
        readableBytes := readableBytes + (overlapEnd - start);
      }
    }
    assert r.ranges[..|r.ranges|] == r.ranges;
    SubsetSize(CoveredIn(r.ranges, offset, end), Interval(offset, end));
  }

  /** Counting is additive over adjacent windows. */
  lemma CountIsAdditive(ranges: seq<Range>, lo: int, mid: int, hi: int)
    requires lo <= mid <= hi
    ensures |CoveredIn(ranges, lo, hi)| == |CoveredIn(ranges, lo, mid)| + |CoveredIn(ranges, mid, hi)|
  {
    assert CoveredIn(ranges, lo, hi) == CoveredIn(ranges, lo, mid) + CoveredIn(ranges, mid, hi);
  }

  // ---------------------------------------------------------------- constructors

  /** A read that filled a prefix of the request. */
  function FromReadablePrefix(requestedBytes: nat, readableBytes: nat, hasExactCoverage: bool): BlockReadResult
    requires readableBytes <= requestedBytes
  {
    var ranges := if readableBytes == 0 then [] else [Range(0, readableBytes)];
    BlockReadResult(requestedBytes, ranges, readableBytes, hasExactCoverage)
  }

  lemma PrefixCovers(requestedBytes: nat, readableBytes: nat, hasExactCoverage: bool, p: int)
    requires readableBytes <= requestedBytes
    ensures var r := FromReadablePrefix(requestedBytes, readableBytes, hasExactCoverage);
            r.Valid() && (Covers(r.ranges, p) <==> 0 <= p < readableBytes)
  {
    var r := FromReadablePrefix(requestedBytes, readableBytes, hasExactCoverage);
    if readableBytes > 0 {
      assert r.ranges[..0] == [];
      assert r.ranges[0].Contains(p) <==> 0 <= p < readableBytes;
    }
  }

  /** A reader that reports only a count has exact coverage when the count leaves no choice. */
  function FromSummary(requestedBytes: nat, readableBytes: nat): BlockReadResult
    requires readableBytes <= requestedBytes
  {
    FromReadablePrefix(requestedBytes, readableBytes, readableBytes == 0 || readableBytes == requestedBytes)
  }

  /** A summary claims exact coverage exactly when its count leaves only one possible coverage. */
  lemma SummaryIsExact(requestedBytes: nat, readableBytes: nat)
    requires readableBytes <= requestedBytes
    ensures var r := FromSummary(requestedBytes, readableBytes);
            && r.Valid()
            && (r.hasExactCoverage <==> (forall other: BlockReadResult ::
                  other.Valid() && other.requestedBytes == requestedBytes && other.readableBytes == readableBytes ==>
                  forall p :: 0 <= p < requestedBytes ==> (Covers(other.ranges, p) <==> Covers(r.ranges, p))))
  {
    var r := FromSummary(requestedBytes, readableBytes);
    forall p ensures r.Valid() && (Covers(r.ranges, p) <==> 0 <= p < readableBytes) {
      PrefixCovers(requestedBytes, readableBytes, r.hasExactCoverage, p);
    }
    PrefixCovers(requestedBytes, readableBytes, r.hasExactCoverage, 0);
    CompleteMeansCovered(r);
    if r.hasExactCoverage {
      forall other: BlockReadResult, p |
        && other.Valid() && other.requestedBytes == r.requestedBytes && other.readableBytes == r.readableBytes
        && 0 <= p < r.requestedBytes
        ensures Covers(other.ranges, p) <==> Covers(r.ranges, p)
      {
        CompleteMeansCovered(other);
        if r.readableBytes == 0 {
          CoverageIsTotal(other.ranges, other.requestedBytes);
          assert p in CoveredIn(other.ranges, 0, other.requestedBytes) <==> Covers(other.ranges, p);
        }
      }
    } else {
      var suffix := Range(r.requestedBytes - r.readableBytes, r.readableBytes);
      var other := BlockReadResult(r.requestedBytes, [suffix], r.readableBytes, true);
      assert other.ranges[..0] == [];
      assert TotalLength(other.ranges) == r.readableBytes;
      assert other.Valid();
      assert other.ranges[0].Contains(r.requestedBytes - 1);
      assert Covers(other.ranges, r.requestedBytes - 1) && !Covers(r.ranges, r.requestedBytes - 1);
    }
  }

  /** Neighbouring ranges leave at least one unreadable byte between them. */
  ghost predicate Maximal(ranges: seq<Range>) {
    forall i :: 0 <= i < |ranges| - 1 ==> ranges[i].offset + ranges[i].length < ranges[i + 1].offset
  }

  /** The ranges describe the first `upTo` entries of the mask. */
  ghost predicate Describes(ranges: seq<Range>, readable: seq<bool>, upTo: nat) {
    && upTo <= |readable|
    && Separated(ranges, upTo)
    && Maximal(ranges)
    && (forall p :: Covers(ranges, p) <==> 0 <= p < upTo && readable[p])
    && (ranges != [] && upTo < |readable| && readable[upTo] ==>
          ranges[|ranges| - 1].offset + ranges[|ranges| - 1].length < upTo)
  }

  /** Appending a run of readable entries that ends at an unreadable one keeps the description exact. */
  lemma AppendRun(ranges: seq<Range>, readable: seq<bool>, start: nat, end: nat)
    requires start < end <= |readable| && Describes(ranges, readable, start)
    requires forall p :: start <= p < end ==> readable[p]
    requires end < |readable| ==> !readable[end]
    ensures Describes(ranges + [Range(start, end - start)], readable, end)
    ensures TotalLength(ranges + [Range(start, end - start)]) == TotalLength(ranges) + (end - start)
  {
    var run := Range(start, end - start);
    var all := ranges + [run];
    assert all[..|ranges|] == ranges && all[|ranges|] == run;
    forall p ensures Covers(all, p) <==> 0 <= p < end && readable[p] {
      CoversAppend(ranges, run, p);
    }
  }

  /** Turning a readability mask into ranges loses nothing: the ranges cover exactly the mask's positions. */
  method FromReadabilityMask(readable: seq<bool>) returns (r: BlockReadResult)
    ensures r.Valid() && r.requestedBytes == |readable| && r.hasExactCoverage
    ensures forall p :: Covers(r.ranges, p) <==> 0 <= p < |readable| && readable[p]
    ensures Maximal(r.ranges)
  {
    var ranges: seq<Range> := [];
    var readableBytes := 0;
    var offset := 0;
    while offset < |readable|
      invariant Describes(ranges, readable, offset) && TotalLength(ranges) == readableBytes
    {
      if !readable[offset] {
        offset := offset + 1;
        continue;
      }
      var start := offset;
      ghost var before := readableBytes;
      while offset < |readable| && readable[offset]
        invariant start <= offset <= |readable|
        invariant forall p :: start <= p < offset ==> readable[p]
        invariant readableBytes == before + (offset - start)
      {
        readableBytes := readableBytes + 1;
        offset := offset + 1;
      }
      AppendRun(ranges, readable, start, offset);
      ranges := ranges + [Range(start, offset - start)];
    }
    r := BlockReadResult(|readable|, ranges, readableBytes, true);
  }

  /** Ranges moved right by `shift` positions. */
  ghost function Shifted(ranges: seq<Range>, shift: nat): seq<Range> {
    seq(|ranges|, i requires 0 <= i < |ranges| => Range(shift + ranges[i].offset, ranges[i].length))
  }

  /** The left half's ranges followed by the right half's, moved behind the split point. */
  ghost function Joined(requestedBytes: nat, left: BlockReadResult, right: BlockReadResult, rightOffset: nat)
    : BlockReadResult
  {
    BlockReadResult(
      requestedBytes,
      left.ranges + Shifted(right.ranges, rightOffset),
      left.readableBytes + right.readableBytes,
      left.hasExactCoverage && right.hasExactCoverage)
  }

  lemma {:induction false} ShiftedLength(ranges: seq<Range>, shift: nat)
    ensures TotalLength(Shifted(ranges, shift)) == TotalLength(ranges)
  {
    if ranges != [] {
      var n := |ranges| - 1;
      ShiftedLength(ranges[..n], shift);
      assert Shifted(ranges, shift)[..n] == Shifted(ranges[..n], shift);
    }
  }

  lemma {:induction false} TotalLengthAppend(a: seq<Range>, b: seq<Range>)
    ensures TotalLength(a + b) == TotalLength(a) + TotalLength(b)
  {
    if b == [] {
      assert a + b == a;
    } else {
      var n := |b| - 1;
      TotalLengthAppend(a, b[..n]);
      assert (a + b)[..|a + b| - 1] == a + b[..n];
    }
  }

  lemma {:induction false} JoinedIsSeparated(left: seq<Range>, right: seq<Range>, split: nat, limit: nat)
    requires Separated(left, split) && Separated(right, limit)
    ensures Separated(left + Shifted(right, split), split + limit)
  {
    var all := left + Shifted(right, split);
    if right == [] {
      assert all == left;
      SeparatedWeaken(left, split, split + limit);
    } else {
      var n := |right| - 1;
      JoinedIsSeparated(left, right[..n], split, right[n].offset);
      assert all[..|all| - 1] == left + Shifted(right[..n], split);
    }
  }

  /** A joined result covers what either half covers. */
  lemma JoinedCovers(left: seq<Range>, right: seq<Range>, split: nat, p: int)
    requires Separated(left, split)
    ensures Covers(left + Shifted(right, split), p) <==>
              if p < split then Covers(left, p) else Covers(right, p - split)
  {
    var moved := Shifted(right, split);
    var all := left + moved;
    if Covers(all, p) {
      var i :| 0 <= i < |all| && all[i].Contains(p);
      if i < |left| {
        assert left[i].Contains(p);
        SeparatedMeans(left, split, i);
      } else {
        assert all[i] == moved[i - |left|];
        assert right[i - |left|].Contains(p - split);
      }
    }
    if p < split && Covers(left, p) {
      var i :| 0 <= i < |left| && left[i].Contains(p);
      assert all[i].Contains(p);
    }
    if p >= split && Covers(right, p - split) {
      var i :| 0 <= i < |right| && right[i].Contains(p - split);
      assert all[|left| + i] == moved[i];
      assert all[|left| + i].Contains(p);
    }
  }

  /** Joining two halves keeps the result valid. */
  lemma JoinedIsValid(requestedBytes: nat, left: BlockReadResult, right: BlockReadResult, rightOffset: nat)
    requires left.Valid() && right.Valid()
    requires left.requestedBytes == rightOffset && requestedBytes == rightOffset + right.requestedBytes
    ensures Joined(requestedBytes, left, right, rightOffset).Valid()
  {
    ShiftedLength(right.ranges, rightOffset);
    TotalLengthAppend(left.ranges, Shifted(right.ranges, rightOffset));
    JoinedIsSeparated(left.ranges, right.ranges, rightOffset, right.requestedBytes);
  }

  method Combine(requestedBytes: nat, left: BlockReadResult, right: BlockReadResult, rightOffset: nat)
    returns (r: BlockReadResult)
    requires left.Valid() && right.Valid()
    requires left.requestedBytes == rightOffset && requestedBytes == rightOffset + right.requestedBytes
    ensures r == Joined(requestedBytes, left, right, rightOffset) && r.Valid() && r.requestedBytes == requestedBytes
    ensures forall p :: Covers(r.ranges, p) <==>
                           if p < rightOffset then Covers(left.ranges, p) else Covers(right.ranges, p - rightOffset)
  {
    var ranges := left.ranges;
    for i := 0 to |right.ranges|
      invariant ranges == left.ranges + Shifted(right.ranges, rightOffset)[..i]
    {
      ranges := ranges + [Range(rightOffset + right.ranges[i].offset, right.ranges[i].length)];
    }
    r := BlockReadResult(requestedBytes, ranges, left.readableBytes + right.readableBytes,
                         left.hasExactCoverage && right.hasExactCoverage);
    assert Shifted(right.ranges, rightOffset)[..|right.ranges|] == Shifted(right.ranges, rightOffset);
    JoinedIsValid(requestedBytes, left, right, rightOffset);
    forall p
      ensures Covers(r.ranges, p) <==>
                if p < rightOffset then Covers(left.ranges, p) else Covers(right.ranges, p - rightOffset)
    {
      JoinedCovers(left.ranges, right.ranges, rightOffset, p);
    }
  }
}
