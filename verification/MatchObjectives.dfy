/**
 What the planner's matcher maximizes: total score, then filled lanes, then a vector of tie breaks, compared in
 this order. Within bounds that order is the order of one integer, in which sums of objectives are sums.
 */
module MatchObjectives {
  const TACTIC_LANE_COUNT: nat := 11

  datatype MatchObjective = MatchObjective(totalScore: int, filledLanes: int, uidTieBreak: seq<int>)
  {
    predicate Valid() { |uidTieBreak| == TACTIC_LANE_COUNT }

    function Add(other: MatchObjective): (sum: MatchObjective)
      requires Valid() && other.Valid()
      ensures sum.Valid()
    {
      MatchObjective(totalScore + other.totalScore, filledLanes + other.filledLanes,
                     seq(TACTIC_LANE_COUNT,
                         i requires 0 <= i < TACTIC_LANE_COUNT => uidTieBreak[i] + other.uidTieBreak[i]))
    }

    function Negated(): (negative: MatchObjective)
      requires Valid()
      ensures negative.Valid()
    {
      MatchObjective(-totalScore, -filledLanes,
                     seq(TACTIC_LANE_COUNT, i requires 0 <= i < TACTIC_LANE_COUNT => -uidTieBreak[i]))
    }

    /** The parts in the order in which they count. */
    function Key(): seq<int> { [totalScore, filledLanes] + uidTieBreak }
  }

  const NOTHING: MatchObjective := MatchObjective(0, 0, [0, 0, 0, 0, 0, 0, 0, 0, 0, 0, 0])

  /** The first difference decides. */
  predicate IsBelow(a: seq<int>, b: seq<int>)
    requires |a| == |b|
    decreases |a|
  {
    |a| > 0 && (IsBelow(Front(a), Front(b)) || (Front(a) == Front(b) && a[|a| - 1] < b[|b| - 1]))
  }

  function Front(s: seq<int>): (front: seq<int>)
    requires |s| > 0
    ensures |front| == |s| - 1
  {
    s[..|s| - 1]
  }

  predicate Below(a: MatchObjective, b: MatchObjective)
    requires a.Valid() && b.Valid()
  {
    IsBelow(a.Key(), b.Key())
  }

  /** One sequence is below another exactly when, at the first place where they differ, it is smaller. */
  lemma {:induction false} FirstDifferenceDecides(a: seq<int>, b: seq<int>)
    requires |a| == |b|
    ensures IsBelow(a, b) <==> exists k :: 0 <= k < |a| && a[..k] == b[..k] && a[k] < b[k]
    decreases |a|
  {
    if |a| > 0 {
      var n := |a| - 1;
      FirstDifferenceDecides(Front(a), Front(b));
      if k: nat :| k < |a| && a[..k] == b[..k] && a[k] < b[k] {
        if k < n {
          assert Front(a)[..k] == a[..k] && Front(b)[..k] == b[..k];
          assert Front(a)[k] < Front(b)[k];
        } else {
          assert Front(a) == a[..n] && Front(b) == b[..n];
        }
      }
      if IsBelow(Front(a), Front(b)) {
        var k: nat :| k < n && Front(a)[..k] == Front(b)[..k] && Front(a)[k] < Front(b)[k];
        assert a[..k] == Front(a)[..k] && b[..k] == Front(b)[..k];
        assert a[..k] == b[..k] && a[k] < b[k];
      } else if IsBelow(a, b) {
        assert a[..n] == b[..n] && a[n] < b[n];
      }
    }
  }

  lemma {:induction false} DecidedBy(a: seq<int>, b: seq<int>, k: nat)
    requires |a| == |b| && k < |a| && a[..k] == b[..k] && a[k] != b[k]
    ensures IsBelow(a, b) <==> a[k] < b[k]
  {
    FirstDifferenceDecides(a, b);
    if l: nat :| l < |a| && a[..l] == b[..l] && a[l] < b[l] {
      if l < k {
        PrefixAgrees(a, b, k, l);
      } else if k < l {
        PrefixAgrees(a, b, l, k);
      }
    }
  }

  lemma {:induction false} PrefixAgrees<T>(a: seq<T>, b: seq<T>, n: nat, k: nat)
    requires k < n <= |a| && n <= |b| && a[..n] == b[..n]
    ensures a[k] == b[k]
  {
    assert a[..n][k] == a[k];
  }

  /** Objectives that first differ in their tie breaks at this place, if not before. */
  lemma {:induction false} DecidedAt(a: MatchObjective, b: MatchObjective, l: nat)
    requires a.Valid() && b.Valid() && l < TACTIC_LANE_COUNT
    requires a.uidTieBreak[..l] == b.uidTieBreak[..l] && a.uidTieBreak[l] != b.uidTieBreak[l]
    ensures Below(a, b) <==>
              || a.totalScore < b.totalScore
              || (a.totalScore == b.totalScore
                  && (a.filledLanes < b.filledLanes
                      || (a.filledLanes == b.filledLanes && a.uidTieBreak[l] < b.uidTieBreak[l])))
  {
    var s, t := a.Key(), b.Key();
    if a.totalScore != b.totalScore {
      DecidedBy(s, t, 0);
    } else if a.filledLanes != b.filledLanes {
      assert s[..1] == t[..1];
      DecidedBy(s, t, 1);
    } else {
      assert s[..l + 2] == [a.totalScore, a.filledLanes] + a.uidTieBreak[..l];
      assert t[..l + 2] == [b.totalScore, b.filledLanes] + b.uidTieBreak[..l];
      DecidedBy(s, t, l + 2);
    }
  }

  /** Of two different objectives exactly one is below the other. */
  lemma {:induction false} OneIsBelow(a: MatchObjective, b: MatchObjective)
    requires a.Valid() && b.Valid()
    ensures a != b ==> (Below(a, b) <==> !Below(b, a))
    ensures !Below(a, a)
  {
    BelowIsTotal(a.Key(), b.Key());
    BelowIsTotal(a.Key(), a.Key());
    assert a.uidTieBreak == a.Key()[2..] && b.uidTieBreak == b.Key()[2..];
    assert a.totalScore == a.Key()[0] && b.totalScore == b.Key()[0];
    assert a.filledLanes == a.Key()[1] && b.filledLanes == b.Key()[1];
  }

  /** Of two different sequences exactly one is below the other. */
  lemma {:induction false} BelowIsTotal(a: seq<int>, b: seq<int>)
    requires |a| == |b|
    ensures a != b ==> (IsBelow(a, b) <==> !IsBelow(b, a))
    ensures a == b ==> !IsBelow(a, b)
    decreases |a|
  {
    hide Front;
    if |a| > 0 {
      BelowIsTotal(Front(a), Front(b));
      FrontAndLast(a, b);
    }
  }

  lemma {:induction false} FrontAndLast(a: seq<int>, b: seq<int>)
    requires |a| == |b| > 0
    ensures a == b <==> Front(a) == Front(b) && a[|a| - 1] == b[|b| - 1]
  {
    assert a == a[..|a| - 1] + [a[|a| - 1]];
    assert b == b[..|b| - 1] + [b[|b| - 1]];
  }

  // ---------------------------------------------------------------- as one integer

  /** The parts as digits, the first being the highest. */
  ghost function Digits(s: seq<int>, base: nat): int
    decreases |s|
  {
    if s == [] then 0 else Shifted(Digits(Front(s), base), base) + s[|s| - 1]
  }

  ghost function Shifted(x: int, base: nat): int { x * base }

  ghost predicate Bounded(s: seq<int>, bound: nat) { forall i :: 0 <= i < |s| ==> 0 - bound <= s[i] <= bound }

  ghost predicate Small(o: MatchObjective, bound: nat) { o.Valid() && Bounded(o.Key(), bound) }

  ghost function Worth(o: MatchObjective, base: nat): int { Digits(o.Key(), base) }

  /** With digits smaller than half the base, the order of sequences is that of the integers. */
  lemma {:induction false} DigitsFollowOrder(a: seq<int>, b: seq<int>, base: nat, bound: nat)
    requires |a| == |b| && Bounded(a, bound) && Bounded(b, bound) && base > 2 * bound
    ensures IsBelow(a, b) <==> Digits(a, base) < Digits(b, base)
    ensures a == b <==> Digits(a, base) == Digits(b, base)
    decreases |a|
  {
    hide Shifted;
    if |a| > 0 {
      DigitsFollowOrder(Front(a), Front(b), base, bound);
      var x, y := Digits(Front(a), base), Digits(Front(b), base);
      if x < y {
        Carry(x, y, base);
      } else if y < x {
        Carry(y, x, base);
      }
    }
  }

  lemma {:induction false} Carry(x: int, y: int, base: nat)
    requires x < y
    ensures Shifted(x, base) + base <= Shifted(y, base)
  {
    var d := y - x - 1;
    assert Shifted(y, base) == Shifted(x, base) + Shifted(1 + d, base) by { ShiftedAdds(x, 1 + d, base); }
    assert Shifted(1 + d, base) == base + Shifted(d, base) by { ShiftedAdds(1, d, base); }
    assert Shifted(d, base) >= 0 by { NonNegative(d, base); }
  }

  lemma {:induction false} NonNegative(a: nat, b: nat)
    ensures a * b >= 0
  {
  }

  lemma {:induction false} ShiftedAdds(x: int, y: int, base: nat)
    ensures Shifted(x + y, base) == Shifted(x, base) + Shifted(y, base)
  {
  }

  lemma {:induction false} DigitsAdd(a: seq<int>, b: seq<int>, c: seq<int>, base: nat)
    requires |a| == |b| == |c| && forall i :: 0 <= i < |a| ==> c[i] == a[i] + b[i]
    ensures Digits(c, base) == Digits(a, base) + Digits(b, base)
    decreases |a|
  {
    hide Shifted;
    if |a| > 0 {
      DigitsAdd(Front(a), Front(b), Front(c), base);
      var x, y := Digits(Front(a), base), Digits(Front(b), base);
      ShiftedAdds(x, y, base);
    }
  }

  lemma {:induction false} NoDigits(a: seq<int>, base: nat)
    requires forall i :: 0 <= i < |a| ==> a[i] == 0
    ensures Digits(a, base) == 0
    decreases |a|
  {
    if |a| > 0 {
      NoDigits(Front(a), base);
      assert Shifted(0, base) == 0;
    }
  }

  lemma {:induction false} WorthAdds(a: MatchObjective, b: MatchObjective, base: nat)
    requires a.Valid() && b.Valid()
    ensures Worth(a.Add(b), base) == Worth(a, base) + Worth(b, base)
  {
    DigitsAdd(a.Key(), b.Key(), a.Add(b).Key(), base);
  }

  lemma {:induction false} NothingIsWorthNothing(base: nat)
    ensures Worth(NOTHING, base) == 0 && NOTHING.Valid() && Small(NOTHING, 0)
  {
    NoDigits(NOTHING.Key(), base);
  }

  lemma {:induction false} WorthOfNegated(a: MatchObjective, base: nat)
    requires a.Valid()
    ensures Worth(a.Negated(), base) == -Worth(a, base)
  {
    DigitsAdd(a.Key(), a.Negated().Key(), NOTHING.Key(), base);
    NothingIsWorthNothing(base);
  }

  lemma {:induction false} WorthFollowsOrder(a: MatchObjective, b: MatchObjective, base: nat, bound: nat)
    requires Small(a, bound) && Small(b, bound) && base > 2 * bound
    ensures Below(a, b) <==> Worth(a, base) < Worth(b, base)
    ensures a == b <==> Worth(a, base) == Worth(b, base)
  {
    DigitsFollowOrder(a.Key(), b.Key(), base, bound);
    assert a.Key() == b.Key() ==> a.uidTieBreak == b.uidTieBreak && a.totalScore == b.totalScore by {
      assert a.uidTieBreak == a.Key()[2..] && b.uidTieBreak == b.Key()[2..];
    }
  }

  lemma {:induction false} SmallAdds(a: MatchObjective, m: nat, b: MatchObjective, n: nat)
    requires Small(a, m) && Small(b, n)
    ensures Small(a.Add(b), m + n)
  {
    var s, t, r := a.Key(), b.Key(), a.Add(b).Key();
    forall i | 0 <= i < |r| ensures 0 - (m + n) <= r[i] <= m + n {
      assert r[i] == s[i] + t[i];
    }
  }

  lemma {:induction false} SmallNegated(a: MatchObjective, n: nat)
    requires Small(a, n)
    ensures Small(a.Negated(), n)
  {
    var s, r := a.Key(), a.Negated().Key();
    forall i | 0 <= i < |r| ensures 0 - n <= r[i] <= n {
      assert r[i] == -s[i];
    }
  }

  lemma {:induction false} SmallerIsSmall(a: MatchObjective, m: nat, n: nat)
    requires Small(a, m) && m <= n
    ensures Small(a, n)
  {
  }
}
