/**
 The planner's flow network: every edge has unit capacity and a reverse, and flow is sent along paths of greatest
 objective, found by relaxing edges from a queue. Potentials that no residual edge exceeds bound every label, so
 the search ends; and they survive each augmentation, so the flow found is certified at the end.
 */
module MatchGraphs {
  import opened Wrappers
  import opened MatchObjectives

  datatype MatchEdge = MatchEdge(to: nat, reverse: nat, capacity: nat, objective: MatchObjective)

  type Edges = seq<seq<MatchEdge>>

  predicate IsSlot(e: Edges, u: nat, k: nat) { u < |e| && k < |e[u]| }

  /** The edge and its reverse know each other, and one of the two has the unit of capacity. */
  ghost predicate IsPaired(e: Edges, u: nat, k: nat)
    requires IsSlot(e, u, k)
  {
    var a := e[u][k];
    && a.to != u && IsSlot(e, a.to, a.reverse) && a.objective.Valid()
    && var b := e[a.to][a.reverse];
       && b.to == u && b.reverse == k && a.capacity + b.capacity == 1
       && b.objective.Valid() && (b.objective == a.objective.Negated() || a.objective == b.objective.Negated())
  }

  ghost predicate IsLinked(e: Edges) { forall u: nat, k: nat :: IsSlot(e, u, k) ==> IsPaired(e, u, k) }

  /** The two networks differ in capacities at most. */
  ghost predicate SameShape(d: Edges, e: Edges) {
    && |d| == |e|
    && (forall u: nat :: u < |e| ==> |d[u]| == |e[u]|)
    && forall u: nat, k: nat :: IsSlot(e, u, k) ==> e[u][k] == d[u][k].(capacity := e[u][k].capacity)
  }

  /** The network with one more edge and its reverse. */
  function Joined(e: Edges, from: nat, to: nat, objective: MatchObjective): Edges
    requires from < |e| && to < |e| && from != to && objective.Valid()
  {
    e[from := e[from] + [MatchEdge(to, |e[to]|, 1, objective)]]
     [to := e[to] + [MatchEdge(from, |e[from]|, 0, objective.Negated())]]
  }

  // ---------------------------------------------------------------- sums

  ghost function Sum(s: seq<int>): int { if s == [] then 0 else Sum(s[..|s| - 1]) + s[|s| - 1] }

  lemma {:induction false} SumAfterUpdate(s: seq<int>, i: nat, x: int)
    requires i < |s|
    ensures Sum(s[i := x]) == Sum(s) - s[i] + x
  {
    var n := |s| - 1;
    if i == n {
      assert s[i := x][..n] == s[..n];
    } else {
      SumAfterUpdate(s[..n], i, x);
      assert s[i := x][..n] == s[..n][i := x];
    }
  }

  lemma {:induction false} SumIsNatural(s: seq<int>)
    requires forall i :: 0 <= i < |s| ==> s[i] >= 0
    ensures Sum(s) >= 0
  {
    if s != [] {
      SumIsNatural(s[..|s| - 1]);
    }
  }

  lemma {:induction false} SumOfNegated(s: seq<int>, t: seq<int>)
    requires |s| == |t| && forall i :: 0 <= i < |s| ==> t[i] == -s[i]
    ensures Sum(t) == -Sum(s)
  {
    if s != [] {
      SumOfNegated(s[..|s| - 1], t[..|t| - 1]);
    }
  }

  lemma {:induction false} NoneInZeroSum(s: seq<int>)
    requires Sum(s) == 0 && forall i :: 0 <= i < |s| ==> s[i] >= 0
    ensures forall i :: 0 <= i < |s| ==> s[i] == 0
  {
    if s != [] {
      SumIsNatural(s[..|s| - 1]);
      NoneInZeroSum(s[..|s| - 1]);
    }
  }

  lemma {:induction false} OneInUnitSum(s: seq<int>) returns (b: nat)
    requires Sum(s) == 1 && forall i :: 0 <= i < |s| ==> s[i] >= 0
    ensures b < |s| && s[b] == 1 && forall i :: 0 <= i < |s| && i != b ==> s[i] == 0
  {
    var n := |s| - 1;
    SumIsNatural(s[..n]);
    if s[n] == 0 {
      b := OneInUnitSum(s[..n]);
    } else {
      b := n;
      NoneInZeroSum(s[..n]);
    }
  }

  // ---------------------------------------------------------------- potentials

  ghost function WorthOf(e: Edges, u: nat, k: nat, base: nat): int
    requires IsSlot(e, u, k)
  {
    Worth(e[u][k].objective, base)
  }

  ghost predicate IsBounded(e: Edges, pi: seq<Option<int>>, base: nat, u: nat, k: nat)
    requires IsSlot(e, u, k) && |pi| == |e|
  {
    var to := e[u][k].to;
    pi[u].Some? && e[u][k].capacity > 0 ==>
      to < |pi| && pi[to].Some? && pi[to].value >= pi[u].value + WorthOf(e, u, k, base)
  }

  /** No residual edge leaves the nodes that have a potential, or is worth more than the potentials differ by. */
  ghost predicate IsCertificate(e: Edges, pi: seq<Option<int>>, base: nat) {
    |pi| == |e| && forall u: nat, k: nat :: IsSlot(e, u, k) ==> IsBounded(e, pi, base, u, k)
  }

  /** Objectives are small enough for the order of sums along paths to be that of their worths. */
  ghost predicate IsModest(e: Edges, base: nat, bound: nat) {
    && base > 2 * Times(bound, |e|)
    && forall u: nat, k: nat :: IsSlot(e, u, k) ==> Small(e[u][k].objective, bound)
  }

  ghost function Times(a: nat, b: nat): nat { a * b }

  lemma {:induction false} OneMoreTime(a: nat, b: nat)
    ensures Times(a, b + 1) == Times(a, b) + a
  {
  }

  lemma {:induction false} TimesIsMonotone(a: nat, b: nat, c: nat)
    requires b <= c
    ensures Times(a, b) <= Times(a, c)
  {
    assert a * c == a * b + a * (c - b);
  }

  // ---------------------------------------------------------------- labels

  datatype Link = Link(node: nat, edge: nat)

  /** The labels of a search, with the nodes each label has come through and the time it was set. */
  datatype Labels = Labels(best: seq<Option<MatchObjective>>, previous: seq<Option<Link>>, reach: seq<set<nat>>,
                           stamp: seq<nat>)

  ghost function Val(l: Labels, v: nat, base: nat): int
    requires v < |l.best| && l.best[v].Some?
  {
    Worth(l.best[v].value, base)
  }

  ghost predicate IsSized(l: Labels, n: nat) { |l.best| == |l.previous| == |l.reach| == |l.stamp| == n }

  ghost function Nodes(n: nat): set<nat> { if n == 0 then {} else Nodes(n - 1) + {n - 1} }

  lemma {:induction false} NodesNumber(n: nat)
    ensures |Nodes(n)| == n && forall v: nat :: v in Nodes(n) <==> v < n
  {
    if n > 0 {
      NodesNumber(n - 1);
    }
  }

  lemma {:induction false} SubsetIsNoLarger(a: set<nat>, b: set<nat>)
    requires a <= b
    ensures |a| <= |b|
    decreases a
  {
    if x :| x in a {
      SubsetIsNoLarger(a - {x}, b - {x});
    }
  }

  /** How far a label stays below the potential. */
  ghost function Gap(l: Labels, pi: seq<Option<int>>, base: nat, v: nat): int
    requires v < |l.best| == |pi| && l.best[v].Some? && pi[v].Some?
  {
    pi[v].value - Val(l, v, base)
  }

  /** A label is the objective of a path through distinct nodes, none of which is further below its potential. */
  ghost predicate IsSound(l: Labels, pi: seq<Option<int>>, base: nat, bound: nat, source: nat, v: nat)
    requires IsSized(l, |pi|) && v < |pi|
  {
    l.best[v].Some? ==>
      && v in l.reach[v] && source in l.reach[v]
      && pi[v].Some? && Small(l.best[v].value, Times(bound, |l.reach[v]| - 1))
      && forall x :: x in l.reach[v] ==>
           x < |pi| && l.best[x].Some? && pi[x].Some? && Gap(l, pi, base, x) <= Gap(l, pi, base, v)
  }

  /** The label came along a residual edge from a node whose label, if it was set again since, is greater now. */
  ghost predicate IsFollowed(e: Edges, l: Labels, base: nat, v: nat)
    requires IsSized(l, |e|) && v < |e|
  {
    l.best[v].Some? ==>
      && l.previous[v].Some?
      && var u, k := l.previous[v].value.node, l.previous[v].value.edge;
         && IsSlot(e, u, k) && e[u][k].to == v && e[u][k].capacity > 0 && l.best[u].Some?
         && ((l.stamp[u] < l.stamp[v] && Val(l, v, base) == Val(l, u, base) + WorthOf(e, u, k, base))
             || Val(l, v, base) < Val(l, u, base) + WorthOf(e, u, k, base))
  }

  ghost predicate LabelsInv(e: Edges, l: Labels, pi: seq<Option<int>>, base: nat, bound: nat, source: nat, now: nat) {
    && IsSized(l, |e|) && |pi| == |e| && source < |e| && l.best[source] == Some(NOTHING)
    && (forall v: nat :: v < |e| ==> IsSound(l, pi, base, bound, source, v))
    && (forall v: nat :: v < |e| && v != source ==> IsFollowed(e, l, base, v))
    && (forall v: nat :: v < |e| ==> l.stamp[v] < now)
  }

  /** The edge gives no better label. */
  ghost predicate IsRelaxed(e: Edges, best: seq<Option<MatchObjective>>, base: nat, u: nat, k: nat)
    requires IsSlot(e, u, k) && |best| == |e| && best[u].Some?
  {
    var to := e[u][k].to;
    e[u][k].capacity > 0 ==>
      to < |best| && best[to].Some? && Worth(best[to].value, base) >= Worth(best[u].value, base) + WorthOf(e, u, k, base)
  }

  /** One better label. */
  ghost function Set(e: Edges, l: Labels, u: nat, k: nat, objective: MatchObjective, now: nat): Labels
    requires IsSized(l, |e|) && IsSlot(e, u, k) && e[u][k].to < |e|
  {
    var to := e[u][k].to;
    Labels(l.best[to := Some(objective)], l.previous[to := Some(Link(u, k))], l.reach[to := l.reach[u] + {to}],
           l.stamp[to := now])
  }

  /** Along a residual edge the gap to the potential does not shrink. */
  lemma {:induction false} GapGrows(e: Edges, l: Labels, pi: seq<Option<int>>, base: nat, u: nat, k: nat)
    requires IsLinked(e) && IsCertificate(e, pi, base) && IsSized(l, |e|) && IsSlot(e, u, k) && e[u][k].capacity > 0
    requires l.best[u].Some? && pi[u].Some?
    ensures e[u][k].to < |e| && pi[e[u][k].to].Some?
    ensures pi[e[u][k].to].value - (Val(l, u, base) + WorthOf(e, u, k, base)) >= Gap(l, pi, base, u)
  {
    assert IsBounded(e, pi, base, u, k);
  }

  /** A better label leads to a node that the path so far has not come through, in particular not to the source. */
  lemma {:induction false} BetterIsNew(e: Edges, l: Labels, pi: seq<Option<int>>, base: nat, bound: nat, source: nat,
                                       now: nat, u: nat, k: nat)
    requires IsLinked(e) && IsCertificate(e, pi, base) && LabelsInv(e, l, pi, base, bound, source, now)
    requires IsSlot(e, u, k) && e[u][k].capacity > 0 && l.best[u].Some?
    requires var to := e[u][k].to;
             to < |e| && (l.best[to].Some? ==> Val(l, to, base) < Val(l, u, base) + WorthOf(e, u, k, base))
    ensures e[u][k].to !in l.reach[u] && e[u][k].to != source
  {
    assert IsSound(l, pi, base, bound, source, u);
    GapGrows(e, l, pi, base, u, k);
  }

  /** The comparison of objectives is that of their worths. */
  lemma {:induction false} ComparesWorths(e: Edges, l: Labels, pi: seq<Option<int>>, base: nat, bound: nat,
                                          source: nat, now: nat, u: nat, k: nat)
    requires IsLinked(e) && IsModest(e, base, bound) && LabelsInv(e, l, pi, base, bound, source, now)
    requires IsSlot(e, u, k) && l.best[u].Some?
    ensures l.best[u].value.Valid() && e[u][k].objective.Valid() && e[u][k].to < |e| && |l.reach[u]| >= 1
    ensures var sum := l.best[u].value.Add(e[u][k].objective);
            && Worth(sum, base) == Val(l, u, base) + WorthOf(e, u, k, base)
            && Small(sum, Times(bound, |l.reach[u]|))
            && (l.best[e[u][k].to].Some? ==>
                  l.best[e[u][k].to].value.Valid()
                  && (Below(l.best[e[u][k].to].value, sum) <==> Val(l, e[u][k].to, base) < Worth(sum, base)))
  {
    hide Small, Worth, Below, IsModest;
    var to := e[u][k].to;
    assert IsPaired(e, u, k);
    assert IsSound(l, pi, base, bound, source, u) && IsSound(l, pi, base, bound, source, to);
    var x, w := l.best[u].value, e[u][k].objective;
    assert Small(w, bound) && base > 2 * Times(bound, |e|) by { ModestEdge(e, base, bound, u, k); }
    ReachIsLimited(l.reach[u], u, |e|);
    assert x.Valid() && w.Valid() by { SmallIsValid(x, Times(bound, |l.reach[u]| - 1)); SmallIsValid(w, bound); }
    WorthAdds(x, w, base);
    SmallAdds(x, Times(bound, |l.reach[u]| - 1), w, bound);
    OneMoreTime(bound, |l.reach[u]| - 1);
    if l.best[to].Some? {
      ReachIsLimited(l.reach[to], to, |e|);
      SmallIsValid(l.best[to].value, Times(bound, |l.reach[to]| - 1));
      TimesIsMonotone(bound, |l.reach[u]|, |e|);
      TimesIsMonotone(bound, |l.reach[to]| - 1, |e|);
      SmallerIsSmall(x.Add(w), Times(bound, |l.reach[u]|), Times(bound, |e|));
      SmallerIsSmall(l.best[to].value, Times(bound, |l.reach[to]| - 1), Times(bound, |e|));
      WorthFollowsOrder(l.best[to].value, x.Add(w), base, Times(bound, |e|));
    }
  }

  lemma {:induction false} ModestEdge(e: Edges, base: nat, bound: nat, u: nat, k: nat)
    requires IsModest(e, base, bound) && IsSlot(e, u, k)
    ensures Small(e[u][k].objective, bound) && base > 2 * Times(bound, |e|)
  {
  }

  lemma {:induction false} SmallIsValid(o: MatchObjective, n: nat)
    requires Small(o, n)
    ensures o.Valid()
  {
  }

  lemma {:induction false} ReachIsLimited(reach: set<nat>, v: nat, n: nat)
    requires v in reach && forall x :: x in reach ==> x < n
    ensures 1 <= |reach| <= n
  {
    NodesNumber(n);
    assert reach <= Nodes(n);
    SubsetIsNoLarger(reach, Nodes(n));
    SubsetIsNoLarger({v}, reach);
  }

  /** A better label keeps all labels sound and followed. */
  lemma {:induction false} SetKeepsLabels(e: Edges, l: Labels, pi: seq<Option<int>>, base: nat, bound: nat,
                                          source: nat, now: nat, u: nat, k: nat, objective: MatchObjective)
    requires IsLinked(e) && IsCertificate(e, pi, base) && LabelsInv(e, l, pi, base, bound, source, now)
    requires IsSlot(e, u, k) && e[u][k].capacity > 0 && l.best[u].Some? && e[u][k].to < |e|
    requires Small(objective, Times(bound, |l.reach[u]|))
    requires Worth(objective, base) == Val(l, u, base) + WorthOf(e, u, k, base)
    requires l.best[e[u][k].to].Some? ==> Val(l, e[u][k].to, base) < Worth(objective, base)
    ensures IsSized(l, |e|) && LabelsInv(e, Set(e, l, u, k, objective, now), pi, base, bound, source, now + 1)
  {
    hide Small, Worth, Times, IsLinked, IsCertificate;
    assert IsSound(l, pi, base, bound, source, u);
    BetterIsNew(e, l, pi, base, bound, source, now, u, k);
    GapGrows(e, l, pi, base, u, k);
    var to, m := e[u][k].to, Set(e, l, u, k, objective, now);
    assert m.reach[to] == l.reach[u] + {to} && |m.reach[to]| == |l.reach[u]| + 1;
    assert Val(m, to, base) == Worth(objective, base);
    forall v: nat | v < |e| ensures IsSound(m, pi, base, bound, source, v) {
      assert IsSound(l, pi, base, bound, source, v);
      forall x | v != to && l.best[v].Some? && x in l.reach[v]
        ensures x < |pi| && m.best[x].Some? && pi[x].Some? && Gap(m, pi, base, x) <= Gap(m, pi, base, v)
      {
        assert Gap(l, pi, base, x) <= Gap(l, pi, base, v);
      }
    }
    forall v: nat | v < |e| && v != source ensures IsFollowed(e, m, base, v) {
      assert IsFollowed(e, l, base, v);
    }
  }

  // ---------------------------------------------------------------- how far the search still has to go

  ghost function Missing(l: Labels): int {
    Sum(seq(|l.best|, i requires 0 <= i < |l.best| => if l.best[i].None? then 1 else 0))
  }

  ghost function GapAt(l: Labels, pi: seq<Option<int>>, base: nat, source: nat, v: nat): int
    requires |l.best| == |pi| && v < |pi| && source < |pi|
  {
    if l.best[v].Some? && pi[v].Some? && l.best[source].Some? && pi[source].Some? then
      Gap(l, pi, base, v) - Gap(l, pi, base, source)
    else 0
  }

  ghost function Gaps(l: Labels, pi: seq<Option<int>>, base: nat, source: nat): (gaps: seq<int>)
    requires |l.best| == |pi| && source < |pi|
    ensures |gaps| == |pi| && forall v :: 0 <= v < |pi| ==> gaps[v] == GapAt(l, pi, base, source, v)
  {
    seq(|pi|, v requires 0 <= v < |pi| => GapAt(l, pi, base, source, v))
  }

  ghost predicate IsNearer(l: Labels, m: Labels, pi: seq<Option<int>>, base: nat, source: nat)
    requires |l.best| == |m.best| == |pi| && source < |pi|
  {
    || Missing(m) < Missing(l)
    || (Missing(m) == Missing(l) && Sum(Gaps(m, pi, base, source)) < Sum(Gaps(l, pi, base, source)))
  }

  /** A better label leaves fewer nodes without one, or less of a gap. */
  lemma {:induction false} SetProgresses(e: Edges, l: Labels, pi: seq<Option<int>>, base: nat, bound: nat,
                                         source: nat, now: nat, u: nat, k: nat, objective: MatchObjective)
    requires LabelsInv(e, l, pi, base, bound, source, now) && IsSlot(e, u, k)
    requires e[u][k].to < |e| && e[u][k].to != source
    requires l.best[e[u][k].to].Some? ==> Val(l, e[u][k].to, base) < Worth(objective, base)
    ensures var m := Set(e, l, u, k, objective, now);
            IsNearer(l, m, pi, base, source) && forall start: Labels ::
              |start.best| == |pi| && IsNearer(start, l, pi, base, source) ==> IsNearer(start, m, pi, base, source)
  {
    hide Worth;
    var to, m := e[u][k].to, Set(e, l, u, k, objective, now);
    assert IsSound(l, pi, base, bound, source, to);
    var a := seq(|l.best|, i requires 0 <= i < |l.best| => if l.best[i].None? then 1 else 0);
    var b := seq(|m.best|, i requires 0 <= i < |m.best| => if m.best[i].None? then 1 else 0);
    assert b == a[to := 0];
    SumAfterUpdate(a, to, 0);
    if l.best[to].Some? {
      var c, d := Gaps(l, pi, base, source), Gaps(m, pi, base, source);
      assert d == c[to := d[to]];
      SumAfterUpdate(c, to, d[to]);
    }
  }

  lemma {:induction false} GapsAreNatural(e: Edges, l: Labels, pi: seq<Option<int>>, base: nat, bound: nat,
                                          source: nat, now: nat)
    requires LabelsInv(e, l, pi, base, bound, source, now)
    ensures Missing(l) >= 0 && Sum(Gaps(l, pi, base, source)) >= 0
  {
    SumIsNatural(seq(|l.best|, i requires 0 <= i < |l.best| => if l.best[i].None? then 1 else 0));
    forall v: nat | v < |pi| ensures Gaps(l, pi, base, source)[v] >= 0 {
      assert IsSound(l, pi, base, bound, source, v) && IsSound(l, pi, base, bound, source, source);
    }
    SumIsNatural(Gaps(l, pi, base, source));
  }

  // ---------------------------------------------------------------- the queue

  /** The queue lists the marked nodes, each once. */
  ghost predicate IsQueue(queue: seq<nat>, queued: seq<bool>) {
    && (forall i: nat, j: nat :: i < j < |queue| ==> queue[i] != queue[j])
    && (forall i :: 0 <= i < |queue| ==> queue[i] < |queued|)
    && forall v: nat :: v < |queued| ==> (queued[v] <==> v in queue)
  }

  /** Every edge from a labelled node that does not wait in the queue is relaxed, but for this node's from `i` on. */
  ghost predicate IsSettledBut(e: Edges, best: seq<Option<MatchObjective>>, queued: seq<bool>, base: nat, node: nat,
                               i: nat)
    requires |best| == |queued| == |e|
  {
    forall u: nat, k: nat :: IsSlot(e, u, k) && best[u].Some? && !queued[u] && (u != node || k < i) ==>
      IsRelaxed(e, best, base, u, k)
  }

  lemma {:induction false} SettledAfterSet(e: Edges, best: seq<Option<MatchObjective>>, queued: seq<bool>, base: nat,
                                           node: nat, i: nat, objective: MatchObjective)
    requires |best| == |queued| == |e| && IsSettledBut(e, best, queued, base, node, i)
    requires IsSlot(e, node, i) && best[node].Some? && e[node][i].to < |e| && e[node][i].to != node
    requires Worth(objective, base) == Worth(best[node].value, base) + WorthOf(e, node, i, base)
    requires best[e[node][i].to].Some? ==> Worth(best[e[node][i].to].value, base) < Worth(objective, base)
    ensures var to := e[node][i].to;
            IsSettledBut(e, best[to := Some(objective)], queued[to := true], base, node, i + 1)
  {
    hide Worth;
    var to := e[node][i].to;
    var after := best[to := Some(objective)];
    forall u: nat, k: nat | IsSlot(e, u, k) && after[u].Some? && !queued[to := true][u] && (u != node || k < i + 1)
      ensures IsRelaxed(e, after, base, u, k)
    {
      if !(u == node && k == i) {
        assert IsRelaxed(e, best, base, u, k);
      }
    }
  }

  /** Every edge from a labelled node that does not wait is relaxed. */
  ghost predicate IsSettled(e: Edges, best: seq<Option<MatchObjective>>, queued: seq<bool>, base: nat)
    requires |best| == |queued| == |e|
  {
    IsSettledBut(e, best, queued, base, |e|, 0)
  }

  /** Taking a node from the queue unsettles its own edges only, and relaxing all of them settles everything again. */
  lemma {:induction false} SettledWithout(e: Edges, best: seq<Option<MatchObjective>>, queued: seq<bool>, base: nat,
                                          node: nat)
    requires |best| == |queued| == |e| && node < |e|
    ensures IsSettled(e, best, queued, base) ==> IsSettledBut(e, best, queued[node := false], base, node, 0)
    ensures IsSettledBut(e, best, queued, base, node, |e[node]|) ==> IsSettled(e, best, queued, base)
    ensures best[node].None? && IsSettledBut(e, best, queued, base, node, 0) ==> IsSettled(e, best, queued, base)
  {
    hide IsRelaxed;
  }

  lemma {:induction false} Dequeued(queue: seq<nat>, queued: seq<bool>)
    requires IsQueue(queue, queued) && queue != []
    ensures queue[0] < |queued| && IsQueue(queue[1..], queued[queue[0] := false])
  {
    var rest := queue[1..];
    forall v: nat | v < |queued| ensures queued[queue[0] := false][v] <==> v in rest {
      if v in queue && v != queue[0] {
        var i :| 0 <= i < |queue| && queue[i] == v;
        assert rest[i - 1] == v;
      }
    }
  }

  lemma {:induction false} NobodyWaits(queued: seq<bool>)
    requires IsQueue([], queued)
    ensures forall v :: 0 <= v < |queued| ==> !queued[v]
  {
  }

  lemma {:induction false} Enqueued(queue: seq<nat>, queued: seq<bool>, v: nat)
    requires IsQueue(queue, queued) && v < |queued| && !queued[v]
    ensures IsQueue(queue + [v], queued[v := true])
  {
  }

  /** The potentials that labels give. */
  ghost function Worths(best: seq<Option<MatchObjective>>, base: nat): seq<Option<int>> {
    seq(|best|, v requires 0 <= v < |best| => if best[v].Some? then Some(Worth(best[v].value, base)) else None)
  }

  /** When nothing waits, labels are potentials. */
  lemma {:induction false} SettledLabelsCertify(e: Edges, best: seq<Option<MatchObjective>>, queued: seq<bool>,
                                                base: nat)
    requires |best| == |queued| == |e| && IsSettled(e, best, queued, base) && forall v :: 0 <= v < |e| ==> !queued[v]
    ensures IsCertificate(e, Worths(best, base), base)
  {
    hide Worth;
    forall u: nat, k: nat | IsSlot(e, u, k) ensures IsBounded(e, Worths(best, base), base, u, k) {
      if best[u].Some? {
        assert IsRelaxed(e, best, base, u, k);
      }
    }
  }

  /** The label is exactly that of the node before it and the edge between, and that node was labelled earlier. */
  ghost predicate IsTight(e: Edges, best: seq<Option<MatchObjective>>, previous: seq<Option<Link>>, stamp: seq<nat>,
                          base: nat, v: nat)
    requires |best| == |previous| == |stamp| == |e| && v < |e|
  {
    best[v].Some? ==>
      && previous[v].Some?
      && var u, k := previous[v].value.node, previous[v].value.edge;
         && IsSlot(e, u, k) && e[u][k].to == v && e[u][k].capacity > 0 && best[u].Some? && stamp[u] < stamp[v]
         && Worth(best[v].value, base) == Worth(best[u].value, base) + WorthOf(e, u, k, base)
  }

  lemma {:induction false} FollowedIsTight(e: Edges, l: Labels, base: nat, v: nat)
    requires IsSized(l, |e|) && v < |e| && IsFollowed(e, l, base, v) && IsCertificate(e, Worths(l.best, base), base)
    ensures IsTight(e, l.best, l.previous, l.stamp, base, v)
  {
    hide Worth;
    if l.best[v].Some? {
      assert IsBounded(e, Worths(l.best, base), base, l.previous[v].value.node, l.previous[v].value.edge);
    }
  }

  /** At first the source is labelled, and queued, and nothing else. */
  lemma {:induction false} FirstLabels(e: Edges, l: Labels, queued: seq<bool>, pi: seq<Option<int>>, base: nat,
                                       bound: nat, source: nat)
    requires IsSized(l, |e|) && |pi| == |queued| == |e| && source < |e| && pi[source].Some?
    requires forall v: nat :: v < |e| ==>
               && l.best[v] == (if v == source then Some(NOTHING) else None) && l.reach[v] == {source}
               && l.stamp[v] == 0 && (queued[v] <==> v == source)
    ensures LabelsInv(e, l, pi, base, bound, source, 1)
    ensures IsQueue([source], queued) && IsSettled(e, l.best, queued, base)
  {
    NothingIsWorthNothing(base);
    assert Small(NOTHING, Times(bound, 0));
  }

  lemma {:induction false} OneMoreRelaxed(e: Edges, best: seq<Option<MatchObjective>>, queued: seq<bool>, base: nat,
                                          node: nat, i: nat)
    requires |best| == |queued| == |e| && IsSlot(e, node, i) && best[node].Some?
    requires IsSettledBut(e, best, queued, base, node, i) && IsRelaxed(e, best, base, node, i)
    ensures IsSettledBut(e, best, queued, base, node, i + 1)
  {
    hide IsRelaxed;
  }

  lemma {:induction false} Pair(e: Edges, u: nat, k: nat)
    requires IsLinked(e) && IsSlot(e, u, k)
    ensures IsPaired(e, u, k)
  {
  }

  lemma {:induction false} AllTight(e: Edges, l: Labels, pi: seq<Option<int>>, base: nat, bound: nat, source: nat,
                                    now: nat)
    requires LabelsInv(e, l, pi, base, bound, source, now) && IsCertificate(e, Worths(l.best, base), base)
    ensures IsSized(l, |e|) && l.best[source] == Some(NOTHING)
    ensures forall v: nat :: v < |e| && v != source ==> IsTight(e, l.best, l.previous, l.stamp, base, v)
  {
    hide IsSound, IsFollowed, IsTight, IsCertificate, Worths;
    forall v: nat | v < |e| && v != source ensures IsTight(e, l.best, l.previous, l.stamp, base, v) {
      FollowedIsTight(e, l, base, v);
    }
  }

  // ---------------------------------------------------------------- sending one unit

  /** The capacity that is left on the edges of a node, reverse edges included. */
  ghost function Capacity(e: Edges, u: nat): int
    requires u < |e|
  {
    Sum(Capacities(e[u]))
  }

  ghost function Capacities(s: seq<MatchEdge>): (c: seq<int>)
    ensures |c| == |s| && forall k :: 0 <= k < |s| ==> c[k] == s[k].capacity
  {
    seq(|s|, k requires 0 <= k < |s| => s[k].capacity)
  }

  /** One unit is sent along an edge: what it loses, its reverse gains. */
  function Sent(e: Edges, u: nat, k: nat): Edges
    requires IsSlot(e, u, k) && e[u][k].capacity > 0 && IsSlot(e, e[u][k].to, e[u][k].reverse)
  {
    var a := e[u][k];
    var b := e[a.to][a.reverse];
    var spent := e[u := e[u][k := a.(capacity := a.capacity - 1)]];
    if a.to == u then spent else spent[a.to := e[a.to][a.reverse := b.(capacity := b.capacity + 1)]]
  }

  lemma {:induction false} SentKeepsShape(e: Edges, u: nat, k: nat)
    requires IsLinked(e) && IsSlot(e, u, k) && e[u][k].capacity > 0
    ensures IsPaired(e, u, k)
    ensures SameShape(e, Sent(e, u, k)) && IsLinked(Sent(e, u, k))
  {
    hide MatchObjective.Negated;
    var d, a := Sent(e, u, k), e[u][k];
    assert IsPaired(e, u, k) && IsPaired(e, a.to, a.reverse);
    forall v: nat, i: nat | IsSlot(d, v, i) ensures IsPaired(d, v, i) {
      assert IsPaired(e, v, i);
    }
  }

  lemma {:induction false} SentMovesCapacity(e: Edges, u: nat, k: nat, v: nat)
    requires IsLinked(e) && IsSlot(e, u, k) && e[u][k].capacity > 0 && v < |e|
    ensures IsPaired(e, u, k) && |Sent(e, u, k)| == |e|
    ensures Capacity(Sent(e, u, k), v) ==
              Capacity(e, v) - (if v == u then 1 else 0) + (if v == e[u][k].to then 1 else 0)
  {
    assert IsPaired(e, u, k);
    var d, a := Sent(e, u, k), e[u][k];
    if v == u {
      assert Capacities(d[u]) == Capacities(e[u])[k := a.capacity - 1];
      SumAfterUpdate(Capacities(e[u]), k, a.capacity - 1);
    } else if v == a.to {
      var b := e[v][a.reverse];
      assert Capacities(d[v]) == Capacities(e[v])[a.reverse := b.capacity + 1];
      SumAfterUpdate(Capacities(e[v]), a.reverse, b.capacity + 1);
    }
  }

  lemma {:induction false} SentKeepsCertificate(e: Edges, u: nat, k: nat, pi: seq<Option<int>>, base: nat)
    requires IsLinked(e) && IsSlot(e, u, k) && e[u][k].capacity > 0 && IsCertificate(e, pi, base)
    requires pi[u].Some? && e[u][k].to < |pi| && pi[e[u][k].to].Some?
    requires pi[e[u][k].to].value == pi[u].value + WorthOf(e, u, k, base)
    ensures IsPaired(e, u, k) && IsCertificate(Sent(e, u, k), pi, base)
  {
    hide Worth;
    SentKeepsShape(e, u, k);
    var d, a := Sent(e, u, k), e[u][k];
    var b := e[a.to][a.reverse];
    assert Worth(b.objective, base) == -Worth(a.objective, base) by {
      if b.objective == a.objective.Negated() {
        WorthOfNegated(a.objective, base);
      } else {
        WorthOfNegated(b.objective, base);
      }
    }
    forall v: nat, i: nat | IsSlot(d, v, i) ensures IsBounded(d, pi, base, v, i) {
      assert IsBounded(e, pi, base, v, i);
    }
  }

  /** Nothing has been sent yet along edges between this node and earlier ones, or among earlier ones. */
  ghost predicate IsUntouchedBefore(d: Edges, e: Edges, stamp: seq<nat>, node: nat) {
    && |d| == |e| == |stamp| && node < |e|
    && (forall x: nat :: x < |e| && stamp[x] < stamp[node] ==> e[x] == d[x])
    && forall k: nat :: IsSlot(e, node, k) && IsSlot(d, node, k) && e[node][k] != d[node][k] ==>
         d[node][k].to < |stamp| && stamp[d[node][k].to] > stamp[node]
  }

  lemma {:induction false} UntouchedAtFirst(e: Edges, stamp: seq<nat>, node: nat)
    requires |stamp| == |e| && node < |e|
    ensures IsUntouchedBefore(e, e, stamp, node)
  {
  }

  lemma {:induction false} UntouchedFurtherBack(d: Edges, e: Edges, stamp: seq<nat>, u: nat, k: nat)
    requires IsLinked(d) && IsLinked(e) && SameShape(d, e) && IsSlot(d, u, k) && |stamp| == |d|
    requires d[u][k].to < |d| && IsUntouchedBefore(d, e, stamp, d[u][k].to) && stamp[u] < stamp[d[u][k].to]
    requires d[u][k].capacity > 0
    ensures IsSlot(e, u, k) && e[u][k] == d[u][k] && IsPaired(e, u, k)
    ensures IsUntouchedBefore(d, Sent(e, u, k), stamp, u)
  {
    assert e[u] == d[u];
    assert IsPaired(e, u, k);
  }

  lemma {:induction false} IsOwnShape(e: Edges)
    ensures SameShape(e, e)
  {
  }

  lemma {:induction false} ModestyIsKept(d: Edges, e: Edges, base: nat, bound: nat)
    requires SameShape(d, e) && IsModest(d, base, bound)
    ensures IsModest(e, base, bound) && |d| == |e|
  {
  }

  lemma {:induction false} WorthsAreTight(d: Edges, e: Edges, best: seq<Option<MatchObjective>>, u: nat, k: nat,
                                          v: nat, base: nat)
    requires IsSlot(d, u, k) && IsSlot(e, u, k) && e[u][k] == d[u][k] && |best| == |e| && v < |e|
    requires best[u].Some? && best[v].Some?
    requires Worth(best[v].value, base) == Worth(best[u].value, base) + WorthOf(d, u, k, base)
    ensures var pi := Worths(best, base);
            |pi| == |best| && pi[u].Some? && pi[v].Some? && pi[v].value == pi[u].value + WorthOf(e, u, k, base)
  {
    hide Worth;
  }

  lemma {:induction false} ShapeComposes(c: Edges, d: Edges, e: Edges)
    requires SameShape(c, d) && SameShape(d, e)
    ensures SameShape(c, e)
  {
  }

  class MatchGraph {
    var edges: Edges

    constructor (nodeCount: nat)
      ensures edges == seq(nodeCount, _ => [])
    {
      edges := seq(nodeCount, _ => []);
    }

    /**
     Labels every node that residual edges reach with a greatest objective from the source, by relaxing the edges
     of queued nodes until nothing is queued. The labels are potentials, and each but the source's comes by an edge
     from an earlier one.
     */
    method FindPaths(source: nat, ghost pi: seq<Option<int>>, ghost base: nat, ghost bound: nat)
      returns (best: seq<Option<MatchObjective>>, previous: seq<Option<Link>>, ghost stamp: seq<nat>)
      requires IsLinked(edges) && IsModest(edges, base, bound) && IsCertificate(edges, pi, base)
      requires source < |edges| == |pi| && pi[source].Some?
      ensures |best| == |previous| == |stamp| == |edges| && best[source] == Some(NOTHING)
      ensures IsCertificate(edges, Worths(best, base), base)
      ensures forall v: nat :: v < |edges| && v != source ==> IsTight(edges, best, previous, stamp, base, v)
    {
      hide IsModest, Worth, Small, Times, Below, LabelsInv, IsSettledBut, IsSettled, IsQueue, IsCertificate, IsLinked,
           Missing, Gaps, Worths;
      best := seq(|edges|, _ => None);
      best := best[source := Some(NOTHING)];
      previous := seq(|edges|, _ => None);
      var queued := seq(|edges|, v => v == source);
      var queue := [source];
      ghost var now := 1;
      ghost var l := Labels(best, previous, seq(|edges|, v => {source}), seq(|edges|, _ => 0));
      FirstLabels(edges, l, queued, pi, base, bound, source);
      while queue != []
        invariant l.best == best && l.previous == previous && LabelsInv(edges, l, pi, base, bound, source, now)
        invariant |best| == |previous| == |queued| == |edges|
        invariant IsQueue(queue, queued) && IsSettled(edges, best, queued, base)
        decreases Missing(l), Sum(Gaps(l, pi, base, source)), |queue|
      {
        var node := queue[0];
        ghost var start := l;
        Dequeued(queue, queued);
        SettledWithout(edges, best, queued, base, node);
        queue, queued := queue[1..], queued[node := false];
        ghost var waiting := queue;
        GapsAreNatural(edges, l, pi, base, bound, source, now);
        if best[node].Some? {
          var nodeObjective := best[node].value;
          for i := 0 to |edges[node]|
            invariant l.best == best && l.previous == previous && LabelsInv(edges, l, pi, base, bound, source, now)
            invariant |best| == |previous| == |queued| == |edges| && best[node] == Some(nodeObjective)
            invariant IsQueue(queue, queued) && !queued[node] && IsSettledBut(edges, best, queued, base, node, i)
            invariant (l == start && queue == waiting) || IsNearer(start, l, pi, base, source)
          {
            var edge := edges[node][i];
            Pair(edges, node, i);
            ComparesWorths(edges, l, pi, base, bound, source, now, node, i);
            var objective := nodeObjective.Add(edge.objective);
            if edge.capacity == 0 || (best[edge.to].Some? && !Below(best[edge.to].value, objective)) {
              OneMoreRelaxed(edges, best, queued, base, node, i);
            } else {
              BetterIsNew(edges, l, pi, base, bound, source, now, node, i);
              SetKeepsLabels(edges, l, pi, base, bound, source, now, node, i, objective);
              SetProgresses(edges, l, pi, base, bound, source, now, node, i, objective);
              SettledAfterSet(edges, best, queued, base, node, i, objective);
              l, now := Set(edges, l, node, i, objective, now), now + 1;
              best := best[edge.to := Some(objective)];
              previous := previous[edge.to := Some(Link(node, i))];
              if !queued[edge.to] {
                Enqueued(queue, queued, edge.to);
                queue, queued := queue + [edge.to], queued[edge.to := true];
              } else {
                assert queued[edge.to := true] == queued;
              }
            }
          }
        }
        SettledWithout(edges, best, queued, base, node);
      }
      stamp := l.stamp;
      NobodyWaits(queued);
      SettledLabelsCertify(edges, best, queued, base);
      AllTight(edges, l, pi, base, bound, source, now);
    }

    method AddEdge(from: nat, to: nat, objective: MatchObjective) returns (edgeIndex: nat)
      requires from < |edges| && to < |edges| && from != to && objective.Valid()
      modifies this
      ensures edgeIndex == |old(edges)[from]| && edges == Joined(old(edges), from, to, objective)
    {
      edgeIndex := |edges[from]|;
      var reverseIndex := |edges[to]|;
      edges := edges[from := edges[from] + [MatchEdge(to, reverseIndex, 1, objective)]];
      edges := edges[to := edges[to] + [MatchEdge(from, edgeIndex, 0, objective.Negated())]];
    }

    /** Sends one unit along the path that leads to the sink. */
    method Augment(source: nat, sink: nat, previous: seq<Option<Link>>, ghost best: seq<Option<MatchObjective>>,
                   ghost stamp: seq<nat>, ghost base: nat)
      requires IsLinked(edges) && source < |edges| && sink < |edges| && source != sink
      requires |best| == |previous| == |stamp| == |edges| && best[source].Some? && best[sink].Some?
      requires IsCertificate(edges, Worths(best, base), base)
      requires forall v: nat :: v < |edges| && v != source ==> IsTight(edges, best, previous, stamp, base, v)
      modifies this
      ensures IsLinked(edges) && SameShape(old(edges), edges) && IsCertificate(edges, Worths(best, base), base)
      ensures forall v: nat :: v < |edges| ==>
                Capacity(edges, v) ==
                  Capacity(old(edges), v) - (if v == source then 1 else 0) + (if v == sink then 1 else 0)
    {
      hide IsLinked, IsCertificate, Capacity, Sent, IsUntouchedBefore, Worth, Worths;
      ghost var before := edges;
      var node: nat := sink;
      assert IsUntouchedBefore(before, edges, stamp, node) by { UntouchedAtFirst(edges, stamp, node); }
      while node != source
        invariant |edges| == |before| && node < |edges| && best[node].Some?
        invariant IsLinked(edges) && SameShape(before, edges) && IsCertificate(edges, Worths(best, base), base)
        invariant IsUntouchedBefore(before, edges, stamp, node)
        invariant forall v: nat :: v < |edges| ==>
                    Capacity(edges, v) ==
                      Capacity(before, v) - (if v == node then 1 else 0) + (if v == sink then 1 else 0)
        decreases stamp[node]
      {
        assert IsTight(before, best, previous, stamp, base, node);
        var from, k := previous[node].value.node, previous[node].value.edge;
        UntouchedFurtherBack(before, edges, stamp, from, k);
        SentKeepsShape(edges, from, k);
        WorthsAreTight(before, edges, best, from, k, node, base);
        SentKeepsCertificate(edges, from, k, Worths(best, base), base);
        forall v: nat | v < |edges| { SentMovesCapacity(edges, from, k, v); }
        ShapeComposes(before, edges, Sent(edges, from, k));
        Send(from, k);
        node := from;
      }
    }

    method Send(from: nat, k: nat)
      requires IsSlot(edges, from, k) && edges[from][k].capacity > 0 && IsPaired(edges, from, k)
      modifies this
      ensures edges == Sent(old(edges), from, k)
    {
      var edge := edges[from][k];
      edges := edges[from := edges[from][k := edge.(capacity := edge.capacity - 1)]];
      var reverse := edges[edge.to][edge.reverse];
      edges := edges[edge.to := edges[edge.to][edge.reverse := reverse.(capacity := reverse.capacity + 1)]];
    }

    /**
     Sends units from source to sink along paths of greatest objective until the target is met or no path is left.
     What has been sent leaves the source and arrives at the sink, and is neither made nor lost in between; and
     potentials certify that no residual cycle could improve the objective.
     */
    method SendMaxFlow(source: nat, sink: nat, targetFlow: nat, ghost first: seq<Option<int>>, ghost base: nat,
                       ghost bound: nat)
      returns (flow: nat, ghost pi: seq<Option<int>>)
      requires IsLinked(edges) && IsModest(edges, base, bound) && IsCertificate(edges, first, base)
      requires source < |edges| == |first| && sink < |edges| && source != sink && first[source].Some?
      modifies this
      ensures IsLinked(edges) && SameShape(old(edges), edges) && IsCertificate(edges, pi, base) && flow <= targetFlow
      ensures |pi| == |edges| && pi[source].Some?
      ensures flow < targetFlow ==> pi[sink].None?
      ensures flow == targetFlow > 0 ==> pi[sink].Some?
      ensures forall v: nat :: v < |edges| ==>
                Capacity(edges, v) ==
                  Capacity(old(edges), v) - (if v == source then flow else 0) + (if v == sink then flow else 0)
    {
      hide IsLinked, IsCertificate, Capacity, Worth, IsModest, IsTight, SameShape;
      flow, pi := 0, first;
      assert SameShape(edges, edges) by { IsOwnShape(edges); }
      while flow < targetFlow
        invariant IsLinked(edges) && SameShape(old(edges), edges) && |edges| == |old(edges)|
        invariant IsCertificate(edges, pi, base) && |pi| == |edges| && pi[source].Some? && IsModest(edges, base, bound)
        invariant flow <= targetFlow && (flow > 0 ==> pi[sink].Some?)
        invariant forall v: nat :: v < |edges| ==>
                    Capacity(edges, v) ==
                      Capacity(old(edges), v) - (if v == source then flow else 0) + (if v == sink then flow else 0)
      {
        var best, previous;
        ghost var stamp;
        best, previous, stamp := FindPaths(source, pi, base, bound);
        pi := Worths(best, base);
        if best[sink].None? {
          break;
        }
        ghost var before := edges;
        Augment(source, sink, previous, best, stamp, base);
        ShapeComposes(old(edges), before, edges);
        ModestyIsKept(before, edges, base, bound);
        flow := flow + 1;
      }
    }
  }
}
