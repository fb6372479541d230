/**
 The flow network as laid out arc by arc, and what a flow through it means: how much each arc carries decides all
 capacities, what a node receives and sends differ by what its capacity has changed, and potentials bound arcs.
 */
module MatchArcs {
  import opened Wrappers
  import opened MatchObjectives
  import opened MatchGraphs

  datatype Arc = Arc(from: nat, to: nat, objective: MatchObjective)

  ghost predicate AreArcs(n: nat, arcs: seq<Arc>) {
    forall a :: 0 <= a < |arcs| ==>
      arcs[a].from < n && arcs[a].to < n && arcs[a].from != arcs[a].to && arcs[a].objective.Valid()
  }

  /** One unit or none on every arc. */
  ghost predicate AreUnits(arcs: seq<Arc>, x: seq<nat>) { |x| == |arcs| && forall a :: 0 <= a < |x| ==> x[a] <= 1 }

  ghost function Zeros(n: nat): (x: seq<nat>)
    ensures |x| == n && forall a :: 0 <= a < n ==> x[a] == 0
  {
    seq(n, a => 0)
  }

  /** How many of the arcs begin or end at the node. */
  ghost function Degree(arcs: seq<Arc>, u: nat): nat {
    if arcs == [] then 0
    else
      var a := arcs[|arcs| - 1];
      Degree(arcs[..|arcs| - 1], u) + (if a.from == u then 1 else 0) + (if a.to == u then 1 else 0)
  }

  /** The edge of an arc, and its reverse, after it has been laid behind the others. */
  ghost function Forward(arcs: seq<Arc>, x: seq<nat>, a: nat): MatchEdge
    requires AreUnits(arcs, x) && a < |arcs|
  {
    MatchEdge(arcs[a].to, Degree(arcs[..a], arcs[a].to), 1 - x[a], arcs[a].objective)
  }

  ghost function Backward(arcs: seq<Arc>, x: seq<nat>, a: nat): MatchEdge
    requires AreUnits(arcs, x) && a < |arcs| && arcs[a].objective.Valid()
  {
    MatchEdge(arcs[a].from, Degree(arcs[..a], arcs[a].from), x[a], arcs[a].objective.Negated())
  }

  /** The network with these arcs, carrying these units. */
  ghost function Laid(n: nat, arcs: seq<Arc>, x: seq<nat>): (e: Edges)
    requires AreArcs(n, arcs) && AreUnits(arcs, x)
    ensures |e| == n && forall u: nat :: u < n ==> |e[u]| == Degree(arcs, u)
  {
    if arcs == [] then seq(n, _ => [])
    else
      var m := |arcs| - 1;
      var e, a := Laid(n, arcs[..m], x[..m]), arcs[m];
      e[a.from := e[a.from] + [MatchEdge(a.to, |e[a.to]|, 1 - x[m], a.objective)]]
       [a.to := e[a.to] + [MatchEdge(a.from, |e[a.from]|, x[m], a.objective.Negated())]]
  }

  lemma {:induction false} PrefixOfPrefix(arcs: seq<Arc>, x: seq<nat>, a: nat)
    requires AreUnits(arcs, x) && a + 1 < |arcs|
    ensures arcs[..|arcs| - 1][..a] == arcs[..a]
    ensures AreUnits(arcs[..|arcs| - 1], x[..|arcs| - 1])
    ensures Forward(arcs, x, a) == Forward(arcs[..|arcs| - 1], x[..|arcs| - 1], a)
    ensures arcs[a].objective.Valid() ==> Backward(arcs, x, a) == Backward(arcs[..|arcs| - 1], x[..|arcs| - 1], a)
  {
    assert arcs[..|arcs| - 1][..a] == arcs[..a];
  }

  /** Laying one more arc leaves earlier edges in place. */
  lemma {:induction false} EarlierStays(n: nat, arcs: seq<Arc>, x: seq<nat>, u: nat, k: nat)
    requires AreArcs(n, arcs) && AreUnits(arcs, x) && arcs != []
    requires IsSlot(Laid(n, arcs[..|arcs| - 1], x[..|arcs| - 1]), u, k)
    ensures IsSlot(Laid(n, arcs, x), u, k)
    ensures Laid(n, arcs, x)[u][k] == Laid(n, arcs[..|arcs| - 1], x[..|arcs| - 1])[u][k]
  {
  }

  lemma {:induction false} LastIsLaid(n: nat, arcs: seq<Arc>, x: seq<nat>)
    requires AreArcs(n, arcs) && AreUnits(arcs, x) && arcs != []
    ensures var a := |arcs| - 1;
            var e, u, v := Laid(n, arcs, x), arcs[a].from, arcs[a].to;
            && IsSlot(e, u, Degree(arcs[..a], u)) && e[u][Degree(arcs[..a], u)] == Forward(arcs, x, a)
            && IsSlot(e, v, Degree(arcs[..a], v)) && e[v][Degree(arcs[..a], v)] == Backward(arcs, x, a)
  {
    hide Degree;
  }

  /** Where an arc's two edges are. */
  lemma {:induction false} ArcIsLaid(n: nat, arcs: seq<Arc>, x: seq<nat>, a: nat)
    requires AreArcs(n, arcs) && AreUnits(arcs, x) && a < |arcs|
    ensures var e, u, v := Laid(n, arcs, x), arcs[a].from, arcs[a].to;
            && IsSlot(e, u, Degree(arcs[..a], u)) && e[u][Degree(arcs[..a], u)] == Forward(arcs, x, a)
            && IsSlot(e, v, Degree(arcs[..a], v)) && e[v][Degree(arcs[..a], v)] == Backward(arcs, x, a)
  {
    hide Laid, Degree, Forward, Backward;
    var m := |arcs| - 1;
    if a < m {
      ArcIsLaid(n, arcs[..m], x[..m], a);
      PrefixOfPrefix(arcs, x, a);
      EarlierStays(n, arcs, x, arcs[a].from, Degree(arcs[..a], arcs[a].from));
      EarlierStays(n, arcs, x, arcs[a].to, Degree(arcs[..a], arcs[a].to));
    } else {
      LastIsLaid(n, arcs, x);
    }
  }

  /** Every edge of the network is that of an arc, or the reverse of one. */
  lemma {:induction false} SlotIsArc(n: nat, arcs: seq<Arc>, x: seq<nat>, u: nat, k: nat) returns (a: nat)
    requires AreArcs(n, arcs) && AreUnits(arcs, x) && IsSlot(Laid(n, arcs, x), u, k)
    ensures a < |arcs| && k == Degree(arcs[..a], u)
    ensures || (arcs[a].from == u && Laid(n, arcs, x)[u][k] == Forward(arcs, x, a))
            || (arcs[a].to == u && Laid(n, arcs, x)[u][k] == Backward(arcs, x, a))
  {
    var m := |arcs| - 1;
    if k < Degree(arcs[..m], u) {
      a := SlotIsArc(n, arcs[..m], x[..m], u, k);
      PrefixOfPrefix(arcs, x, a);
    } else {
      a := m;
    }
  }

  lemma {:induction false} LaidIsLinked(n: nat, arcs: seq<Arc>, x: seq<nat>)
    requires AreArcs(n, arcs) && AreUnits(arcs, x)
    ensures IsLinked(Laid(n, arcs, x))
  {
    hide Laid, Degree;
    var e := Laid(n, arcs, x);
    forall u: nat, k: nat | IsSlot(e, u, k) ensures IsPaired(e, u, k) {
      var a := SlotIsArc(n, arcs, x, u, k);
      ArcIsLaid(n, arcs, x, a);
    }
  }

  /** The units that a network of this shape carries: what the reverse edges have received. */
  ghost function Carried(arcs: seq<Arc>, e: Edges): seq<nat> {
    seq(|arcs|, a requires 0 <= a < |arcs| => CarriedBy(arcs, e, a))
  }

  ghost function CarriedBy(arcs: seq<Arc>, e: Edges, a: nat): nat
    requires a < |arcs|
  {
    var u, k := arcs[a].to, Degree(arcs[..a], arcs[a].to);
    if IsSlot(e, u, k) then e[u][k].capacity else 0
  }

  /** Capacities in a network of this shape are decided by what each arc carries. */
  lemma {:induction false} CarriedIsLaid(n: nat, arcs: seq<Arc>, e: Edges)
    requires AreArcs(n, arcs) && SameShape(Laid(n, arcs, Zeros(|arcs|)), e) && IsLinked(e)
    ensures AreUnits(arcs, Carried(arcs, e)) && e == Laid(n, arcs, Carried(arcs, e))
  {
    hide Laid, Degree;
    var zeros := Zeros(|arcs|);
    var e0 := Laid(n, arcs, zeros);
    forall a | 0 <= a < |arcs| ensures CarriedBy(arcs, e, a) <= 1 {
      ArcIsLaid(n, arcs, zeros, a);
      assert IsPaired(e, arcs[a].to, Degree(arcs[..a], arcs[a].to));
    }
    var x := Carried(arcs, e);
    var d := Laid(n, arcs, x);
    forall u: nat, k: nat | IsSlot(e, u, k) ensures IsSlot(d, u, k) && d[u][k] == e[u][k] {
      var a := SlotIsArc(n, arcs, zeros, u, k);
      ArcIsLaid(n, arcs, zeros, a);
      ArcIsLaid(n, arcs, x, a);
      assert IsPaired(e, arcs[a].to, Degree(arcs[..a], arcs[a].to));
    }
    SameSlots(d, e);
  }

  lemma {:induction false} SameSlots(d: Edges, e: Edges)
    requires |d| == |e| && forall u: nat :: u < |e| ==> |d[u]| == |e[u]|
    requires forall u: nat, k: nat :: IsSlot(e, u, k) ==> d[u][k] == e[u][k]
    ensures d == e
  {
    forall u: nat | u < |e| ensures d[u] == e[u] {
      forall k: nat | k < |e[u]| ensures d[u][k] == e[u][k] {
        assert IsSlot(e, u, k);
      }
    }
  }

  // ---------------------------------------------------------------- balance

  /** What the node sends along arcs that begin there, less what it receives along those that end there. */
  ghost function Outflow(arcs: seq<Arc>, x: seq<nat>, u: nat): int
    requires AreUnits(arcs, x)
  {
    Sum(Terms(arcs, x, u))
  }

  ghost function Term(arcs: seq<Arc>, x: seq<nat>, u: nat, a: nat): int
    requires AreUnits(arcs, x) && a < |arcs|
  {
    if arcs[a].from == u then x[a] else if arcs[a].to == u then -(x[a] as int) else 0
  }

  ghost function Terms(arcs: seq<Arc>, x: seq<nat>, u: nat): (terms: seq<int>)
    requires AreUnits(arcs, x)
    ensures |terms| == |arcs| && forall a :: 0 <= a < |arcs| ==> terms[a] == Term(arcs, x, u, a)
  {
    seq(|arcs|, a requires 0 <= a < |arcs| => Term(arcs, x, u, a))
  }

  lemma {:induction false} LastAddsOutflow(arcs: seq<Arc>, x: seq<nat>, u: nat)
    requires AreUnits(arcs, x) && arcs != []
    ensures AreUnits(arcs[..|arcs| - 1], x[..|arcs| - 1])
    ensures Outflow(arcs, x, u) == Outflow(arcs[..|arcs| - 1], x[..|arcs| - 1], u) + Term(arcs, x, u, |arcs| - 1)
  {
    var m := |arcs| - 1;
    assert Terms(arcs, x, u)[..m] == Terms(arcs[..m], x[..m], u);
  }

  lemma {:induction false} NothingLaid(n: nat, u: nat)
    requires u < n
    ensures Capacity(Laid(n, [], []), u) == 0 && Outflow([], [], u) == 0
  {
    assert Capacities([]) == [] && Terms([], [], u) == [];
  }

  /** What a node sends on balance is the capacity it has lost. */
  lemma {:induction false} CapacityIsSpent(n: nat, arcs: seq<Arc>, x: seq<nat>, u: nat)
    requires AreArcs(n, arcs) && AreUnits(arcs, x) && u < n
    ensures Capacity(Laid(n, arcs, x), u) == Capacity(Laid(n, arcs, Zeros(|arcs|)), u) - Outflow(arcs, x, u)
  {
    hide Laid, Capacity, Outflow, Degree;
    var zeros := Zeros(|arcs|);
    if arcs == [] {
      assert x == [] && zeros == [];
      NothingLaid(n, u);
    } else {
      var m := |arcs| - 1;
      CapacityIsSpent(n, arcs[..m], x[..m], u);
      assert zeros[..m] == Zeros(m);
      LastAddsCapacity(n, arcs, x, u);
      LastAddsCapacity(n, arcs, zeros, u);
      LastAddsOutflow(arcs, x, u);
    }
  }

  lemma {:induction false} LastAddsCapacity(n: nat, arcs: seq<Arc>, x: seq<nat>, u: nat)
    requires AreArcs(n, arcs) && AreUnits(arcs, x) && arcs != [] && u < n
    ensures var m := |arcs| - 1;
            Capacity(Laid(n, arcs, x), u) ==
              Capacity(Laid(n, arcs[..m], x[..m]), u)
              + (if arcs[m].from == u then 1 - x[m] else 0) + (if arcs[m].to == u then x[m] else 0)
  {
    var m := |arcs| - 1;
    var d, e := Laid(n, arcs[..m], x[..m]), Laid(n, arcs, x);
    if arcs[m].from == u || arcs[m].to == u {
      var cs := Capacities(e[u]);
      assert cs[..|cs| - 1] == Capacities(d[u]);
    }
  }

  // ---------------------------------------------------------------- potentials of arcs

  /** An empty arc is worth no more than the potentials differ by, a full one no less. */
  ghost predicate IsPriced(arcs: seq<Arc>, x: seq<nat>, pi: seq<Option<int>>, base: nat, a: nat)
    requires AreUnits(arcs, x) && AreArcs(|pi|, arcs) && a < |arcs|
  {
    var from, to, w := pi[arcs[a].from], pi[arcs[a].to], Worth(arcs[a].objective, base);
    && (x[a] == 0 && from.Some? ==> to.Some? && to.value >= from.value + w)
    && (x[a] == 1 && to.Some? ==> from.Some? && to.value <= from.value + w)
  }

  lemma {:induction false} CertificatePrices(arcs: seq<Arc>, x: seq<nat>, pi: seq<Option<int>>, base: nat, a: nat)
    requires AreArcs(|pi|, arcs) && AreUnits(arcs, x) && a < |arcs| && IsCertificate(Laid(|pi|, arcs, x), pi, base)
    ensures IsPriced(arcs, x, pi, base, a)
  {
    hide Laid, Degree, Worth;
    var e := Laid(|pi|, arcs, x);
    ArcIsLaid(|pi|, arcs, x, a);
    var u, v := arcs[a].from, arcs[a].to;
    assert IsBounded(e, pi, base, u, Degree(arcs[..a], u)) && IsBounded(e, pi, base, v, Degree(arcs[..a], v));
    WorthOfNegated(arcs[a].objective, base);
  }

  /** Before anything is sent, potentials need only bound the arcs themselves. */
  lemma {:induction false} PricesCertify(arcs: seq<Arc>, pi: seq<Option<int>>, base: nat)
    requires AreArcs(|pi|, arcs) && forall a :: 0 <= a < |arcs| ==> IsPriced(arcs, Zeros(|arcs|), pi, base, a)
    ensures IsCertificate(Laid(|pi|, arcs, Zeros(|arcs|)), pi, base)
  {
    hide Laid, Degree, Worth;
    var x := Zeros(|arcs|);
    var e := Laid(|pi|, arcs, x);
    forall u: nat, k: nat | IsSlot(e, u, k) ensures IsBounded(e, pi, base, u, k) {
      var a := SlotIsArc(|pi|, arcs, x, u, k);
      assert IsPriced(arcs, x, pi, base, a);
    }
  }

  lemma {:induction false} SmallArcsAreModest(n: nat, arcs: seq<Arc>, base: nat, bound: nat)
    requires AreArcs(n, arcs) && base > 2 * Times(bound, n)
    requires forall a :: 0 <= a < |arcs| ==> Small(arcs[a].objective, bound)
    ensures IsModest(Laid(n, arcs, Zeros(|arcs|)), base, bound)
  {
    hide Laid, Degree, Small;
    var x := Zeros(|arcs|);
    var e := Laid(n, arcs, x);
    forall u: nat, k: nat | IsSlot(e, u, k) ensures Small(e[u][k].objective, bound) {
      var a := SlotIsArc(n, arcs, x, u, k);
      SmallNegated(arcs[a].objective, bound);
    }
  }
}
