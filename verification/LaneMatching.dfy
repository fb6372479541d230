/**
 The planner's matcher: it fills tactic lanes with candidates so that the total score is greatest, then the number
 of lanes filled, then the tie break by uid. It does so by sending one unit of flow per lane through a network of
 lanes, candidates and one blank per lane, along paths of greatest objective.
 */
module LaneMatching {
  import opened Wrappers
  import opened MatchObjectives
  import opened MatchGraphs
  import opened MatchArcs

  /** A candidate's score in a lane is missing if the candidate may not play there. */
  datatype OptimizerCandidate = OptimizerCandidate(playerUid: int, laneScores: seq<Option<Byte>>)

  datatype Problem = Problem(lanes: seq<nat>, candidates: seq<OptimizerCandidate>)
  {
    function ScoreOf(i: nat, j: nat): Option<Byte>
      requires i < |lanes| && j < |candidates|
    {
      if lanes[i] < |candidates[j].laneScores| then candidates[j].laneScores[lanes[i]] else None
    }

    /** The order by uid, and among equal uids by place. */
    predicate Precedes(j: nat, k: nat)
      requires j < |candidates| && k < |candidates|
    {
      || candidates[j].playerUid < candidates[k].playerUid
      || (candidates[j].playerUid == candidates[k].playerUid && j < k)
    }

    /** Places in that order are counted from one. */
    function RankOf(j: nat): nat
      requires j < |candidates|
    {
      1 + |set k: nat | k < |candidates| && Precedes(k, j)|
    }

    function BlankRank(): nat { |candidates| + 1 }

    /** What filling a lane with a candidate, or leaving it blank, is worth. */
    function ChoiceObjective(i: nat, choice: Option<nat>): (o: MatchObjective)
      requires i < |lanes| && (choice.Some? ==> choice.value < |candidates| && ScoreOf(i, choice.value).Some?)
      ensures o.Valid()
    {
      match choice
      case None => MatchObjective(0, 0, TieBreak(lanes[i], BlankRank()))
      case Some(j) => MatchObjective(ScoreOf(i, j).value, 1, TieBreak(lanes[i], RankOf(j)))
    }

    /** Every candidate fills at most one lane, and one that it may fill. */
    ghost predicate IsMatching(m: seq<Option<nat>>) {
      && |m| == |lanes|
      && (forall i :: 0 <= i < |m| && m[i].Some? ==> m[i].value < |candidates| && ScoreOf(i, m[i].value).Some?)
      && forall i, k :: 0 <= i < k < |m| && m[i].Some? ==> m[i] != m[k]
    }

    ghost function Total(m: seq<Option<nat>>, n: nat): (o: MatchObjective)
      requires IsMatching(m) && n <= |m|
      ensures o.Valid()
    {
      if n == 0 then NOTHING else Total(m, n - 1).Add(ChoiceObjective(n - 1, m[n - 1]))
    }

    /** No matching has a greater total objective. */
    ghost predicate IsBest(m: seq<Option<nat>>) {
      IsMatching(m) && forall other :: IsMatching(other) ==> !Below(Total(m, |lanes|), Total(other, |lanes|))
    }

    // The nodes of the network.

    function LaneNode(i: nat): nat { 1 + i }

    function PlayerNode(j: nat): nat { 1 + |lanes| + j }

    function BlankNode(i: nat): nat { 1 + |lanes| + |candidates| + i }

    function Sink(): nat { 1 + |lanes| + |candidates| + |lanes| }

    function ColumnOf(i: nat, choice: Option<nat>): nat {
      match choice
      case None => BlankNode(i)
      case Some(j) => PlayerNode(j)
    }
  }

  const SOURCE: nat := 0

  function TieBreak(lane: nat, rank: nat): (ties: seq<int>)
    ensures |ties| == TACTIC_LANE_COUNT
  {
    seq(TACTIC_LANE_COUNT, i requires 0 <= i < TACTIC_LANE_COUNT => if i == lane then -(rank as int) else 0)
  }

  // ---------------------------------------------------------------- the arcs

  datatype Tag =
    | ToLane(lane: nat)
    | Choosing(lane: nat, choice: Option<nat>)
    | FromBlank(lane: nat)
    | FromPlayer(player: nat)

  ghost predicate IsTag(p: Problem, tag: Tag) {
    match tag
    case ToLane(i) => i < |p.lanes|
    case Choosing(i, choice) =>
      i < |p.lanes| && (choice.Some? ==> choice.value < |p.candidates| && p.ScoreOf(i, choice.value).Some?)
    case FromBlank(i) => i < |p.lanes|
    case FromPlayer(j) => j < |p.candidates|
  }

  ghost function ArcOf(p: Problem, tag: Tag): Arc
    requires IsTag(p, tag)
  {
    match tag
    case ToLane(i) => Arc(SOURCE, p.LaneNode(i), NOTHING)
    case Choosing(i, choice) => Arc(p.LaneNode(i), p.ColumnOf(i, choice), p.ChoiceObjective(i, choice))
    case FromBlank(i) => Arc(p.BlankNode(i), p.Sink(), NOTHING)
    case FromPlayer(j) => Arc(p.PlayerNode(j), p.Sink(), NOTHING)
  }

  ghost predicate AreTags(p: Problem, tags: seq<Tag>) {
    && (forall a :: 0 <= a < |tags| ==> IsTag(p, tags[a]))
    && forall a, b :: 0 <= a < b < |tags| ==> tags[a] != tags[b]
  }

  ghost function ArcsOf(p: Problem, tags: seq<Tag>): (arcs: seq<Arc>)
    requires AreTags(p, tags)
    ensures |arcs| == |tags| && forall a :: 0 <= a < |arcs| ==> arcs[a] == ArcOf(p, tags[a])
  {
    seq(|tags|, a requires 0 <= a < |tags| => ArcOf(p, tags[a]))
  }

  ghost function NodeCount(p: Problem): nat { p.Sink() + 1 }

  lemma {:induction false} TagsAreArcs(p: Problem, tags: seq<Tag>)
    requires AreTags(p, tags)
    ensures AreArcs(NodeCount(p), ArcsOf(p, tags))
  {
    var arcs := ArcsOf(p, tags);
    NothingIsWorthNothing(0);
    forall a | 0 <= a < |arcs|
      ensures arcs[a].from < NodeCount(p) && arcs[a].to < NodeCount(p) && arcs[a].from != arcs[a].to
      ensures arcs[a].objective.Valid()
    {
      assert IsTag(p, tags[a]);
    }
  }

  // ---------------------------------------------------------------- ranks and bounds

  ghost function Predecessors(p: Problem, j: nat): set<nat>
    requires j < |p.candidates|
  {
    set k: nat | k < |p.candidates| && p.Precedes(k, j)
  }

  lemma {:induction false} FewerAreSmaller(a: set<nat>, b: set<nat>)
    requires a <= b
    ensures |a| <= |b| && (a != b ==> |a| < |b|)
  {
    assert b == a + (b - a);
    assert |b| == |a| + |b - a|;
  }

  lemma {:induction false} RanksAreLimited(p: Problem, j: nat)
    requires j < |p.candidates|
    ensures 1 <= p.RankOf(j) <= |p.candidates|
  {
    NodesNumber(|p.candidates|);
    assert j in Nodes(|p.candidates|) && j !in Predecessors(p, j);
    FewerAreSmaller(Predecessors(p, j), Nodes(|p.candidates|));
  }

  /** Ranks follow the order, so no two candidates share one. */
  lemma {:induction false} RanksFollowOrder(p: Problem, j: nat, k: nat)
    requires j < |p.candidates| && k < |p.candidates| && p.Precedes(j, k)
    ensures p.RankOf(j) < p.RankOf(k)
  {
    assert j in Predecessors(p, k) && j !in Predecessors(p, j);
    FewerAreSmaller(Predecessors(p, j), Predecessors(p, k));
  }

  /** No part of a choice's objective is larger than this. */
  ghost function Bound(p: Problem): nat { 256 + |p.candidates| }

  lemma {:induction false} ChoicesAreSmall(p: Problem, i: nat, choice: Option<nat>)
    requires IsTag(p, Choosing(i, choice))
    ensures Small(p.ChoiceObjective(i, choice), Bound(p))
  {
    if choice.Some? {
      RanksAreLimited(p, choice.value);
    }
    var o := p.ChoiceObjective(i, choice);
    forall k | 0 <= k < |o.Key()| ensures 0 - Bound(p) <= o.Key()[k] <= Bound(p) {
      if k >= 2 {
        assert o.Key()[k] == o.uidTieBreak[k - 2];
      }
    }
  }

  lemma {:induction false} ArcsAreSmall(p: Problem, tags: seq<Tag>)
    requires AreTags(p, tags)
    ensures forall a :: 0 <= a < |tags| ==> Small(ArcsOf(p, tags)[a].objective, Bound(p))
  {
    NothingIsWorthNothing(0);
    SmallerIsSmall(NOTHING, 0, Bound(p));
    forall a | 0 <= a < |tags| ensures Small(ArcsOf(p, tags)[a].objective, Bound(p)) {
      if tags[a].Choosing? {
        ChoicesAreSmall(p, tags[a].lane, tags[a].choice);
      }
    }
  }

  // ---------------------------------------------------------------- what a balanced flow means

  /** Every arc of the problem is there once. */
  ghost predicate IsNetwork(p: Problem, tags: seq<Tag>) {
    AreTags(p, tags) && forall tag :: IsTag(p, tag) ==> tag in tags
  }

  /** What the arc of the tag carries. */
  ghost function Carries(tags: seq<Tag>, x: seq<nat>, tag: Tag): nat
    requires |x| == |tags|
  {
    if tag in tags then (var a :| 0 <= a < |tags| && tags[a] == tag; x[a]) else 0
  }

  /** The arcs carry units, and no node but source and sink sends more or less than it receives. */
  ghost predicate IsBalanced(p: Problem, tags: seq<Tag>, x: seq<nat>) {
    && IsNetwork(p, tags) && AreUnits(ArcsOf(p, tags), x)
    && forall u: nat :: u < NodeCount(p) && u != SOURCE && u != p.Sink() ==> Outflow(ArcsOf(p, tags), x, u) == 0
  }

  lemma {:induction false} CarriesAt(p: Problem, tags: seq<Tag>, x: seq<nat>, a: nat)
    requires AreTags(p, tags) && |x| == |tags| && a < |tags|
    ensures Carries(tags, x, tags[a]) == x[a]
  {
    assert tags[a] in tags;
    var b :| 0 <= b < |tags| && tags[b] == tags[a] && Carries(tags, x, tags[a]) == x[b];
  }

  lemma {:induction false} IndexOf(p: Problem, tags: seq<Tag>, x: seq<nat>, tag: Tag) returns (a: nat)
    requires IsNetwork(p, tags) && |x| == |tags| && IsTag(p, tag)
    ensures a < |tags| && tags[a] == tag && Carries(tags, x, tag) == x[a]
  {
    a :| a < |tags| && tags[a] == tag;
    CarriesAt(p, tags, x, a);
  }

  /** What the tag's arc adds to the outflow of a lane's node. */
  lemma {:induction false} TermOfLane(p: Problem, tags: seq<Tag>, x: seq<nat>, i: nat, a: nat)
    requires AreTags(p, tags) && AreUnits(ArcsOf(p, tags), x) && i < |p.lanes| && a < |tags|
    ensures Term(ArcsOf(p, tags), x, p.LaneNode(i), a) ==
              if tags[a] == ToLane(i) then -(x[a] as int)
              else if tags[a].Choosing? && tags[a].lane == i then x[a] else 0
  {
    hide Problem.ChoiceObjective;
    assert IsTag(p, tags[a]);
  }

  lemma {:induction false} TermOfPlayer(p: Problem, tags: seq<Tag>, x: seq<nat>, j: nat, a: nat)
    requires AreTags(p, tags) && AreUnits(ArcsOf(p, tags), x) && j < |p.candidates| && a < |tags|
    ensures Term(ArcsOf(p, tags), x, p.PlayerNode(j), a) ==
              if tags[a] == FromPlayer(j) then x[a]
              else if tags[a].Choosing? && tags[a].choice == Some(j) then -(x[a] as int) else 0
  {
    hide Problem.ChoiceObjective;
    assert IsTag(p, tags[a]);
  }

  lemma {:induction false} TermOfBlank(p: Problem, tags: seq<Tag>, x: seq<nat>, i: nat, a: nat)
    requires AreTags(p, tags) && AreUnits(ArcsOf(p, tags), x) && i < |p.lanes| && a < |tags|
    ensures Term(ArcsOf(p, tags), x, p.BlankNode(i), a) ==
              if tags[a] == FromBlank(i) then x[a] else if tags[a] == Choosing(i, None) then -(x[a] as int) else 0
  {
    hide Problem.ChoiceObjective;
    assert IsTag(p, tags[a]);
  }

  /** A lane that receives its unit sends it along exactly one choice; one that does not sends nothing. */
  lemma {:induction false} LaneChooses(p: Problem, tags: seq<Tag>, x: seq<nat>, i: nat) returns (choice: Option<nat>)
    requires IsBalanced(p, tags, x) && i < |p.lanes|
    ensures Carries(tags, x, ToLane(i)) <= 1
    ensures Carries(tags, x, ToLane(i)) == 1 ==>
              IsTag(p, Choosing(i, choice)) && Carries(tags, x, Choosing(i, choice)) == 1
    ensures forall other :: IsTag(p, Choosing(i, other)) && (other != choice || Carries(tags, x, ToLane(i)) == 0) ==>
              Carries(tags, x, Choosing(i, other)) == 0
  {
    hide ArcsOf, Outflow, Carries;
    var arcs, u := ArcsOf(p, tags), p.LaneNode(i);
    var r := IndexOf(p, tags, x, ToLane(i));
    var terms := Terms(arcs, x, u);
    assert Sum(terms) == 0 by { assert Outflow(arcs, x, u) == 0; SumIsOutflow(arcs, x, u); }
    forall a: nat | a < |tags|
      ensures terms[a] == if tags[a] == ToLane(i) then -(x[a] as int)
                          else if tags[a].Choosing? && tags[a].lane == i then x[a] else 0
    {
      TermOfLane(p, tags, x, i, a);
    }
    SumAfterUpdate(terms, r, 0);
    var rest := terms[r := 0];
    choice := None;
    if x[r] == 0 {
      NoneInZeroSum(rest);
    } else {
      var b := OneInUnitSum(rest);
      choice := tags[b].choice;
      CarriesAt(p, tags, x, b);
    }
    forall other | IsTag(p, Choosing(i, other)) && (other != choice || x[r] == 0)
      ensures Carries(tags, x, Choosing(i, other)) == 0
    {
      var c := IndexOf(p, tags, x, Choosing(i, other));
      assert rest[c] == x[c];
    }
  }

  lemma {:induction false} SumIsOutflow(arcs: seq<Arc>, x: seq<nat>, u: nat)
    requires AreUnits(arcs, x)
    ensures Sum(Terms(arcs, x, u)) == Outflow(arcs, x, u)
  {
  }

  /** A term balanced by terms of the other sign: all are zero, or just one of them is its opposite. */
  lemma {:induction false} BalancedByOne(terms: seq<int>, r: nat) returns (b: nat)
    requires r < |terms| && Sum(terms) == 0 && 0 <= terms[r] <= 1
    requires forall a :: 0 <= a < |terms| && a != r ==> terms[a] <= 0
    ensures terms[r] == 1 ==> b < |terms| && b != r && terms[b] == -1
    ensures forall a :: 0 <= a < |terms| && a != r && (terms[r] == 0 || a != b) ==> terms[a] == 0
  {
    var rest := terms[r := 0];
    SumAfterUpdate(terms, r, 0);
    var negated := seq(|rest|, a requires 0 <= a < |rest| => -rest[a]);
    SumOfNegated(rest, negated);
    b := 0;
    if terms[r] == 0 {
      NoneInZeroSum(negated);
    } else {
      b := OneInUnitSum(negated);
    }
    forall a: nat | a < |terms| && a != r && (terms[r] == 0 || a != b) ensures terms[a] == 0 {
      assert negated[a] == -terms[a];
    }
  }

  /** At most one lane chooses a candidate; the candidate sends a unit on exactly if one does. */
  lemma {:induction false} PlayerIsChosen(p: Problem, tags: seq<Tag>, x: seq<nat>, j: nat) returns (lane: nat)
    requires IsBalanced(p, tags, x) && j < |p.candidates|
    ensures Carries(tags, x, FromPlayer(j)) <= 1
    ensures Carries(tags, x, FromPlayer(j)) == 1 ==>
              IsTag(p, Choosing(lane, Some(j))) && Carries(tags, x, Choosing(lane, Some(j))) == 1
    ensures forall other ::
              IsTag(p, Choosing(other, Some(j))) && (other != lane || Carries(tags, x, FromPlayer(j)) == 0) ==>
                Carries(tags, x, Choosing(other, Some(j))) == 0
  {
    hide ArcsOf, Outflow, Carries, Sum;
    var arcs, u := ArcsOf(p, tags), p.PlayerNode(j);
    var r := IndexOf(p, tags, x, FromPlayer(j));
    var terms := Terms(arcs, x, u);
    assert Sum(terms) == 0 by { assert Outflow(arcs, x, u) == 0; SumIsOutflow(arcs, x, u); }
    forall a: nat | a < |tags|
      ensures terms[a] == if tags[a] == FromPlayer(j) then x[a]
                          else if tags[a].Choosing? && tags[a].choice == Some(j) then -(x[a] as int) else 0
    {
      TermOfPlayer(p, tags, x, j, a);
    }
    assert forall a: nat :: a < |tags| && a != r ==> tags[a] != tags[r];
    var b := BalancedByOne(terms, r);
    lane := 0;
    if x[r] == 1 {
      lane := tags[b].lane;
      CarriesAt(p, tags, x, b);
    }
    forall other | IsTag(p, Choosing(other, Some(j))) && (other != lane || x[r] == 0)
      ensures Carries(tags, x, Choosing(other, Some(j))) == 0
    {
      var c := IndexOf(p, tags, x, Choosing(other, Some(j)));
    }
  }

  /** A blank sends on what it receives. */
  lemma {:induction false} BlankPassesOn(p: Problem, tags: seq<Tag>, x: seq<nat>, i: nat)
    requires IsBalanced(p, tags, x) && i < |p.lanes|
    ensures Carries(tags, x, FromBlank(i)) == Carries(tags, x, Choosing(i, None)) <= 1
  {
    hide ArcsOf, Outflow, Carries;
    var arcs, u := ArcsOf(p, tags), p.BlankNode(i);
    var r := IndexOf(p, tags, x, FromBlank(i));
    var c := IndexOf(p, tags, x, Choosing(i, None));
    var terms := Terms(arcs, x, u);
    assert Sum(terms) == 0 by { assert Outflow(arcs, x, u) == 0; SumIsOutflow(arcs, x, u); }
    forall a: nat | a < |tags|
      ensures terms[a] == if tags[a] == FromBlank(i) then x[a]
                          else if tags[a] == Choosing(i, None) then -(x[a] as int) else 0
    {
      TermOfBlank(p, tags, x, i, a);
    }
    SumAfterUpdate(terms, r, 0);
    var rest := terms[r := 0];
    SumAfterUpdate(rest, c, 0);
    AllZero(rest[c := 0]);
  }

  lemma {:induction false} AllZero(s: seq<int>)
    requires forall a :: 0 <= a < |s| ==> s[a] == 0
    ensures Sum(s) == 0
  {
    if s != [] {
      AllZero(s[..|s| - 1]);
    }
  }

  // ---------------------------------------------------------------- what lanes choose is best

  /** Every lane's choice carries its unit. */
  ghost predicate IsChosen(p: Problem, tags: seq<Tag>, x: seq<nat>, m: seq<Option<nat>>) {
    && IsBalanced(p, tags, x) && |m| == |p.lanes|
    && forall i: nat :: i < |m| ==> IsTag(p, Choosing(i, m[i])) && Carries(tags, x, Choosing(i, m[i])) == 1
  }

  lemma {:induction false} ChosenIsMatching(p: Problem, tags: seq<Tag>, x: seq<nat>, m: seq<Option<nat>>)
    requires IsChosen(p, tags, x, m)
    ensures p.IsMatching(m)
  {
    hide Carries, IsBalanced;
    forall i: nat | i < |m| && m[i].Some? ensures m[i].value < |p.candidates| && p.ScoreOf(i, m[i].value).Some? {
      assert IsTag(p, Choosing(i, m[i]));
    }
    forall i: nat, k: nat | i < k < |m| && m[i].Some? ensures m[i] != m[k] {
      if m[i] == m[k] {
        assert IsTag(p, Choosing(i, Some(m[i].value))) && IsTag(p, Choosing(k, Some(m[i].value)));
        var lane := PlayerIsChosen(p, tags, x, m[i].value);
      }
    }
  }

  /** Potentials price every arc, and the sink has one. */
  ghost predicate IsPricing(p: Problem, tags: seq<Tag>, x: seq<nat>, pi: seq<Option<int>>, base: nat) {
    && IsBalanced(p, tags, x) && |pi| == NodeCount(p) && AreArcs(|pi|, ArcsOf(p, tags)) && pi[p.Sink()].Some?
    && forall a :: 0 <= a < |tags| ==> IsPriced(ArcsOf(p, tags), x, pi, base, a)
  }

  /** How far a node's potential is above the sink's. */
  ghost function Surplus(p: Problem, pi: seq<Option<int>>): (f: seq<int>)
    requires |pi| == NodeCount(p) && pi[p.Sink()].Some?
    ensures |f| == |pi|
    ensures forall u: nat :: u < |pi| ==> f[u] == if pi[u].Some? then pi[u].value - pi[p.Sink()].value else 0
  {
    seq(|pi|, u requires 0 <= u < |pi| => if pi[u].Some? then pi[u].value - pi[p.Sink()].value else 0)
  }

  ghost function ChoiceWorth(p: Problem, i: nat, choice: Option<nat>, base: nat): int
    requires IsTag(p, Choosing(i, choice))
  {
    Worth(p.ChoiceObjective(i, choice), base)
  }

  /** A chosen column is priced no lower than the sink, and no higher than its lane and the choice together. */
  lemma {:induction false} ChosenIsPriced(p: Problem, tags: seq<Tag>, x: seq<nat>, pi: seq<Option<int>>, base: nat,
                                          m: seq<Option<nat>>, i: nat)
    requires IsPricing(p, tags, x, pi, base) && IsChosen(p, tags, x, m) && i < |m|
    ensures IsTag(p, Choosing(i, m[i])) && p.ColumnOf(i, m[i]) < |pi| && p.LaneNode(i) < |pi|
    ensures var f, lane := Surplus(p, pi), pi[p.LaneNode(i)];
            && lane.Some? && pi[p.ColumnOf(i, m[i])].Some? && 0 <= f[p.ColumnOf(i, m[i])]
            && f[p.ColumnOf(i, m[i])] <= f[p.LaneNode(i)] + ChoiceWorth(p, i, m[i], base)
  {
    hide Carries, IsBalanced, Worth, Problem.ChoiceObjective;
    assert IsTag(p, Choosing(i, m[i]));
    var onward := if m[i].Some? then FromPlayer(m[i].value) else FromBlank(i);
    ChosenIsPassedOn(p, tags, x, i, m[i]);
    var a := IndexOf(p, tags, x, Choosing(i, m[i])) by { NetworkOf(p, tags, x); }
    var b := IndexOf(p, tags, x, onward) by { NetworkOf(p, tags, x); }
    PriceAt(p, tags, x, pi, base, a);
    PriceAt(p, tags, x, pi, base, b);
    NothingIsWorthNothing(base);
  }

  lemma {:induction false} NetworkOf(p: Problem, tags: seq<Tag>, x: seq<nat>)
    requires IsBalanced(p, tags, x)
    ensures IsNetwork(p, tags) && |x| == |tags|
  {
  }

  lemma {:induction false} PriceAt(p: Problem, tags: seq<Tag>, x: seq<nat>, pi: seq<Option<int>>, base: nat, a: nat)
    requires IsPricing(p, tags, x, pi, base) && a < |tags|
    ensures AreTags(p, tags) && AreUnits(ArcsOf(p, tags), x) && AreArcs(|pi|, ArcsOf(p, tags))
    ensures IsPriced(ArcsOf(p, tags), x, pi, base, a)
  {
  }

  lemma {:induction false} ChosenIsPassedOn(p: Problem, tags: seq<Tag>, x: seq<nat>, i: nat, choice: Option<nat>)
    requires IsBalanced(p, tags, x) && IsTag(p, Choosing(i, choice)) && Carries(tags, x, Choosing(i, choice)) == 1
    ensures Carries(tags, x, if choice.Some? then FromPlayer(choice.value) else FromBlank(i)) == 1
  {
    hide Carries, IsBalanced;
    if choice.Some? {
      var lane := PlayerIsChosen(p, tags, x, choice.value);
      assert IsTag(p, Choosing(i, Some(choice.value)));
    } else {
      BlankPassesOn(p, tags, x, i);
    }
  }

  /** Any other choice's column is priced at least at lane and choice together. */
  lemma {:induction false} OtherIsPriced(p: Problem, tags: seq<Tag>, x: seq<nat>, pi: seq<Option<int>>, base: nat,
                                         i: nat, choice: Option<nat>)
    requires IsPricing(p, tags, x, pi, base) && IsTag(p, Choosing(i, choice))
    requires Carries(tags, x, Choosing(i, choice)) == 0 && pi[p.LaneNode(i)].Some?
    ensures p.ColumnOf(i, choice) < |pi| && pi[p.ColumnOf(i, choice)].Some?
    ensures Surplus(p, pi)[p.ColumnOf(i, choice)] >= Surplus(p, pi)[p.LaneNode(i)] + ChoiceWorth(p, i, choice, base)
  {
    hide Carries, IsBalanced, Worth, Problem.ChoiceObjective;
    var a := IndexOf(p, tags, x, Choosing(i, choice)) by { NetworkOf(p, tags, x); }
    PriceAt(p, tags, x, pi, base, a);
  }

  /** A column that nobody chose is priced no higher than the sink. */
  lemma {:induction false} UnchosenIsCheap(p: Problem, tags: seq<Tag>, x: seq<nat>, pi: seq<Option<int>>, base: nat,
                                           i: nat, choice: Option<nat>)
    requires IsPricing(p, tags, x, pi, base) && IsTag(p, Choosing(i, choice))
    requires Carries(tags, x, if choice.Some? then FromPlayer(choice.value) else FromBlank(i)) == 0
    ensures p.ColumnOf(i, choice) < |pi| && Surplus(p, pi)[p.ColumnOf(i, choice)] <= 0
  {
    hide Carries, IsBalanced, Worth, Problem.ChoiceObjective;
    var onward := if choice.Some? then FromPlayer(choice.value) else FromBlank(i);
    var b := IndexOf(p, tags, x, onward) by { NetworkOf(p, tags, x); }
    PriceAt(p, tags, x, pi, base, b);
    NothingIsWorthNothing(base);
  }

  /** A lane has one choice. */
  lemma {:induction false} ChoiceIsUnique(p: Problem, tags: seq<Tag>, x: seq<nat>, m: seq<Option<nat>>, i: nat,
                                          other: Option<nat>)
    requires IsChosen(p, tags, x, m) && i < |m| && IsTag(p, Choosing(i, other))
    ensures Carries(tags, x, Choosing(i, other)) == if other == m[i] then 1 else 0
  {
    hide Carries, IsBalanced;
    assert IsTag(p, Choosing(i, m[i]));
    var choice := LaneChooses(p, tags, x, i);
  }

  ghost function Columns(p: Problem, m: seq<Option<nat>>): (c: seq<nat>)
    requires |m| == |p.lanes|
    ensures |c| == |m| && forall i: nat :: i < |m| ==> c[i] == p.ColumnOf(i, m[i])
  {
    seq(|m|, i requires 0 <= i < |m| => p.ColumnOf(i, m[i]))
  }

  lemma {:induction false} ColumnsDiffer(p: Problem, m: seq<Option<nat>>)
    requires p.IsMatching(m)
    ensures forall i: nat, k: nat :: i < k < |m| ==> Columns(p, m)[i] != Columns(p, m)[k]
  {
    forall i: nat, k: nat | i < k < |m| ensures Columns(p, m)[i] != Columns(p, m)[k] {
      assert m[i].Some? ==> m[i] != m[k];
    }
  }

  /** A column that another matching uses is chosen, or priced no higher than the sink. */
  lemma {:induction false} ColumnIsChosenOrCheap(p: Problem, tags: seq<Tag>, x: seq<nat>, pi: seq<Option<int>>,
                                                 base: nat, m: seq<Option<nat>>, i: nat, choice: Option<nat>)
    requires IsPricing(p, tags, x, pi, base) && IsChosen(p, tags, x, m) && IsTag(p, Choosing(i, choice))
    ensures p.ColumnOf(i, choice) < |pi|
    ensures p.ColumnOf(i, choice) in Columns(p, m) || Surplus(p, pi)[p.ColumnOf(i, choice)] <= 0
  {
    hide Carries, IsBalanced, Surplus;
    NetworkOf(p, tags, x);
    if choice.Some? {
      var lane := PlayerIsChosen(p, tags, x, choice.value);
      if Carries(tags, x, FromPlayer(choice.value)) == 1 {
        ChoiceIsUnique(p, tags, x, m, lane, choice);
        assert Columns(p, m)[lane] == p.ColumnOf(i, choice);
      } else {
        UnchosenIsCheap(p, tags, x, pi, base, i, choice);
      }
    } else {
      BlankPassesOn(p, tags, x, i);
      ChoiceIsUnique(p, tags, x, m, i, None);
      if m[i].None? {
        assert Columns(p, m)[i] == p.ColumnOf(i, choice);
      } else {
        UnchosenIsCheap(p, tags, x, pi, base, i, choice);
      }
    }
  }

  ghost function At(f: seq<int>, c: seq<nat>): (s: seq<int>)
    requires forall i :: 0 <= i < |c| ==> c[i] < |f|
    ensures |s| == |c| && forall i :: 0 <= i < |c| ==> s[i] == f[c[i]]
  {
    seq(|c|, i requires 0 <= i < |c| => f[c[i]])
  }

  function Without(b: seq<nat>, k: nat): seq<nat>
    requires k < |b|
  {
    b[..k] + b[k + 1..]
  }

  lemma {:induction false} OneLess(f: seq<int>, b: seq<nat>, k: nat)
    requires k < |b| && forall i :: 0 <= i < |b| ==> b[i] < |f|
    ensures forall i :: 0 <= i < |b| - 1 ==> Without(b, k)[i] in b && Without(b, k)[i] < |f|
    ensures forall v :: v in b && v != b[k] ==> v in Without(b, k)
    ensures Sum(At(f, Without(b, k))) == Sum(At(f, b)) - f[b[k]]
  {
    var rest := Without(b, k);
    forall v | v in b && v != b[k] ensures v in rest {
      var l :| 0 <= l < |b| && b[l] == v;
      assert rest[if l < k then l else l - 1] == v;
    }
    assert At(f, rest) == At(f, b)[..k] + At(f, b)[k + 1..];
    SumWithout(At(f, b), k);
  }

  lemma {:induction false} LastOfAt(f: seq<int>, a: seq<nat>)
    requires a != [] && forall i :: 0 <= i < |a| ==> a[i] < |f|
    ensures Sum(At(f, a)) == Sum(At(f, a[..|a| - 1])) + f[a[|a| - 1]]
  {
    assert At(f, a)[..|a| - 1] == At(f, a[..|a| - 1]);
  }

  /** Different places, of which none but those in `b` are above zero, hold no more than all of `b`. */
  lemma {:induction false} Exchange(f: seq<int>, a: seq<nat>, b: seq<nat>)
    requires forall i :: 0 <= i < |a| ==> a[i] < |f| && (a[i] in b || f[a[i]] <= 0)
    requires forall i, k :: 0 <= i < k < |a| ==> a[i] != a[k]
    requires forall i :: 0 <= i < |b| ==> b[i] < |f| && f[b[i]] >= 0
    ensures Sum(At(f, a)) <= Sum(At(f, b))
    decreases |a|
  {
    hide Sum, At, Without;
    if a == [] {
      assert Sum(At(f, a)) == 0 by { NothingAt(f); }
      SumIsNatural(At(f, b));
    } else {
      var n := |a| - 1;
      LastOfAt(f, a);
      if a[n] in b {
        var k :| 0 <= k < |b| && b[k] == a[n];
        OneLess(f, b, k);
        WithoutIsShorter(b, k);
        Exchange(f, a[..n], Without(b, k));
      } else {
        Exchange(f, a[..n], b);
      }
    }
  }

  lemma {:induction false} WithoutIsShorter(b: seq<nat>, k: nat)
    requires k < |b|
    ensures |Without(b, k)| == |b| - 1 && forall i :: 0 <= i < |b| - 1 ==> Without(b, k)[i] in b
  {
  }

  lemma {:induction false} NothingAt(f: seq<int>)
    ensures Sum(At(f, [])) == 0
  {
  }

  lemma {:induction false} SumWithout(s: seq<int>, k: nat)
    requires k < |s|
    ensures Sum(s[..k] + s[k + 1..]) == Sum(s) - s[k]
  {
    var n := |s| - 1;
    if k == n {
      assert s[..k] + s[k + 1..] == s[..n];
    } else {
      SumWithout(s[..n], k);
      assert (s[..k] + s[k + 1..])[..n - 1] == s[..n][..k] + s[..n][k + 1..];
    }
  }

  lemma {:induction false} SumsCompare(s: seq<int>, t: seq<int>, u: seq<int>, v: seq<int>)
    requires |s| == |t| == |u| == |v| && forall i :: 0 <= i < |s| ==> s[i] - t[i] <= u[i] - v[i]
    ensures Sum(s) - Sum(t) <= Sum(u) - Sum(v)
  {
    if s != [] {
      var n := |s| - 1;
      SumsCompare(s[..n], t[..n], u[..n], v[..n]);
    }
  }

  ghost function ChoiceWorths(p: Problem, m: seq<Option<nat>>, base: nat): (s: seq<int>)
    requires p.IsMatching(m)
    ensures |s| == |m|
    ensures forall i: nat :: i < |m| ==> IsTag(p, Choosing(i, m[i])) && s[i] == ChoiceWorth(p, i, m[i], base)
  {
    seq(|m|, i requires 0 <= i < |m| => ChoiceWorth(p, i, m[i], base))
  }

  lemma {:induction false} TotalWorth(p: Problem, m: seq<Option<nat>>, n: nat, base: nat)
    requires p.IsMatching(m) && n <= |m|
    ensures Worth(p.Total(m, n), base) == Sum(ChoiceWorths(p, m, base)[..n])
    ensures Small(p.Total(m, n), Times(Bound(p), n))
  {
    hide Worth, Small, Problem.ChoiceObjective, Bound;
    if n == 0 {
      NothingIsWorthNothing(base);
      assert Small(NOTHING, Times(Bound(p), 0)) by { SmallerIsSmall(NOTHING, 0, Times(Bound(p), 0)); }
    } else {
      TotalWorth(p, m, n - 1, base);
      var s := ChoiceWorths(p, m, base);
      assert s[..n][..n - 1] == s[..n - 1];
      WorthAdds(p.Total(m, n - 1), p.ChoiceObjective(n - 1, m[n - 1]), base);
      ChoicesAreSmall(p, n - 1, m[n - 1]);
      SmallAdds(p.Total(m, n - 1), Times(Bound(p), n - 1), p.ChoiceObjective(n - 1, m[n - 1]), Bound(p));
      OneMoreTime(Bound(p), n - 1);
    }
  }

  /** One lane's other choice gains no more than the two columns differ by. */
  lemma {:induction false} OtherGainsLittle(p: Problem, tags: seq<Tag>, x: seq<nat>, pi: seq<Option<int>>, base: nat,
                                            m: seq<Option<nat>>, i: nat, other: Option<nat>)
    requires IsPricing(p, tags, x, pi, base) && IsChosen(p, tags, x, m) && i < |m| && IsTag(p, Choosing(i, other))
    ensures IsTag(p, Choosing(i, m[i])) && p.ColumnOf(i, m[i]) < |pi| && p.ColumnOf(i, other) < |pi|
    ensures ChoiceWorth(p, i, other, base) - ChoiceWorth(p, i, m[i], base) <=
              Surplus(p, pi)[p.ColumnOf(i, other)] - Surplus(p, pi)[p.ColumnOf(i, m[i])]
  {
    hide Carries, IsBalanced, Surplus, ChoiceWorth;
    ChosenIsPriced(p, tags, x, pi, base, m, i);
    ChoiceIsUnique(p, tags, x, m, i, other);
    if other != m[i] {
      OtherIsPriced(p, tags, x, pi, base, i, other);
    }
  }

  /** What the lanes choose is a best matching. */
  lemma {:induction false} ChosenIsBest(p: Problem, tags: seq<Tag>, x: seq<nat>, pi: seq<Option<int>>, base: nat,
                                        m: seq<Option<nat>>)
    requires IsPricing(p, tags, x, pi, base) && IsChosen(p, tags, x, m)
    requires base > 2 * Times(Bound(p), NodeCount(p))
    ensures p.IsBest(m)
  {
    hide IsPricing, IsChosen, Worth, Small, Below, Bound, Times;
    ChosenIsMatching(p, tags, x, m);
    forall other | p.IsMatching(other) ensures !Below(p.Total(m, |p.lanes|), p.Total(other, |p.lanes|)) {
      ChosenIsNoWorse(p, tags, x, pi, base, m, other);
    }
  }

  /** Another matching's choices are worth no more together. */
  lemma {:induction false} OthersGainNothing(p: Problem, tags: seq<Tag>, x: seq<nat>, pi: seq<Option<int>>, base: nat,
                                             m: seq<Option<nat>>, other: seq<Option<nat>>)
    requires IsPricing(p, tags, x, pi, base) && IsChosen(p, tags, x, m) && p.IsMatching(m) && p.IsMatching(other)
    ensures Sum(ChoiceWorths(p, other, base)) <= Sum(ChoiceWorths(p, m, base))
  {
    hide Carries, IsBalanced, Surplus, ChoiceWorth, Problem.ColumnOf, Sum;
    var f, a, b := Surplus(p, pi), Columns(p, other), Columns(p, m);
    var s, t := ChoiceWorths(p, other, base), ChoiceWorths(p, m, base);
    forall i: nat | i < |m|
      ensures a[i] < |f| && b[i] < |f| && s[i] - t[i] <= f[a[i]] - f[b[i]]
      ensures f[b[i]] >= 0 && (a[i] in b || f[a[i]] <= 0)
    {
      assert IsTag(p, Choosing(i, other[i]));
      OtherGainsLittle(p, tags, x, pi, base, m, i, other[i]);
      ChosenIsPriced(p, tags, x, pi, base, m, i);
      ColumnIsChosenOrCheap(p, tags, x, pi, base, m, i, other[i]);
    }
    ColumnsDiffer(p, other);
    Exchange(f, a, b);
    SumsCompare(s, t, At(f, a), At(f, b));
  }

  lemma {:induction false} ChosenIsNoWorse(p: Problem, tags: seq<Tag>, x: seq<nat>, pi: seq<Option<int>>, base: nat,
                                           m: seq<Option<nat>>, other: seq<Option<nat>>)
    requires IsPricing(p, tags, x, pi, base) && IsChosen(p, tags, x, m) && p.IsMatching(m) && p.IsMatching(other)
    requires base > 2 * Times(Bound(p), NodeCount(p))
    ensures !Below(p.Total(m, |p.lanes|), p.Total(other, |p.lanes|))
  {
    hide Worth, Small, Below, Bound, IsPricing, IsChosen, ChoiceWorth, Times, Sum;
    OthersGainNothing(p, tags, x, pi, base, m, other);
    var n := |p.lanes|;
    TotalWorth(p, m, n, base);
    TotalWorth(p, other, n, base);
    assert ChoiceWorths(p, m, base)[..n] == ChoiceWorths(p, m, base);
    assert ChoiceWorths(p, other, base)[..n] == ChoiceWorths(p, other, base);
    TimesIsMonotone(Bound(p), n, NodeCount(p));
    SmallerIsSmall(p.Total(m, n), Times(Bound(p), n), Times(Bound(p), NodeCount(p)));
    SmallerIsSmall(p.Total(other, n), Times(Bound(p), n), Times(Bound(p), NodeCount(p)));
    WorthFollowsOrder(p.Total(m, n), p.Total(other, n), base, Times(Bound(p), NodeCount(p)));
  }

  // ---------------------------------------------------------------- laying out the network

  /** When the arc of the tag is added: lane by lane, and the candidates' arcs to the sink last. */
  ghost function Stage(p: Problem, tag: Tag): nat {
    match tag
    case ToLane(i) => i
    case Choosing(i, _) => i
    case FromBlank(i) => i
    case FromPlayer(_) => |p.lanes|
  }

  ghost function Turn(tag: Tag): nat {
    match tag
    case ToLane(_) => 0
    case Choosing(_, choice) => if choice.None? then 1 else 3 + choice.value
    case FromBlank(_) => 2
    case FromPlayer(j) => j
  }

  ghost predicate IsDue(p: Problem, tag: Tag, stage: nat, turn: nat) {
    IsTag(p, tag) && (Stage(p, tag) < stage || (Stage(p, tag) == stage && Turn(tag) < turn))
  }

  /** The network holds exactly the arcs that are due, and nothing has been sent. */
  ghost predicate IsLaidOut(p: Problem, tags: seq<Tag>, e: Edges, stage: nat, turn: nat) {
    && AreTags(p, tags) && AreArcs(NodeCount(p), ArcsOf(p, tags))
    && e == Laid(NodeCount(p), ArcsOf(p, tags), Zeros(|tags|))
    && (forall tag :: tag in tags <==> IsDue(p, tag, stage, turn))
  }

  lemma {:induction false} NothingIsLaid(p: Problem, e: Edges)
    requires e == seq(NodeCount(p), _ => [])
    ensures IsLaidOut(p, [], e, 0, 0) && Capacity(e, SOURCE) == 0
  {
    assert ArcsOf(p, []) == [];
    assert e[SOURCE] == [] && Capacities([]) == [];
  }

  /** The arc that is next in turn is added. */
  lemma {:induction false} NextIsLaid(p: Problem, tags: seq<Tag>, e: Edges, tag: Tag)
    requires IsTag(p, tag) && IsLaidOut(p, tags, e, Stage(p, tag), Turn(tag))
    ensures var a := ArcOf(p, tag);
            && a.from < |e| && a.to < |e| && a.from != a.to && a.objective.Valid()
            && var d := Joined(e, a.from, a.to, a.objective);
               && IsLaidOut(p, tags + [tag], d, Stage(p, tag), Turn(tag) + 1)
               && Capacity(d, SOURCE) == Capacity(e, SOURCE) + if tag.ToLane? then 1 else 0
  {
    hide Laid, Capacity, Problem.ChoiceObjective;
    var more := tags + [tag];
    assert tag !in tags;
    TagsAreArcs(p, more);
    var arcs, a := ArcsOf(p, more), ArcOf(p, tag);
    assert arcs[..|tags|] == ArcsOf(p, tags);
    assert arcs[|tags|] == a;
    LaidJoins(NodeCount(p), arcs);
    assert Zeros(|more|)[..|tags|] == Zeros(|tags|);
    LastAddsCapacity(NodeCount(p), arcs, Zeros(|more|), SOURCE);
    forall other ensures other in more <==> IsDue(p, other, Stage(p, tag), Turn(tag) + 1) {
      assert other in more <==> other in tags || other == tag;
      TurnsDiffer(p, tag, other);
    }
  }

  lemma {:induction false} TurnsDiffer(p: Problem, a: Tag, b: Tag)
    requires IsTag(p, a)
    ensures IsTag(p, b) && Stage(p, a) == Stage(p, b) && Turn(a) == Turn(b) ==> a == b
  {
  }

  lemma {:induction false} LaidJoins(n: nat, arcs: seq<Arc>)
    requires AreArcs(n, arcs) && arcs != []
    ensures var m := |arcs| - 1;
            Laid(n, arcs, Zeros(|arcs|)) ==
              Joined(Laid(n, arcs[..m], Zeros(m)), arcs[m].from, arcs[m].to, arcs[m].objective)
  {
    var m := |arcs| - 1;
    assert Zeros(|arcs|)[..m] == Zeros(m);
  }

  /** A turn at which nothing is due passes, and so does a stage that is finished. */
  lemma {:induction false} TurnPasses(p: Problem, tags: seq<Tag>, e: Edges, stage: nat, turn: nat)
    requires IsLaidOut(p, tags, e, stage, turn)
    ensures (forall tag :: IsTag(p, tag) && Stage(p, tag) == stage ==> Turn(tag) != turn) ==>
              IsLaidOut(p, tags, e, stage, turn + 1)
    ensures (forall tag :: IsTag(p, tag) && Stage(p, tag) == stage ==> Turn(tag) < turn) ==>
              IsLaidOut(p, tags, e, stage + 1, 0)
  {
    hide Laid;
  }

  // ---------------------------------------------------------------- the candidates' edges

  datatype CandidateEdge = CandidateEdge(candidate: nat, edge: nat)

  /** The entry says where the edge from the lane to the candidate is. */
  ghost predicate IsEntry(p: Problem, tags: seq<Tag>, i: nat, q: CandidateEdge)
    requires AreTags(p, tags)
  {
    exists a: nat :: a < |tags| && tags[a] == Choosing(i, Some(q.candidate))
                     && q.edge == Degree(ArcsOf(p, tags)[..a], p.LaneNode(i))
  }

  /** The list has an entry for every candidate below `n` that may fill the lane, and no wrong one. */
  ghost predicate ListsEdges(p: Problem, tags: seq<Tag>, i: nat, list: seq<CandidateEdge>, n: nat)
    requires AreTags(p, tags)
  {
    && (forall k :: 0 <= k < |list| ==> IsEntry(p, tags, i, list[k]))
    && forall j: nat :: j < n && IsTag(p, Choosing(i, Some(j))) ==> exists k :: 0 <= k < |list| && list[k].candidate == j
  }

  lemma {:induction false} ListStays(p: Problem, tags: seq<Tag>, more: seq<Tag>, i: nat, list: seq<CandidateEdge>,
                                     n: nat)
    requires AreTags(p, more) && AreTags(p, tags) && tags <= more && ListsEdges(p, tags, i, list, n)
    ensures ListsEdges(p, more, i, list, n)
  {
    hide Degree, ArcOf;
    forall k | 0 <= k < |list| ensures IsEntry(p, more, i, list[k]) {
      var a: nat :| a < |tags| && tags[a] == Choosing(i, Some(list[k].candidate))
                    && list[k].edge == Degree(ArcsOf(p, tags)[..a], p.LaneNode(i));
      assert ArcsOf(p, more)[..a] == ArcsOf(p, tags)[..a];
      assert more[a] == tags[a];
    }
  }

  /** One more candidate's edge has been added, last of all. */
  lemma {:induction false} ListGrows(p: Problem, tags: seq<Tag>, i: nat, list: seq<CandidateEdge>, j: nat, e: Edges)
    requires IsTag(p, Choosing(i, Some(j))) && IsLaidOut(p, tags, e, i, 3 + j) && ListsEdges(p, tags, i, list, j)
    requires AreTags(p, tags + [Choosing(i, Some(j))])
    ensures |e| > p.LaneNode(i)
    ensures ListsEdges(p, tags + [Choosing(i, Some(j))], i, list + [CandidateEdge(j, |e[p.LaneNode(i)]|)], j + 1)
  {
    hide Degree, ArcOf, Laid;
    var more := tags + [Choosing(i, Some(j))];
    var q := CandidateEdge(j, |e[p.LaneNode(i)]|);
    ListStays(p, tags, more, i, list, j);
    assert ArcsOf(p, more)[..|tags|] == ArcsOf(p, tags);
    assert more[|tags|] == Choosing(i, Some(q.candidate)) && q.edge == Degree(ArcsOf(p, more)[..|tags|], p.LaneNode(i));
    assert IsEntry(p, more, i, q);
    var longer := list + [q];
    forall k: nat | k < j + 1 && IsTag(p, Choosing(i, Some(k)))
      ensures exists l :: 0 <= l < |longer| && longer[l].candidate == k
    {
      if k < j {
        var l :| 0 <= l < |list| && list[l].candidate == k;
        assert longer[l].candidate == k;
      } else {
        assert longer[|list|].candidate == k;
      }
    }
  }

  lemma {:induction false} LaidOutTags(p: Problem, tags: seq<Tag>, e: Edges, stage: nat, turn: nat)
    requires IsLaidOut(p, tags, e, stage, turn)
    ensures AreTags(p, tags) && |e| == NodeCount(p)
  {
  }

  /** Adds one arc, the next in turn. */
  method AddArc(graph: MatchGraph, p: Problem, from: nat, to: nat, objective: MatchObjective, ghost tags: seq<Tag>,
                ghost tag: Tag)
    returns (edgeIndex: nat, ghost more: seq<Tag>)
    requires IsTag(p, tag) && ArcOf(p, tag) == Arc(from, to, objective)
    requires IsLaidOut(p, tags, graph.edges, Stage(p, tag), Turn(tag))
    modifies graph
    ensures more == tags + [tag] && IsLaidOut(p, more, graph.edges, Stage(p, tag), Turn(tag) + 1)
    ensures |old(graph.edges)| > from && edgeIndex == |old(graph.edges)[from]|
    ensures Capacity(graph.edges, SOURCE) == Capacity(old(graph.edges), SOURCE) + if tag.ToLane? then 1 else 0
  {
    hide IsLaidOut, Capacity, Joined;
    assert |graph.edges| == NodeCount(p) by { LaidOutTags(p, tags, graph.edges, Stage(p, tag), Turn(tag)); }
    NextIsLaid(p, tags, graph.edges, tag);
    edgeIndex := graph.AddEdge(from, to, objective);
    more := tags + [tag];
    LaidOutTags(p, more, graph.edges, Stage(p, tag), Turn(tag) + 1);
  }

  /** Adds a lane: the unit it receives, its blank, and an edge to every candidate that may fill it. */
  method AddLane(graph: MatchGraph, p: Problem, i: nat, ghost tags: seq<Tag>)
    returns (list: seq<CandidateEdge>, ghost more: seq<Tag>)
    requires i < |p.lanes| && IsLaidOut(p, tags, graph.edges, i, 0)
    modifies graph
    ensures IsLaidOut(p, more, graph.edges, i + 1, 0) && |old(graph.edges)| > 0 && AreTags(p, tags) && tags <= more
    ensures Capacity(graph.edges, SOURCE) == Capacity(old(graph.edges), SOURCE) + 1
    ensures AreTags(p, more) && ListsEdges(p, more, i, list, |p.candidates|)
  {
    hide IsLaidOut, Capacity, ListsEdges, Problem.ChoiceObjective;
    LaidOutTags(p, tags, graph.edges, i, 0);
    var lane, blank := p.LaneNode(i), p.BlankNode(i);
    var edgeIndex;
    edgeIndex, more := AddArc(graph, p, SOURCE, lane, NOTHING, tags, ToLane(i));
    edgeIndex, more := AddArc(graph, p, lane, blank, p.ChoiceObjective(i, None), more, Choosing(i, None));
    edgeIndex, more := AddArc(graph, p, blank, p.Sink(), NOTHING, more, FromBlank(i));
    LaidOutTags(p, more, graph.edges, i, 3);
    list := [];
    assert ListsEdges(p, more, i, list, 0) by { NothingListed(p, more, i); }
    for j := 0 to |p.candidates|
      invariant IsLaidOut(p, more, graph.edges, i, 3 + j) && |graph.edges| > 0 && tags <= more && AreTags(p, more)
      invariant Capacity(graph.edges, SOURCE) == Capacity(old(graph.edges), SOURCE) + 1
      invariant ListsEdges(p, more, i, list, j)
    {
      if p.ScoreOf(i, j).Some? {
        ghost var before, earlier := graph.edges, more;
        edgeIndex, more := AddArc(graph, p, lane, p.PlayerNode(j), p.ChoiceObjective(i, Some(j)), more,
                                  Choosing(i, Some(j)));
        LaidOutTags(p, more, graph.edges, i, 3 + j + 1);
        ListGrows(p, earlier, i, list, j, before);
        list := list + [CandidateEdge(j, edgeIndex)];
      } else {
        NotListed(p, more, i, list, j);
        TurnPasses(p, more, graph.edges, i, 3 + j);
      }
    }
    TurnPasses(p, more, graph.edges, i, 3 + |p.candidates|);
    LaidOutTags(p, more, graph.edges, i + 1, 0);
  }

  lemma {:induction false} NothingListed(p: Problem, tags: seq<Tag>, i: nat)
    requires AreTags(p, tags)
    ensures ListsEdges(p, tags, i, [], 0)
  {
  }

  lemma {:induction false} NotListed(p: Problem, tags: seq<Tag>, i: nat, list: seq<CandidateEdge>, j: nat)
    requires AreTags(p, tags) && ListsEdges(p, tags, i, list, j) && !IsTag(p, Choosing(i, Some(j)))
    ensures ListsEdges(p, tags, i, list, j + 1)
  {
  }

  // ---------------------------------------------------------------- the flow through the network

  lemma {:induction false} LaidOutIsNetwork(p: Problem, tags: seq<Tag>, e: Edges)
    requires IsLaidOut(p, tags, e, |p.lanes|, |p.candidates|)
    ensures IsNetwork(p, tags) && AreArcs(NodeCount(p), ArcsOf(p, tags))
    ensures e == Laid(NodeCount(p), ArcsOf(p, tags), Zeros(|tags|))
  {
    hide Laid;
    forall tag | IsTag(p, tag) ensures tag in tags {
      assert IsDue(p, tag, |p.lanes|, |p.candidates|);
    }
  }

  /** Some worth that no arc exceeds. */
  lemma {:induction false} WorthsAreLimited(arcs: seq<Arc>, base: nat) returns (top: int)
    ensures top >= 0 && forall a :: 0 <= a < |arcs| ==> Worth(arcs[a].objective, base) <= top
  {
    hide Worth;
    if arcs == [] {
      top := 0;
    } else {
      var before := WorthsAreLimited(arcs[..|arcs| - 1], base);
      var last := Worth(arcs[|arcs| - 1].objective, base);
      top := if last > before then last else before;
    }
  }

  /** Potentials for the empty network: none for source and lanes, the greatest worth for everything behind them. */
  lemma {:induction false} FirstPotentials(p: Problem, tags: seq<Tag>, base: nat) returns (pi: seq<Option<int>>)
    requires AreTags(p, tags) && AreArcs(NodeCount(p), ArcsOf(p, tags))
    ensures |pi| == NodeCount(p) && pi[SOURCE].Some?
    ensures IsCertificate(Laid(NodeCount(p), ArcsOf(p, tags), Zeros(|tags|)), pi, base)
  {
    hide Worth, Laid, Problem.ChoiceObjective;
    var arcs := ArcsOf(p, tags);
    var top := WorthsAreLimited(arcs, base);
    pi := seq(NodeCount(p), u requires 0 <= u < NodeCount(p) => Some(if u <= |p.lanes| then 0 else top));
    NothingIsWorthNothing(base);
    forall a: nat | a < |arcs| ensures IsPriced(arcs, Zeros(|arcs|), pi, base, a) {
      assert IsTag(p, tags[a]);
    }
    PricesCertify(arcs, pi, base);
  }

  lemma {:induction false} BalanceOfFlow(p: Problem, tags: seq<Tag>, x: seq<nat>, e0: Edges, e: Edges)
    requires IsNetwork(p, tags) && AreArcs(NodeCount(p), ArcsOf(p, tags)) && AreUnits(ArcsOf(p, tags), x)
    requires e0 == Laid(NodeCount(p), ArcsOf(p, tags), Zeros(|tags|)) && e == Laid(NodeCount(p), ArcsOf(p, tags), x)
    requires forall u: nat :: u < |e| && u != SOURCE && u != p.Sink() ==> Capacity(e, u) == Capacity(e0, u)
    ensures IsBalanced(p, tags, x)
  {
    hide Laid, Capacity, ArcsOf, Outflow;
    forall u: nat | u < NodeCount(p) && u != SOURCE && u != p.Sink() ensures Outflow(ArcsOf(p, tags), x, u) == 0 {
      CapacityIsSpent(NodeCount(p), ArcsOf(p, tags), x, u);
    }
  }

  /** The capacity left at the source is that of lanes without a unit. */
  lemma {:induction false} LanesAreServedIff(p: Problem, tags: seq<Tag>, x: seq<nat>)
    requires IsBalanced(p, tags, x) && AreArcs(NodeCount(p), ArcsOf(p, tags))
    ensures var left := Capacity(Laid(NodeCount(p), ArcsOf(p, tags), x), SOURCE);
            && left >= 0
            && (left == 0 ==> forall i: nat :: i < |p.lanes| ==> Carries(tags, x, ToLane(i)) == 1)
            && (left > 0 ==> exists i: nat :: i < |p.lanes| && Carries(tags, x, ToLane(i)) == 0)
  {
    hide Laid, Carries, Degree, Problem.ChoiceObjective;
    var arcs := ArcsOf(p, tags);
    var e := Laid(NodeCount(p), arcs, x);
    var caps := Capacities(e[SOURCE]);
    SumIsNatural(caps);
    if Sum(caps) == 0 {
      NoneInZeroSum(caps);
      forall i: nat | i < |p.lanes| ensures Carries(tags, x, ToLane(i)) == 1 {
        var a := IndexOf(p, tags, x, ToLane(i));
        ArcIsLaid(NodeCount(p), arcs, x, a);
        assert caps[Degree(arcs[..a], SOURCE)] == 1 - x[a];
      }
    } else {
      var k := SomeInSum(caps);
      var a := SlotIsArc(NodeCount(p), arcs, x, SOURCE, k);
      assert IsTag(p, tags[a]);
      CarriesAt(p, tags, x, a);
    }
  }

  lemma {:induction false} SomeInSum(s: seq<int>) returns (k: nat)
    requires Sum(s) != 0
    ensures k < |s| && s[k] != 0
  {
    var n := |s| - 1;
    if s[n] != 0 {
      k := n;
    } else {
      k := SomeInSum(s[..n]);
    }
  }

  /** A lane without a unit leaves a way to the sink, through its blank. */
  lemma {:induction false} UnservedReachesSink(p: Problem, tags: seq<Tag>, x: seq<nat>, pi: seq<Option<int>>, base: nat,
                                               i: nat)
    requires IsBalanced(p, tags, x) && |pi| == NodeCount(p) && AreArcs(|pi|, ArcsOf(p, tags)) && pi[SOURCE].Some?
    requires forall a :: 0 <= a < |tags| ==> IsPriced(ArcsOf(p, tags), x, pi, base, a)
    requires i < |p.lanes| && Carries(tags, x, ToLane(i)) == 0
    ensures pi[p.Sink()].Some?
  {
    hide Carries, Worth, Problem.ChoiceObjective, Outflow;
    var a := IndexOf(p, tags, x, ToLane(i));
    assert IsPriced(ArcsOf(p, tags), x, pi, base, a);
    var choice := LaneChooses(p, tags, x, i);
    BlankPassesOn(p, tags, x, i);
    assert IsTag(p, Choosing(i, None));
    var b := IndexOf(p, tags, x, Choosing(i, None));
    assert IsPriced(ArcsOf(p, tags), x, pi, base, b);
    var c := IndexOf(p, tags, x, FromBlank(i));
    assert IsPriced(ArcsOf(p, tags), x, pi, base, c);
  }

  /** The entry of a candidate shows whether the lane has chosen that candidate. */
  lemma {:induction false} EntryShows(p: Problem, tags: seq<Tag>, x: seq<nat>, e: Edges, i: nat, q: CandidateEdge)
    requires IsNetwork(p, tags) && AreArcs(NodeCount(p), ArcsOf(p, tags)) && AreUnits(ArcsOf(p, tags), x)
    requires e == Laid(NodeCount(p), ArcsOf(p, tags), x) && i < |p.lanes| && IsEntry(p, tags, i, q)
    ensures IsSlot(e, p.LaneNode(i), q.edge) && IsTag(p, Choosing(i, Some(q.candidate)))
    ensures e[p.LaneNode(i)][q.edge].capacity == 0 <==> Carries(tags, x, Choosing(i, Some(q.candidate))) == 1
  {
    hide Laid, Degree, Carries, Problem.ChoiceObjective;
    var a: nat :| a < |tags| && tags[a] == Choosing(i, Some(q.candidate))
                  && q.edge == Degree(ArcsOf(p, tags)[..a], p.LaneNode(i));
    ArcIsLaid(NodeCount(p), ArcsOf(p, tags), x, a);
    CarriesAt(p, tags, x, a);
  }

  // ---------------------------------------------------------------- the matcher

  /** The lane's entry whose edge is used, if there is one. */
  method FindChoice(p: Problem, e: Edges, i: nat, list: seq<CandidateEdge>, ghost tags: seq<Tag>, ghost x: seq<nat>)
    returns (choice: Option<nat>)
    requires IsBalanced(p, tags, x) && AreArcs(NodeCount(p), ArcsOf(p, tags))
    requires e == Laid(NodeCount(p), ArcsOf(p, tags), x) && i < |p.lanes| && Carries(tags, x, ToLane(i)) == 1
    requires ListsEdges(p, tags, i, list, |p.candidates|)
    ensures IsTag(p, Choosing(i, choice)) && Carries(tags, x, Choosing(i, choice)) == 1
  {
    hide Laid, Carries, Outflow, ArcsOf, IsEntry;
    ghost var chosen := LaneChooses(p, tags, x, i);
    for k := 0 to |list|
      invariant forall l :: 0 <= l < k ==> chosen != Some(list[l].candidate)
    {
      EntryShows(p, tags, x, e, i, list[k]);
      if e[p.LaneNode(i)][list[k].edge].capacity == 0 {
        return Some(list[k].candidate);
      }
    }
    choice := None;
  }

  /** Fills the lanes in the best way. */
  method MatchLanes(laneIndices: seq<nat>, candidates: seq<OptimizerCandidate>) returns (matches: seq<Option<nat>>)
    ensures Problem(laneIndices, candidates).IsBest(matches)
    ensures FillsBest(laneIndices, candidates, matches)
  {
    hide IsLaidOut, Capacity, ListsEdges, Laid, IsCertificate, IsLinked, IsModest, SameShape, IsBalanced, Carries,
         ArcsOf, IsPricing, Worth, Small, Below, Bound, Times, Problem.IsBest, FillsBest;
    var p := Problem(laneIndices, candidates);
    var graph := new MatchGraph(p.Sink() + 1);
    ghost var tags: seq<Tag> := [];
    NothingIsLaid(p, graph.edges);
    var candidateEdges: seq<seq<CandidateEdge>> := [];
    for i := 0 to |laneIndices|
      invariant IsLaidOut(p, tags, graph.edges, i, 0) && |graph.edges| > 0 && AreTags(p, tags)
      invariant Capacity(graph.edges, SOURCE) == i && |candidateEdges| == i
      invariant forall k: nat :: k < i ==> ListsEdges(p, tags, k, candidateEdges[k], |candidates|)
    {
      ghost var before := tags;
      var list;
      list, tags := AddLane(graph, p, i, tags);
      LaidOutTags(p, tags, graph.edges, i + 1, 0);
      forall k: nat | k < i { ListStays(p, before, tags, k, candidateEdges[k], |candidates|); }
      candidateEdges := candidateEdges + [list];
    }
    for j := 0 to |candidates|
      invariant IsLaidOut(p, tags, graph.edges, |laneIndices|, j) && |graph.edges| > 0 && AreTags(p, tags)
      invariant Capacity(graph.edges, SOURCE) == |laneIndices|
      invariant forall k: nat :: k < |laneIndices| ==> ListsEdges(p, tags, k, candidateEdges[k], |candidates|)
    {
      ghost var before := tags;
      var edgeIndex;
      edgeIndex, tags := AddArc(graph, p, p.PlayerNode(j), p.Sink(), NOTHING, tags, FromPlayer(j));
      LaidOutTags(p, tags, graph.edges, |laneIndices|, j + 1);
      forall k: nat | k < |laneIndices| { ListStays(p, before, tags, k, candidateEdges[k], |candidates|); }
    }
    LaidOutIsNetwork(p, tags, graph.edges);
    ghost var arcs, e0 := ArcsOf(p, tags), graph.edges;
    ghost var base := 2 * Times(Bound(p), NodeCount(p)) + 1;
    ghost var first := FirstPotentials(p, tags, base);
    LaidIsLinked(NodeCount(p), arcs, Zeros(|tags|));
    ArcsAreSmall(p, tags);
    SmallArcsAreModest(NodeCount(p), arcs, base, Bound(p));
    var flow;
    ghost var pi;
    flow, pi := graph.SendMaxFlow(SOURCE, p.Sink(), |laneIndices|, first, base, Bound(p));
    CarriedIsLaid(NodeCount(p), arcs, graph.edges);
    ghost var x := Carried(arcs, graph.edges);
    BalanceOfFlow(p, tags, x, e0, graph.edges);
    AllPriced(p, tags, x, pi, base);
    LanesAreServedIff(p, tags, x);
    if flow < |laneIndices| {
      ghost var i: nat :| i < |laneIndices| && Carries(tags, x, ToLane(i)) == 0;
      UnservedReachesSink(p, tags, x, pi, base, i);
    }
    assert flow == |laneIndices|;
    matches := [];
    for i := 0 to |laneIndices|
      invariant |matches| == i && graph.edges == Laid(NodeCount(p), arcs, x)
      invariant forall k: nat :: k < i ==>
                  IsTag(p, Choosing(k, matches[k])) && Carries(tags, x, Choosing(k, matches[k])) == 1
    {
      var choice := FindChoice(p, graph.edges, i, candidateEdges[i], tags, x);
      matches := matches + [choice];
    }
    BestIsFound(p, tags, x, pi, base, matches);
    BestFillsBest(p, matches);
  }

  lemma {:induction false} AllPriced(p: Problem, tags: seq<Tag>, x: seq<nat>, pi: seq<Option<int>>, base: nat)
    requires AreTags(p, tags) && |pi| == NodeCount(p) && AreArcs(|pi|, ArcsOf(p, tags)) && AreUnits(ArcsOf(p, tags), x)
    requires IsCertificate(Laid(|pi|, ArcsOf(p, tags), x), pi, base)
    ensures forall a :: 0 <= a < |tags| ==> IsPriced(ArcsOf(p, tags), x, pi, base, a)
  {
    hide Laid, IsCertificate, IsPriced;
    forall a: nat | a < |tags| ensures IsPriced(ArcsOf(p, tags), x, pi, base, a) {
      CertificatePrices(ArcsOf(p, tags), x, pi, base, a);
    }
  }

  lemma {:induction false} BestIsFound(p: Problem, tags: seq<Tag>, x: seq<nat>, pi: seq<Option<int>>, base: nat,
                                       m: seq<Option<nat>>)
    requires IsBalanced(p, tags, x) && |pi| == NodeCount(p) && AreArcs(|pi|, ArcsOf(p, tags))
    requires forall a :: 0 <= a < |tags| ==> IsPriced(ArcsOf(p, tags), x, pi, base, a)
    requires base > 2 * Times(Bound(p), NodeCount(p)) && |m| == |p.lanes|
    requires |p.lanes| > 0 ==> pi[p.Sink()].Some?
    requires forall i: nat :: i < |m| ==> IsTag(p, Choosing(i, m[i])) && Carries(tags, x, Choosing(i, m[i])) == 1
    ensures p.IsBest(m)
  {
    hide IsBalanced, Carries, IsPriced, Worth, Bound, Times;
    if |p.lanes| > 0 {
      ChosenIsBest(p, tags, x, pi, base, m);
    } else {
      NothingIsBest(p, m);
    }
  }

  lemma {:induction false} NothingIsBest(p: Problem, m: seq<Option<nat>>)
    requires |p.lanes| == 0 && |m| == 0
    ensures p.IsBest(m)
  {
    NothingIsWorthNothing(1);
    WorthFollowsOrder(NOTHING, NOTHING, 1, 0);
  }

  // ---------------------------------------------------------------- which matching that is

  ghost function ScoreSum(p: Problem, m: seq<Option<nat>>, n: nat): int
    requires p.IsMatching(m) && n <= |m|
  {
    if n == 0 then 0
    else ScoreSum(p, m, n - 1) + if m[n - 1].Some? then p.ScoreOf(n - 1, m[n - 1].value).value as int else 0
  }

  ghost function Filled(m: seq<Option<nat>>, n: nat): int
    requires n <= |m|
  {
    if n == 0 then 0 else Filled(m, n - 1) + if m[n - 1].Some? then 1 else 0
  }

  /** A candidate is better than a blank, and than any candidate of a greater uid. */
  ghost predicate IsBetterChoice(p: Problem, a: Option<nat>, b: Option<nat>)
    requires (a.Some? ==> a.value < |p.candidates|) && (b.Some? ==> b.value < |p.candidates|)
  {
    a.Some? && (b.None? || p.Precedes(a.value, b.value))
  }

  /** Greater total score; then more lanes filled; then the better choice in the first lane that differs. */
  ghost predicate IsPreferred(p: Problem, m: seq<Option<nat>>, other: seq<Option<nat>>)
    requires p.IsMatching(m) && p.IsMatching(other)
  {
    var n := |p.lanes|;
    || ScoreSum(p, m, n) > ScoreSum(p, other, n)
    || (ScoreSum(p, m, n) == ScoreSum(p, other, n)
        && (|| Filled(m, n) > Filled(other, n)
            || (Filled(m, n) == Filled(other, n)
                && exists k: nat :: k < n && m[..k] == other[..k] && IsBetterChoice(p, m[k], other[k]))))
  }

  /** The lanes are different lanes of a tactic, in their order. */
  ghost predicate AreInOrder(lanes: seq<nat>) {
    && (forall i :: 0 <= i < |lanes| ==> lanes[i] < TACTIC_LANE_COUNT)
    && forall i, k :: 0 <= i < k < |lanes| ==> lanes[i] < lanes[k]
  }

  ghost function RankOfChoice(p: Problem, choice: Option<nat>): nat
    requires choice.Some? ==> choice.value < |p.candidates|
  {
    if choice.None? then p.BlankRank() else p.RankOf(choice.value)
  }

  /** The tie break at one place: the negated ranks of what fills that lane. */
  ghost function TieAt(p: Problem, m: seq<Option<nat>>, n: nat, l: nat): int
    requires p.IsMatching(m) && n <= |m|
  {
    if n == 0 then 0
    else TieAt(p, m, n - 1, l) - if p.lanes[n - 1] == l then RankOfChoice(p, m[n - 1]) else 0
  }

  /** The parts of the total are a sum of scores, a number of lanes, and the tie breaks at each place. */
  lemma {:induction false} PartsOfTotal(p: Problem, m: seq<Option<nat>>, n: nat, l: nat)
    requires p.IsMatching(m) && n <= |m| && l < TACTIC_LANE_COUNT
    ensures p.Total(m, n).totalScore == ScoreSum(p, m, n) && p.Total(m, n).filledLanes == Filled(m, n)
    ensures p.Total(m, n).uidTieBreak[l] == TieAt(p, m, n, l)
  {
    hide Problem.RankOf, Problem.IsMatching;
    if n > 0 {
      PartsOfTotal(p, m, n - 1, l);
      ChoiceParts(p, m, n - 1, l);
    }
  }

  lemma {:induction false} ChoiceParts(p: Problem, m: seq<Option<nat>>, i: nat, l: nat)
    requires p.IsMatching(m) && i < |m| && l < TACTIC_LANE_COUNT
    ensures var o := p.ChoiceObjective(i, m[i]);
            && o.totalScore == (if m[i].Some? then p.ScoreOf(i, m[i].value).value as int else 0)
            && o.filledLanes == (if m[i].Some? then 1 else 0)
            && o.uidTieBreak[l] == -(if p.lanes[i] == l then RankOfChoice(p, m[i]) as int else 0)
  {
  }

  lemma {:induction false} TiesAgree(p: Problem, m: seq<Option<nat>>, other: seq<Option<nat>>, n: nat, l: nat)
    requires p.IsMatching(m) && p.IsMatching(other) && n <= |m|
    requires forall i :: 0 <= i < n && p.lanes[i] == l ==> m[i] == other[i]
    ensures TieAt(p, m, n, l) == TieAt(p, other, n, l)
  {
    hide Problem.RankOf;
    if n > 0 {
      TiesAgree(p, m, other, n - 1, l);
    }
  }

  /** In different lanes, each place holds one rank. */
  lemma {:induction false} TieIsRank(p: Problem, m: seq<Option<nat>>, n: nat, k: nat)
    requires p.IsMatching(m) && n <= |m| && k < |m| && AreInOrder(p.lanes)
    ensures TieAt(p, m, n, p.lanes[k]) == if k < n then -(RankOfChoice(p, m[k]) as int) else 0
  {
    hide Problem.RankOf;
    if n > 0 {
      TieIsRank(p, m, n - 1, k);
      assert n - 1 < k ==> p.lanes[n - 1] < p.lanes[k];
      assert k < n - 1 ==> p.lanes[k] < p.lanes[n - 1];
    }
  }

  lemma {:induction false} RanksTellChoices(p: Problem, a: Option<nat>, b: Option<nat>)
    requires (a.Some? ==> a.value < |p.candidates|) && (b.Some? ==> b.value < |p.candidates|) && a != b
    ensures IsBetterChoice(p, a, b) <==> RankOfChoice(p, a) < RankOfChoice(p, b)
    ensures RankOfChoice(p, a) != RankOfChoice(p, b)
  {
    hide Problem.RankOf;
    if a.Some? {
      RanksAreLimited(p, a.value);
    }
    if b.Some? {
      RanksAreLimited(p, b.value);
    }
    if a.Some? && b.Some? {
      if p.Precedes(a.value, b.value) {
        RanksFollowOrder(p, a.value, b.value);
      } else {
        RanksFollowOrder(p, b.value, a.value);
      }
    }
  }

  lemma {:induction false} FirstDifference(a: seq<Option<nat>>, b: seq<Option<nat>>) returns (k: nat)
    requires |a| == |b| && a != b
    ensures k < |a| && a[..k] == b[..k] && a[k] != b[k]
  {
    var n := |a| - 1;
    if a[..n] != b[..n] {
      k := FirstDifference(a[..n], b[..n]);
      assert a[..n][..k] == a[..k] && b[..n][..k] == b[..k];
    } else {
      k := n;
      assert a == a[..n] + [a[n]] && b == b[..n] + [b[n]];
    }
  }

  /** Two different matchings with equal scores and fillings first differ in their keys where their lanes first differ. */
  lemma {:induction false} KeysFirstDiffer(p: Problem, m: seq<Option<nat>>, other: seq<Option<nat>>, k: nat)
    requires p.IsMatching(m) && p.IsMatching(other) && AreInOrder(p.lanes)
    requires k < |m| && m[..k] == other[..k] && m[k] != other[k]
    ensures var a, b := p.Total(m, |m|).uidTieBreak, p.Total(other, |m|).uidTieBreak;
            && |a| == |b| == TACTIC_LANE_COUNT && p.lanes[k] < |a| && a[..p.lanes[k]] == b[..p.lanes[k]]
            && a[p.lanes[k]] == -(RankOfChoice(p, m[k]) as int) && b[p.lanes[k]] == -(RankOfChoice(p, other[k]) as int)
  {
    hide Problem.RankOf, Problem.Total, TieAt;
    var n := |m|;
    var a, b := p.Total(m, n).uidTieBreak, p.Total(other, n).uidTieBreak;
    assert p.Total(m, n).Valid() && p.Total(other, n).Valid();
    forall l: nat | l < p.lanes[k] ensures a[l] == b[l] {
      PartsOfTotal(p, m, n, l);
      PartsOfTotal(p, other, n, l);
      forall i: nat | i < n && p.lanes[i] == l ensures m[i] == other[i] {
        assert i < k;
        assert m[i] == m[..k][i] && other[i] == other[..k][i];
      }
      TiesAgree(p, m, other, n, l);
    }
    PartsOfTotal(p, m, n, p.lanes[k]);
    PartsOfTotal(p, other, n, p.lanes[k]);
    TieIsRank(p, m, n, k);
    TieIsRank(p, other, n, k);
  }

  /** The order of objectives is what it is meant to be. */
  lemma {:induction false} PreferredIffBelow(p: Problem, m: seq<Option<nat>>, other: seq<Option<nat>>)
    requires p.IsMatching(m) && p.IsMatching(other) && AreInOrder(p.lanes) && m != other
    ensures IsPreferred(p, m, other) <==> Below(p.Total(other, |p.lanes|), p.Total(m, |p.lanes|))
    ensures p.Total(other, |p.lanes|) != p.Total(m, |p.lanes|)
  {
    hide Problem.RankOf, Problem.Total, IsBelow, Problem.IsMatching, RankOfChoice, IsBetterChoice;
    var n := |p.lanes|;
    MatchingChoices(p, m);
    MatchingChoices(p, other);
    var k := FirstDifference(m, other);
    KeysFirstDiffer(p, m, other, k);
    RanksTellChoices(p, m[k], other[k]);
    var a, b := p.Total(other, n), p.Total(m, n);
    PartsOfTotal(p, m, n, 0);
    PartsOfTotal(p, other, n, 0);
    DecidedAt(a, b, p.lanes[k]);
    if IsPreferred(p, m, other) && a.totalScore == b.totalScore && a.filledLanes == b.filledLanes {
      var l: nat :| l < n && m[..l] == other[..l] && IsBetterChoice(p, m[l], other[l]);
      BetterDiffers(p, m[l], other[l]);
      OnlyOneFirst(m, other, k, l);
    }
  }

  lemma {:induction false} MatchingChoices(p: Problem, m: seq<Option<nat>>)
    requires p.IsMatching(m)
    ensures |m| == |p.lanes| && forall l: nat :: l < |m| && m[l].Some? ==> m[l].value < |p.candidates|
  {
  }

  lemma {:induction false} BetterDiffers(p: Problem, a: Option<nat>, b: Option<nat>)
    requires (a.Some? ==> a.value < |p.candidates|) && (b.Some? ==> b.value < |p.candidates|)
    requires IsBetterChoice(p, a, b)
    ensures a != b
  {
  }

  lemma {:induction false} OnlyOneFirst(a: seq<Option<nat>>, b: seq<Option<nat>>, k: nat, l: nat)
    requires |a| == |b| && k < |a| && l < |a| && a[..k] == b[..k] && a[..l] == b[..l] && a[k] != b[k] && a[l] != b[l]
    ensures k == l
  {
    if k < l {
      PrefixAgrees(a, b, l, k);
    } else if l < k {
      PrefixAgrees(a, b, k, l);
    }
  }

  /**
   The matcher's outcome is the one matching preferred to every other: of greatest total score; among those, with
   most lanes filled; among those, with the lowest uid in the first lane that differs.
   */
  lemma {:induction false} BestIffPreferred(p: Problem, m: seq<Option<nat>>)
    requires AreInOrder(p.lanes)
    ensures p.IsBest(m) <==>
              p.IsMatching(m) && forall other :: p.IsMatching(other) && other != m ==> IsPreferred(p, m, other)
    ensures p.IsBest(m) ==> forall other :: p.IsBest(other) ==> other == m
  {
    hide Problem.Total, Below, IsPreferred;
    if p.IsMatching(m) {
      OneIsBelow(p.Total(m, |p.lanes|), p.Total(m, |p.lanes|));
      forall other | p.IsMatching(other) && other != m
        ensures IsPreferred(p, m, other) <==> !Below(p.Total(m, |p.lanes|), p.Total(other, |p.lanes|))
        ensures IsPreferred(p, m, other) <==> Below(p.Total(other, |p.lanes|), p.Total(m, |p.lanes|))
      {
        PreferredIffBelow(p, m, other);
        OneIsBelow(p.Total(m, |p.lanes|), p.Total(other, |p.lanes|));
      }
    }
  }

  // ---------------------------------------------------------------- in terms of the candidates' own scores

  /** Every candidate fills at most one lane, and has a score in the tactic's lane that it fills. */
  ghost predicate Fills(laneIndices: seq<nat>, candidates: seq<OptimizerCandidate>, m: seq<Option<nat>>) {
    && |m| == |laneIndices|
    && (forall i :: 0 <= i < |m| && m[i].Some? ==>
          && m[i].value < |candidates| && laneIndices[i] < |candidates[m[i].value].laneScores|
          && candidates[m[i].value].laneScores[laneIndices[i]].Some?)
    && forall i, k :: 0 <= i < k < |m| && m[i].Some? ==> m[i] != m[k]
  }

  ghost function SumOfScores(laneIndices: seq<nat>, candidates: seq<OptimizerCandidate>, m: seq<Option<nat>>, n: nat): int
    requires Fills(laneIndices, candidates, m) && n <= |m|
  {
    if n == 0 then 0
    else
      SumOfScores(laneIndices, candidates, m, n - 1)
      + (match m[n - 1]
         case None => 0
         case Some(c) => candidates[c].laneScores[laneIndices[n - 1]].value as int)
  }

  ghost function LanesFilled(m: seq<Option<nat>>): nat { |set i | 0 <= i < |m| && m[i].Some?| }

  /** At the first place where they differ, `m` has a candidate, and the other a blank or one of no lower uid. */
  ghost predicate HasLowerUidFirst(candidates: seq<OptimizerCandidate>, m: seq<Option<nat>>, other: seq<Option<nat>>) {
    exists k :: && 0 <= k < |m| == |other| && m[..k] == other[..k] && m[k] != other[k]
                && m[k].Some? && m[k].value < |candidates|
                && (other[k].Some? ==>
                      && other[k].value < |candidates|
                      && candidates[m[k].value].playerUid <= candidates[other[k].value].playerUid)
  }

  /** What the lanes are filled with is better than any other way to fill them. */
  ghost predicate FillsBest(laneIndices: seq<nat>, candidates: seq<OptimizerCandidate>, m: seq<Option<nat>>) {
    && Fills(laneIndices, candidates, m)
    && forall other: seq<Option<nat>> :: Fills(laneIndices, candidates, other) && other != m ==>
         var n := |laneIndices|;
         var best, less := SumOfScores(laneIndices, candidates, m, n), SumOfScores(laneIndices, candidates, other, n);
         && best >= less
         && (best == less ==> LanesFilled(m) >= LanesFilled(other))
         && (best == less && LanesFilled(m) == LanesFilled(other) && AreInOrder(laneIndices) ==>
               HasLowerUidFirst(candidates, m, other))
  }

  lemma {:induction false} FillsIsMatching(p: Problem, m: seq<Option<nat>>)
    ensures Fills(p.lanes, p.candidates, m) <==> p.IsMatching(m)
  {
  }

  lemma {:induction false} SumsOfScoresAgree(p: Problem, m: seq<Option<nat>>, n: nat)
    requires p.IsMatching(m) && Fills(p.lanes, p.candidates, m) && n <= |m|
    ensures SumOfScores(p.lanes, p.candidates, m, n) == ScoreSum(p, m, n)
  {
    if n > 0 {
      SumsOfScoresAgree(p, m, n - 1);
    }
  }

  ghost function FilledBelow(m: seq<Option<nat>>, n: nat): set<int>
    requires n <= |m|
  {
    set i | 0 <= i < n && m[i].Some?
  }

  lemma {:induction false} FilledIsCounted(m: seq<Option<nat>>, n: nat)
    requires n <= |m|
    ensures |FilledBelow(m, n)| == Filled(m, n)
  {
    if n > 0 {
      FilledIsCounted(m, n - 1);
      assert FilledBelow(m, n) == FilledBelow(m, n - 1) + if m[n - 1].Some? then {n - 1} else {};
    }
  }

  /** The parts of the totals that are not tie breaks, for any lanes. */
  lemma {:induction false} ScoreThenFilling(p: Problem, m: seq<Option<nat>>, other: seq<Option<nat>>)
    requires p.IsBest(m) && p.IsMatching(other)
    ensures var n := |p.lanes|;
            && ScoreSum(p, m, n) >= ScoreSum(p, other, n)
            && (ScoreSum(p, m, n) == ScoreSum(p, other, n) ==> Filled(m, n) >= Filled(other, n))
  {
    hide Problem.Total, IsBelow, ScoreSum, Filled;
    var n := |p.lanes|;
    PartsOfTotal(p, m, n, 0);
    PartsOfTotal(p, other, n, 0);
    var a, b := p.Total(m, n), p.Total(other, n);
    if a.totalScore != b.totalScore {
      DecidedBy(a.Key(), b.Key(), 0);
    } else if a.filledLanes != b.filledLanes {
      assert a.Key()[..1] == b.Key()[..1];
      DecidedBy(a.Key(), b.Key(), 1);
    }
  }

  /** A best matching fills the lanes best, judged by the candidates' own scores and uids. */
  lemma {:induction false} BestFillsBest(p: Problem, m: seq<Option<nat>>)
    requires p.IsBest(m)
    ensures FillsBest(p.lanes, p.candidates, m)
  {
    hide Problem.IsBest, ScoreSum, Filled, SumOfScores;
    assert p.IsMatching(m) by { BestIsMatching(p, m); }
    FillsIsMatching(p, m);
    var n := |p.lanes|;
    forall other: seq<Option<nat>> | Fills(p.lanes, p.candidates, other) && other != m
      ensures SumOfScores(p.lanes, p.candidates, m, n) == ScoreSum(p, m, n) && LanesFilled(m) == Filled(m, n)
      ensures p.IsMatching(other)
      ensures SumOfScores(p.lanes, p.candidates, other, n) == ScoreSum(p, other, n)
      ensures LanesFilled(other) == Filled(other, n)
      ensures ScoreSum(p, m, n) >= ScoreSum(p, other, n)
      ensures ScoreSum(p, m, n) == ScoreSum(p, other, n) ==> Filled(m, n) >= Filled(other, n)
      ensures ScoreSum(p, m, n) == ScoreSum(p, other, n) && Filled(m, n) == Filled(other, n) && AreInOrder(p.lanes) ==>
                HasLowerUidFirst(p.candidates, m, other)
    {
      FillsIsMatching(p, other);
      SumsOfScoresAgree(p, m, n);
      SumsOfScoresAgree(p, other, n);
      FilledIsCounted(m, n);
      FilledIsCounted(other, n);
      assert FilledBelow(m, n) == set i | 0 <= i < |m| && m[i].Some?;
      assert FilledBelow(other, n) == set i | 0 <= i < |other| && other[i].Some?;
      ScoreThenFilling(p, m, other);
      if AreInOrder(p.lanes) && ScoreSum(p, m, n) == ScoreSum(p, other, n) && Filled(m, n) == Filled(other, n) {
        BestIffPreferred(p, m);
        PreferredHasLowerUid(p, m, other);
      }
    }
  }

  lemma {:induction false} BestIsMatching(p: Problem, m: seq<Option<nat>>)
    requires p.IsBest(m)
    ensures p.IsMatching(m)
  {
  }

  lemma {:induction false} PreferredHasLowerUid(p: Problem, m: seq<Option<nat>>, other: seq<Option<nat>>)
    requires p.IsMatching(m) && p.IsMatching(other) && IsPreferred(p, m, other)
    requires ScoreSum(p, m, |p.lanes|) == ScoreSum(p, other, |p.lanes|)
    requires Filled(m, |p.lanes|) == Filled(other, |p.lanes|)
    ensures HasLowerUidFirst(p.candidates, m, other)
  {
    var k: nat :| k < |p.lanes| && m[..k] == other[..k] && IsBetterChoice(p, m[k], other[k]);
  }
}
