/** What all current-ability boosts of one player add up to, in a row or among boosts of other persons. */
module AbilityRuns {
  import opened Wrappers
  import opened Requests
  import opened ScanModel
  import opened ProcessMemory
  import opened PersonLayout
  import opened Boosts
  import opened MutationIndexes
  import Mentality
  import opened PlayerBoosts
  import opened Coherence
  import opened LiveBridge

  /** The ability after one boost after another. */
  function BoostedAll(ca: int, pa: int, increments: seq<int>): int {
    if increments == [] then ca
    else Boosted(BoostedAll(ca, pa, increments[..|increments| - 1]), pa, increments[|increments| - 1])
  }

  function Sum(increments: seq<int>): int {
    if increments == [] then 0 else Sum(increments[..|increments| - 1]) + increments[|increments| - 1]
  }

  function Cap(pa: int): int { Min(pa, MAX_ABILITY) }

  predicate Increments(increments: seq<int>) {
    forall i :: 0 <= i < |increments| ==> increments[i] == 5 || increments[i] == 10
  }

  /** Every boost of the run raised the ability. */
  predicate Rising(ca: int, pa: int, increments: seq<int>) {
    forall k :: 0 <= k < |increments| ==>
      BoostedAll(ca, pa, increments[..k]) < BoostedAll(ca, pa, increments[..k + 1])
  }

  /** A run of boosts is one boost by the sum. */
  lemma {:induction false} RunTelescopes(ca: int, pa: int, increments: seq<int>)
    requires ca <= Cap(pa) && Increments(increments)
    ensures BoostedAll(ca, pa, increments) == Min(ca + Sum(increments), Cap(pa))
    ensures 5 * |increments| <= Sum(increments)
  {
    if increments != [] {
      RunTelescopes(ca, pa, increments[..|increments| - 1]);
    }
  }

  /** Every boost raises the ability exactly when the cap is out of reach of all but the last. */
  lemma RisingRuns(ca: int, pa: int, increments: seq<int>)
    requires ca <= Cap(pa) && Increments(increments) && increments != []
    ensures Rising(ca, pa, increments) <==> ca + Sum(increments[..|increments| - 1]) < Cap(pa)
    ensures Rising(ca, pa, increments) ==> |increments| <= (Cap(pa) - ca + 4) / 5
  {
    var n := |increments| - 1;
    RunTelescopes(ca, pa, increments[..n]);
    assert increments[..n + 1] == increments;
    assert increments[..n + 1][..n] == increments[..n];
    if ca + Sum(increments[..n]) < Cap(pa) {
      forall k | 0 <= k < |increments|
        ensures BoostedAll(ca, pa, increments[..k]) < BoostedAll(ca, pa, increments[..k + 1])
      {
        RunTelescopes(ca, pa, increments[..k]);
        SumGrows(increments[..n], k);
        assert increments[..n][..k] == increments[..k] && increments[..k + 1][..k] == increments[..k];
      }
    }
  }

  /** The closed form of a run, and how long it can be. */
  predicate AddsUp(ca: int, pa: int, increments: seq<int>) {
    increments != [] ==>
      BoostedAll(ca, pa, increments) == Min(ca + Sum(increments), Cap(pa)) && |increments| <= (Cap(pa) - ca + 4) / 5
  }

  /** What a run of raises adds up to and how long it can be. */
  lemma RaisesAddUp(ca: int, pa: int, increments: seq<int>)
    requires Increments(increments) && Rising(ca, pa, increments)
    ensures AddsUp(ca, pa, increments)
  {
    if increments != [] {
      assert BoostedAll(ca, pa, increments[..0]) < BoostedAll(ca, pa, increments[..1]);
      assert increments[..1][..0] == increments[..0] == [];
      hide Rising;
      RunTelescopes(ca, pa, increments);
      RisingRuns(ca, pa, increments);
    }
  }

  lemma {:induction false} SumGrows(increments: seq<int>, k: nat)
    requires k <= |increments| && Increments(increments)
    ensures Sum(increments[..k]) <= Sum(increments)
  {
    if k < |increments| {
      var n := |increments| - 1;
      SumGrows(increments[..n], k);
      assert increments[..n][..k] == increments[..k];
    } else {
      assert increments[..k] == increments;
    }
  }

  /** The increments that the first requests ask for. */
  function Asked(requests: seq<BridgeRequest>): seq<int> {
    seq(|requests|, i requires 0 <= i < |requests| => IncrementOf(requests[i]))
  }

  function IncrementOf(r: BridgeRequest): int {
    if r.currentAbilityIncrement.Some? then r.currentAbilityIncrement.value else 0
  }

  lemma NextIsIncrement(increments: seq<int>, next: int)
    requires Increments(increments) && (next == 5 || next == 10)
    ensures Increments(increments + [next])
  {
  }

  /** One more raise of a run of raises. */
  lemma OneMoreRise(ca: int, pa: int, increments: seq<int>, next: int)
    requires Increments(increments) && Rising(ca, pa, increments) && (next == 5 || next == 10)
    requires BoostedAll(ca, pa, increments) < Boosted(BoostedAll(ca, pa, increments), pa, next)
    ensures BoostedAll(ca, pa, increments + [next]) == Boosted(BoostedAll(ca, pa, increments), pa, next)
    ensures Increments(increments + [next]) && Rising(ca, pa, increments + [next]) && AddsUp(ca, pa, increments + [next])
  {
    hide Boosted, AddsUp, Increments;
    var n, after := |increments|, increments + [next];
    assert after[..n] == increments && after[..n + 1] == after;
    NextIsIncrement(increments, next);
    forall k | 0 <= k < |after| ensures BoostedAll(ca, pa, after[..k]) < BoostedAll(ca, pa, after[..k + 1]) {
      if k < n {
        assert after[..k] == increments[..k] && after[..k + 1] == increments[..k + 1];
      }
    }
    RaisesAddUp(ca, pa, after);
  }

  lemma NoRaises(ca: int, pa: int)
    ensures Rising(ca, pa, []) && AddsUp(ca, pa, []) && Increments([])
  {
  }

  lemma CompletedRaise(r: Execution, request: BridgeRequest, before: Image, after: Image, peopleBefore: People,
                       peopleAfter: People, layout: MutationLayout, c: PersonCandidate)
    requires request.operation == Some(BOOST_CURRENT_ABILITY)
    requires Completed(r, request, before, after, peopleBefore, peopleAfter, layout, c)
    ensures c.ca < Boosted(c.ca, c.pa, IncrementOf(request))
    ensures peopleAfter == peopleBefore[c.uid := c.(ca := Boosted(c.ca, c.pa, IncrementOf(request)))]
  {
  }

  /** A refusal at the limit happens only at the cap itself. */
  lemma RefusedAtCap(request: BridgeRequest, ca: int, pa: int)
    requires NamesBoost(request) && NamesIncrement(request)
    requires request.expectedCurrentAbility == Some(ca) && request.expectedPotentialAbility == Some(pa)
    requires Boosted(ca, pa, IncrementOf(request)) <= ca
    ensures ca == Cap(pa)
  {
  }

  /** How a player's index entry relates to the one before a run that granted these increments. */
  predicate Raised(c: PersonCandidate, people: People, increments: seq<int>) {
    && Increments(increments) && Rising(c.ca, c.pa, increments) && AddsUp(c.ca, c.pa, increments)
    && (c.uid in people ==> people[c.uid] == c.(ca := BoostedAll(c.ca, c.pa, increments)))
  }

  lemma StartsRaised(c: PersonCandidate, people: People)
    requires c.uid in people && people[c.uid] == c
    ensures Raised(c, people, [])
  {
    NoRaises(c.ca, c.pa);
  }

  /**
   Boosts a player once more. The boost is done and adds its increment, or it is refused and leaves the entry
   alone; a refusal at the limit means that the entry stands at the cap.
   */
  method BoostOnceMore(bridge: Bridge, ghost c0: PersonCandidate, request: BridgeRequest, ghost increments: seq<int>)
    returns (failure: BoostFailure)
    requires bridge.Coherent() && c0.uid in bridge.players.people && Raised(c0, bridge.players.people, increments)
    requires request.operation == Some(BOOST_CURRENT_ABILITY) && NamesIncrement(request)
    requires request.playerUid == Some(c0.uid)
    modifies bridge.memory`image, bridge.players`people
    ensures c0.uid in bridge.players.people
    ensures Raised(c0, bridge.players.people,
                   if failure.NoBoostFailure? then increments + [IncrementOf(request)] else increments)
    ensures failure.CurrentAbilityAtLimit? ==> bridge.players.people[c0.uid].ca == Cap(c0.pa)
    ensures !failure.PartialRollbackUnverified? ==> bridge.Coherent()
  {
    hide InStepWithMemory, Completed, NamesBoost, LiveMatches, SpreadOut, OnlyAbilityDiffers,
         Mentality.OnlyMentalityDiffers, Rising, AddsUp, Boosted, BoostedAll, Increments, LayoutsAgree;
    bridge.ReadyForBoosts();
    ghost var before, people := bridge.memory.image, bridge.players.people;
    var r, c, layout := bridge.playerBoosts.Execute(request, bridge.gameVersion, bridge.memory);
    failure := r.failure;
    if r.succeeded {
      BoostInStep(r, request, before, bridge.memory.image, layout, people, bridge.staff.people, bridge.players.people, c);
      CompletedRaise(r, request, before, bridge.memory.image, people, bridge.players.people, layout, c);
      OneMoreRise(c0.ca, c0.pa, increments, IncrementOf(request));
    } else if failure.CurrentAbilityAtLimit? {
      RefusedAtCap(request, c.ca, c.pa);
    }
  }

  /**
   Boosts one player again and again until a boost does not succeed. Memory and index then hold the ability
   that the successful boosts add up to; if the last one was refused at the limit, that is the cap.
   */
  method BoostInTurn(bridge: Bridge, uid: Word32, requests: seq<BridgeRequest>) returns (done: nat, last: BoostFailure)
    requires bridge.Coherent() && uid in bridge.players.people
    requires forall r :: r in requests ==>
               r.operation == Some(BOOST_CURRENT_ABILITY) && NamesIncrement(r) && r.playerUid == Some(uid)
    modifies bridge.memory`image, bridge.players`people
    ensures done <= |requests| && (last.NoBoostFailure? <==> done == |requests|)
    ensures var c, increments := old(bridge.players.people[uid]), Asked(requests[..done]);
            && uid in bridge.players.people
            && bridge.players.people[uid] == c.(ca := BoostedAll(c.ca, c.pa, increments))
            && Rising(c.ca, c.pa, increments) && AddsUp(c.ca, c.pa, increments)
            && (last.CurrentAbilityAtLimit? ==> bridge.players.people[uid].ca == Cap(c.pa))
    ensures !last.PartialRollbackUnverified? ==> bridge.Coherent()
  {
    hide InStepWithMemory, LayoutsAgree, Rising, AddsUp, BoostedAll, Increments, Cap, Asked, NamesIncrement;
    ghost var c0 := bridge.players.people[uid];
    done, last := 0, NoBoostFailure;
    StartsRaised(c0, bridge.players.people);
    NothingAsked(requests);
    while done < |requests|
      invariant done <= |requests| && bridge.Coherent() && uid in bridge.players.people && last.NoBoostFailure?
      invariant Raised(c0, bridge.players.people, Asked(requests[..done]))
    {
      last := BoostOnceMore(bridge, c0, requests[done], Asked(requests[..done]));
      if !last.NoBoostFailure? {
        return;
      }
      OneMoreAsked(requests, done);
      done := done + 1;
    }
  }

  lemma NothingAsked(requests: seq<BridgeRequest>)
    ensures Asked(requests[..0]) == []
  {
  }

  lemma OneMoreAsked(requests: seq<BridgeRequest>, n: nat)
    requires n < |requests|
    ensures Asked(requests[..n + 1]) == Asked(requests[..n]) + [IncrementOf(requests[n])]
  {
  }

  // ---------------------------------------------------------------- among boosts of other persons

  /** This job, if it is done, raises the ability of this player. */
  predicate Raises(uid: Word32, job: Job) {
    job.BoostPlayer? && job.request.operation == Some(BOOST_CURRENT_ABILITY) && job.request.playerUid == Some(uid)
  }

  /** The increments by which the jobs that were done raised the player. */
  function Granted(uid: Word32, jobs: seq<Job>, ready: seq<bool>): (increments: seq<int>)
    requires |ready| <= |jobs|
    ensures |increments| <= |ready|
  {
    if ready == [] then []
    else
      var n := |ready| - 1;
      var before := Granted(uid, jobs, ready[..n]);
      if ready[n] && Raises(uid, jobs[n]) then before + [IncrementOf(jobs[n].request)] else before
  }

  lemma OneMoreGrant(uid: Word32, jobs: seq<Job>, ready: seq<bool>, done: bool)
    requires |ready| < |jobs|
    ensures Granted(uid, jobs, ready + [done]) ==
              if done && Raises(uid, jobs[|ready|])
              then Granted(uid, jobs, ready) + [IncrementOf(jobs[|ready|].request)] else Granted(uid, jobs, ready)
  {
    assert (ready + [done])[..|ready|] == ready;
  }

  /** A completed boost raises the player if it is one of that player's ability, and leaves the entry alone if not. */
  lemma CompletedMoves(c0: PersonCandidate, r: Execution, request: BridgeRequest, before: Image, after: Image,
                       people: People, peopleAfter: People, layout: MutationLayout, c: PersonCandidate,
                       increments: seq<int>)
    requires Raised(c0, people, increments) && c.uid in people && c == people[c.uid] && request.playerUid == Some(c.uid)
    requires Completed(r, request, before, after, people, peopleAfter, layout, c)
    ensures Raised(c0, peopleAfter, if request.operation == Some(BOOST_CURRENT_ABILITY) && c.uid == c0.uid
                                    then increments + [IncrementOf(request)] else increments)
  {
    hide Rising, AddsUp, Boosted, BoostedAll, Increments, MentalityLifted;
    if request.operation == Some(BOOST_CURRENT_ABILITY) {
      CompletedRaise(r, request, before, after, people, peopleAfter, layout, c);
      if c.uid == c0.uid {
        OneMoreRise(c0.ca, c0.pa, increments, IncrementOf(request));
      }
    }
  }

  method BoostOne(bridge: Bridge, ghost c0: PersonCandidate, job: Job, ghost increments: seq<int>) returns (done: bool)
    requires bridge.Coherent() && !job.Dump? && Raised(c0, bridge.players.people, increments)
    modifies bridge.memory`image, bridge.players, bridge.staff
    ensures bridge.Coherent()
    ensures Raised(c0, bridge.players.people, if done && Raises(c0.uid, job) then increments + [IncrementOf(job.request)]
                                              else increments)
  {
    hide InStepWithMemory, Completed, LiveMatches, OnlyOnePersonDiffers, SamePlaces, LayoutsAgree, Rising, AddsUp,
         Increments, BoostedAll;
    ghost var before, people := bridge.memory.image, bridge.players.people;
    var offer;
    match job {
      case BoostPlayer(request, detected, cancelled) =>
        done, offer := bridge.RunPlayerBoost(request, detected, cancelled);
        if done {
          ghost var r, c, layout :|
            && old(bridge.playerBoosts.Located(request, bridge.gameVersion, bridge.memory.image, c, layout))
            && Completed(r, request, before, bridge.memory.image, people, bridge.players.people, layout, c);
          CompletedMoves(c0, r, request, before, bridge.memory.image, people, bridge.players.people, layout, c,
                         increments);
        }
      case BoostStaff(request, detected, cancelled) =>
        done, offer := bridge.RunStaffBoost(request, detected, cancelled);
    }
  }

  /**
   Any boosts of any persons, some done and some refused: as long as the player stays indexed, memory and index
   hold the ability that the boosts of that player which were done add up to, capped once.
   */
  method BoostAmongOthers(bridge: Bridge, uid: Word32, jobs: seq<Job>) returns (ready: seq<bool>)
    requires bridge.Coherent() && uid in bridge.players.people
    requires forall j :: j in jobs ==> !j.Dump?
    modifies bridge.memory`image, bridge.players, bridge.staff
    ensures |ready| == |jobs| && bridge.Coherent()
    ensures Raised(old(bridge.players.people[uid]), bridge.players.people, Granted(uid, jobs, ready))
  {
    hide InStepWithMemory, Completed, NamesBoost, LiveMatches, SpreadOut, OnlyAbilityDiffers,
         Mentality.OnlyMentalityDiffers, Raised, OnlyOnePersonDiffers, SamePlaces, LayoutsAgree, Granted;
    ghost var c0 := bridge.players.people[uid];
    ready := [];
    StartsRaised(c0, bridge.players.people);
    for i := 0 to |jobs|
      invariant |ready| == i && bridge.Coherent()
      invariant Raised(c0, bridge.players.people, Granted(uid, jobs, ready))
    {
      assert jobs[i] in jobs;
      ghost var people := bridge.players.people;
      var done := BoostOne(bridge, c0, jobs[i], Granted(uid, jobs, ready));
      OneMoreGrant(uid, jobs, ready, done);
      ready := ready + [done];
    }
  }
}
