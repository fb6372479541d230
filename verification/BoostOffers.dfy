/**
 What a status says about boosts, over every interleaving: boosts are offered only with candidates behind them,
 except after a boost that failed before it could announce itself, until the status is next written.
 */
module BoostOffers {
  import opened Wrappers
  import opened Requests
  import opened BridgeProtocol
  import opened RequestLife
  import opened RequestRuns

  /** Whatever boosts are offered, there are candidates for them. */
  predicate IsBacked(offer: Offer, live: Live) {
    (offer.players == Some(true) ==> live.players) && (offer.staff == Some(true) ==> live.staff)
  }

  ghost predicate OffersAreLive(s: State) { IsBacked(s.status.offer, s.live) }

  predicate OffersBoosts(offer: Offer) { offer.players == Some(true) || offer.staff == Some(true) }

  /** What a worker is about to report is backed. */
  ghost predicate ReportsAreLive(s: State) {
    forall w :: w in s.workers && w.stage.Concluded? ==> IsBacked(w.stage.offer, s.live)
  }

  /** A boost fails before its first status and empties the indexes, although the status in force offers boosts. */
  ghost predicate DropsOffered(s: State, t: State) {
    && |s.workers| == 1 && WorkerStep(s, t, 0) && s.workers[0].stage.Begun? && t.workers[0].stage.Concluded?
    && t.live == Live(false, false) && OffersBoosts(s.status.offer)
  }

  /** However work ends, what it reports is backed; and without an announcement the indexes stay or are emptied. */
  lemma ConclusionsAreBacked(r: BridgeRequest, before: Live, after: Live, how: Stage)
    requires Concludes(r, before, after, how)
    ensures how.Concluded? && IsBacked(how.offer, after)
    ensures !how.announced ==> after == before || after == Live(false, false)
  {
  }

  /** A step with the same indexes that keeps the offer, or makes none or one that is backed. */
  ghost predicate KeepsOffer(s: State, t: State) {
    t.live == s.live && (t.status.offer == s.status.offer || IsBacked(t.status.offer, t.live))
  }

  lemma PollKeepsOffer(s: State, t: State)
    requires StatusInv(s) && PollStep(s, t)
    ensures KeepsOffer(s, t)
    ensures forall w :: w in t.workers && w.stage.Concluded? ==> w in s.workers
  {
    hide FileStep, RoundStep, OpeningOffer, StatusInv;
    if HandlesFile(s.poll) {
      FileStepKeeps(s, t);
    } else {
      RoundStepKeeps(s, t);
      RoundKeepsOffer(s, t);
    }
  }

  lemma RoundKeepsOffer(s: State, t: State)
    requires StatusInv(s) && RoundStep(s, t)
    ensures t.status.offer == s.status.offer || t.status.offer == NO_OFFER
    ensures forall w :: w in t.workers && w.stage.Concluded? ==> w in s.workers
  {
    hide OpeningOffer;
  }

  lemma WorkerKeepsOffer(s: State, t: State)
    requires GateInv(s) && StatusInv(s) && |s.workers| == 1 && WorkerStep(s, t, 0) && ReportsAreLive(s)
    ensures ReportsAreLive(t)
    ensures KeepsOffer(s, t)
            || (s.workers[0].stage.Working? && OffersAreLive(t) && OffersAreLive(s))
            || (s.workers[0].stage.Begun? && t.status.offer == s.status.offer && t.live == Live(false, false)
                && t.workers[0].stage.Concluded?)
  {
    hide Concludes;
    assert s.workers[0] in s.workers;
    if !s.workers[0].stage.Concluded? && WorkEnds(s, t, 0, s.workers[0].stage.Working?) {
      ConclusionsAreBacked(s.workers[0].request, s.live, t.live, t.workers[0].stage);
    }
  }

  /**
   Offers stay backed in every step except exactly one: a boost that empties the indexes without having announced
   itself. Once they are not, they are as they were until a step makes them backed again.
   */
  lemma OffersDieIff(s: State, t: State)
    requires GateInv(s) && StatusInv(s) && ReportsAreLive(s) && Next(s, t)
    ensures ReportsAreLive(t)
    ensures OffersAreLive(s) ==> (OffersAreLive(t) <==> !DropsOffered(s, t))
    ensures !OffersAreLive(s) ==> OffersAreLive(t) || t.status.offer == s.status.offer
  {
    hide GateInv, StatusInv, PollStep, AppStep, Tick, WorkerStep;
    if PollStep(s, t) {
      PollKeepsOffer(s, t);
    } else if AppStep(s, t) || Tick(s, t) {
      OthersKeepStatus(s, t);
    } else {
      var w: nat :| w < |s.workers| && WorkerStep(s, t, w);
      OnlyOne(s, w);
      WorkerKeepsOffer(s, t);
    }
  }

  lemma OnlyOne(s: State, i: nat)
    requires GateInv(s) && i < |s.workers|
    ensures i == 0 && |s.workers| == 1
  {
  }

  /** Offers were dropped at `k` and have not been written since. */
  ghost predicate DroppedSince(run: seq<State>, k: nat, n: nat) {
    && k < n < |run| && DropsOffered(run[k], run[k + 1])
    && forall i :: k < i <= n ==> run[i].status.offer == run[k].status.offer
  }

  /**
   In every run, boosts are offered with candidates behind them, or a boost has failed before it could announce
   itself and the status has offered the same ever since.
   */
  lemma {:induction false} OffersAreLiveOrDropped(run: seq<State>, n: nat)
    requires IsRun(run) && n < |run|
    ensures ReportsAreLive(run[n])
    ensures OffersAreLive(run[n]) || exists k: nat :: DroppedSince(run, k, n)
  {
    hide Next, Init, ReportsAreLive, OffersAreLive, DropsOffered;
    if n == 0 {
      StartsBacked(run[0]);
    } else {
      OffersAreLiveOrDropped(run, n - 1);
      StatusAt(run, n - 1);
      var s, t := run[n - 1], run[n];
      assert Next(s, t);
      OffersDieIff(s, t);
      if !OffersAreLive(t) {
        if OffersAreLive(s) {
          DropKeepsStatus(s, t);
          assert DroppedSince(run, n - 1, n);
        } else {
          var k: nat :| DroppedSince(run, k, n - 1);
          assert DroppedSince(run, k, n);
        }
      }
    }
  }

  lemma StartsBacked(s: State)
    requires Init(s)
    ensures ReportsAreLive(s) && OffersAreLive(s)
  {
  }

  lemma StatusAt(run: seq<State>, i: nat)
    requires IsRun(run) && i < |run|
    ensures GateInv(run[i]) && StatusInv(run[i])
  {
    hide IsRun, GateInv, StatusInv, RequestInv;
    RunsKeepInv(run, i);
  }

  lemma DropKeepsStatus(s: State, t: State)
    requires DropsOffered(s, t)
    ensures t.status.offer == s.status.offer
  {
    hide Concludes, OpeningOffer;
  }

  // ---------------------------------------------------------------- an offer with nothing behind it

  /** The worker announces itself, ends its work in this way, reports and leaves. */
  lemma WorkerReports(run: seq<State>, s: State, live: Live, phase: Phase) returns (longer: seq<State>, t: State)
    requires EndsIn(run, s) && |s.workers| == 1 && s.workers[0].stage.Begun? && s.busy
    requires Concludes(s.workers[0].request, s.live, live, Concluded(phase, OfferOf(live), true))
    ensures EndsIn(longer, t) && run <= longer
    ensures t == s.(busy := false, workers := [], live := live, status := t.status)
    ensures t.status.phase == phase && t.status.offer == OfferOf(live)
  {
    hide EndsIn, Concludes, IsRun, FileStep, RoundStep, OpeningOffer;
    var w := s.workers[0];
    var working := s.(status := Status(Scanning, w.request.requestId, s.status.modules, OpeningOffer(w.request)),
                      workers := [w.(stage := Working)]);
    longer := WorkerExtends(run, s, working);
    var how := Concluded(phase, OfferOf(live), true);
    var concluded := working.(live := live, workers := [w.(stage := how)]);
    assert WorkEnds(working, concluded, 0, true);
    longer := WorkerExtends(longer, working, concluded);
    var reported := concluded.(status := Status(phase, w.request.requestId, s.status.modules, OfferOf(live)),
                               workers := [w.(stage := Reported(false))]);
    longer := WorkerExtends(longer, concluded, reported);
    t := reported.(busy := false, workers := []);
    assert reported.workers[..0] + reported.workers[1..] == [];
    longer := WorkerExtends(longer, reported, t);
  }

  lemma WorkerExtends(run: seq<State>, s: State, t: State) returns (longer: seq<State>)
    requires EndsIn(run, s) && |s.workers| > 0 && WorkerStep(s, t, 0)
    ensures longer == run + [t] && EndsIn(longer, t)
  {
    hide EndsIn, WorkerStep, PollStep, AppStep;
    longer := Extend(run, s, t);
  }

  /**
   A run that ends at rest, nobody working, with boosts offered and no candidates left: a boost failed before it
   could announce itself, and could not report either.
   */
  lemma OffersMayOutliveCandidates(s0: State, dump: BridgeRequest, boost: BridgeRequest) returns (run: seq<State>)
    requires Init(s0) && Acceptable(dump, s0.clock) && IsDump(dump)
    requires Acceptable(boost, s0.clock) && !IsDump(boost)
    ensures [s0] <= run && IsRun(run)
    ensures var s := run[|run| - 1];
            && IsSettled(s) && s.status.phase == Ready && s.status.offer == OfferOf(Live(true, true))
            && s.live == Live(false, false) && !OffersAreLive(s)
  {
    hide Acceptable, CleanStep, IsRun, AppRenames, IsDump, PollStep;
    var s;
    run, s := RunToWork(s0, dump);
    run, s := WorkerReports(run, s, Live(true, true), Ready);
    run := Installs(run, s, boost);
    var x := Written(boost, s.writes);
    run, s := ReadsIt(run, Installed(s, boost), x);
    OnwardIsClean(s);
    run := PollExtends(run, s, Onward(s));
    run, s := EntersAndStarts(run, Onward(s), boost);
    run, s := WorkerFinishes(run, s);
  }
}
