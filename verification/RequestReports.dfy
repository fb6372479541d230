/**
 Who reports what: every status is the initial one or was written by the worker of a request, or for a request
 that was rejected, and a request is reported as done only by the worker that has done it.
 */
module RequestReports {
  import opened Wrappers
  import opened Requests
  import opened BridgeProtocol

  // ---------------------------------------------------------------- reports

  /** The same but for the module flags. */
  predicate SameReport(a: Status, b: Status) {
    a.phase == b.phase && a.requestId == b.requestId && a.offer == b.offer
  }

  predicate IsReport(status: Status, phase: Phase, requestId: Option<string>, offer: Offer) {
    status.phase == phase && status.requestId == requestId && status.offer == offer
  }

  /** The only worker begins its work and says so. */
  predicate Announces(s: State, t: State) {
    && |s.workers| == 1 && s.workers[0].stage == Begun
    && t.workers == [Worker(s.workers[0].request, Working)]
    && t.status.phase == Scanning && t.status.requestId == s.workers[0].request.requestId
  }

  /** The only worker reports how its work has ended. */
  predicate Reports(s: State, t: State) {
    && |s.workers| == 1 && s.workers[0].stage.Concluded?
    && t.workers == [Worker(s.workers[0].request, Reported(false))]
    && IsReport(t.status, s.workers[0].stage.phase, s.workers[0].request.requestId, s.workers[0].stage.offer)
  }

  /** The poll thread reports that a request was rejected. */
  predicate Refuses(s: State, t: State) {
    && s.poll.Rejecting? && t.poll == Checking && t.workers == s.workers
    && IsReport(t.status, Failed, Some(s.poll.observedId), Offer(None, None))
  }

  lemma StepReports(s: State, t: State)
    requires GateInv(s) && StatusInv(s) && Next(s, t)
    ensures SameReport(t.status, s.status) || Announces(s, t) || Reports(s, t) || Refuses(s, t)
  {
    hide FileStep, RoundStep, AppStep, WorkerStep;
    if PollStep(s, t) {
      if HandlesFile(s.poll) {
        FileStepKeeps(s, t);
      } else {
        RoundReports(s, t);
      }
    } else if AppStep(s, t) || Tick(s, t) {
      OthersKeepStatus(s, t);
    } else {
      var w: nat :| w < |s.workers| && WorkerStep(s, t, w);
      WorkerReports(s, t);
    }
  }

  lemma RoundReports(s: State, t: State)
    requires GateInv(s) && StatusInv(s) && RoundStep(s, t)
    ensures SameReport(t.status, s.status) || Refuses(s, t)
  {
  }

  lemma WorkerReports(s: State, t: State)
    requires |s.workers| == 1 && WorkerStep(s, t, 0)
    ensures SameReport(t.status, s.status) || Announces(s, t) || Reports(s, t)
  {
    hide Concludes, OpeningOffer;
  }

  /** Since that step nothing but the module flags of the status has changed. */
  ghost predicate StandsSince(run: seq<State>, k: nat, i: nat)
    requires k <= i < |run|
  {
    forall j :: k <= j <= i ==> SameReport(run[j].status, run[i].status)
  }

  /** Every status is the initial one or was written in one of these three ways, and has stood since. */
  lemma {:induction false} EveryReportHasAnAuthor(run: seq<State>, i: nat) returns (k: nat)
    requires IsRun(run) && i < |run|
    ensures k <= i && StandsSince(run, k, i)
    ensures k > 0 ==> Announces(run[k - 1], run[k]) || Reports(run[k - 1], run[k]) || Refuses(run[k - 1], run[k])
  {
    hide Next, Announces, Reports, Refuses;
    if i == 0 {
      k := 0;
    } else {
      RunsKeepInv(run, i - 1);
      assert Next(run[i - 1], run[i]);
      StepReports(run[i - 1], run[i]);
      if SameReport(run[i].status, run[i - 1].status) {
        k := EveryReportHasAnAuthor(run, i - 1);
      } else {
        k := i;
      }
    }
  }

  // ---------------------------------------------------------------- requests behind the reports

  /** The poll thread has read this request, has found it malformed or outdated, and knows its identity. */
  predicate IsTurnedDown(s: State, id: string) {
    && s.poll.Consuming? && s.poll.parsed.request.requestId == Some(id)
    && var r, now := s.poll.parsed.request, s.poll.now;
       !WellFormed(r) || now < r.createdAtUtc || now - r.createdAtUtc > 30
  }

  lemma RejectingBegins(s: State, t: State)
    requires Next(s, t) && t.poll.Rejecting?
    ensures s.poll == t.poll || IsTurnedDown(s, t.poll.observedId)
  {
    hide IsForceScan, WellFormed, WorkerStep, AppStep;
    if !PollStep(s, t) {
      if AppStep(s, t) || Tick(s, t) {
        OthersKeepStatus(s, t);
      } else {
        var w: nat :| w < |s.workers| && WorkerStep(s, t, w);
        WorkerKeeps(s, t, w);
      }
    }
  }

  /** Who is about to be reported as rejected has been turned down. */
  lemma {:induction false} RejectedWasTurnedDown(run: seq<State>, i: nat) returns (k: nat)
    requires IsRun(run) && i < |run| && run[i].poll.Rejecting?
    ensures k < i && IsTurnedDown(run[k], run[i].poll.observedId)
  {
    hide Next, IsTurnedDown;
    assert i > 0;
    assert Next(run[i - 1], run[i]);
    RejectingBegins(run[i - 1], run[i]);
    if run[i - 1].poll == run[i].poll {
      k := RejectedWasTurnedDown(run, i - 1);
    } else {
      k := i - 1;
    }
  }

  /** A manual scan is a full dump of men with an identity of its own. */
  predicate IsManualScan(r: BridgeRequest) {
    && r.protocolVersion == 1 && r.operation == Some("full-dump") && r.playerDatabaseScope == Some("men")
    && r.requestId.Some? && |r.requestId.value| > 11 && r.requestId.value[..11] == "force-scan-"
  }

  lemma WorkWasAskedFor(run: seq<State>, i: nat, w: Worker)
    requires IsRun(run) && i < |run| && w in run[i].workers
    ensures IsManualScan(w.request)
            || exists k :: 0 <= k < |run[i].accepted| && run[i].accepted[k].stamped.request == w.request
  {
    hide Next, Linked, Acceptable;
    RunsKeepInv(run, i);
    assert AskedFor(run[i], w.request);
    if IsForceScan(w.request) {
      ForceScanIsManual(w.request);
    } else {
      var a :| a in run[i].accepted && a.stamped.request == w.request;
      var k :| 0 <= k < |run[i].accepted| && run[i].accepted[k] == a;
    }
  }

  lemma ForceScanIsManual(r: BridgeRequest)
    requires IsForceScan(r)
    ensures IsManualScan(r)
  {
    var id := r.requestId.value;
    assert id[..|"force-scan-"|] == "force-scan-";
  }

  /**
   A request is reported as ready only if a worker on it has concluded so and has written exactly this report:
   its identity, and whether boosts are offered. The report has stood since.
   */
  lemma ReadyWasConcluded(run: seq<State>, i: nat) returns (k: nat)
    requires IsRun(run) && i < |run| && run[i].status.phase == Ready
    ensures 0 < k <= i && StandsSince(run, k, i)
    ensures |run[k - 1].workers| == 1
    ensures var w := run[k - 1].workers[0];
            && w.stage.Concluded? && w.stage.phase == Ready
            && run[k].workers == [Worker(w.request, Reported(false))]
            && run[i].status.requestId == w.request.requestId && run[i].status.offer == w.stage.offer
  {
    hide Next;
    k := EveryReportHasAnAuthor(run, i);
    assert SameReport(run[k].status, run[i].status);
    assert Init(run[0]);
  }

  /** What nobody asked for is never reported as ready. */
  lemma UnknownIsNeverReady(run: seq<State>, i: nat, id: string)
    requires IsRun(run) && i < |run|
    requires forall k :: 0 <= k < |run[i].accepted| ==> run[i].accepted[k].stamped.request.requestId != Some(id)
    requires |id| <= 11 || id[..11] != "force-scan-"
    ensures run[i].status.phase == Ready ==> run[i].status.requestId.Some? && run[i].status.requestId != Some(id)
  {
    hide Next, IsRun, StandsSince;
    if run[i].status.phase == Ready {
      var k := ReadyWasConcluded(run, i);
      var w := run[k - 1].workers[0];
      WorkWasAskedFor(run, k - 1, w);
      HistoryOnlyGrows(run, k - 1, i);
      AcceptedHaveNames(run, k - 1);
    }
  }

  lemma AcceptedHaveNames(run: seq<State>, i: nat)
    requires IsRun(run) && i < |run|
    ensures forall k :: 0 <= k < |run[i].accepted| ==> run[i].accepted[k].stamped.request.requestId.Some?
  {
    hide Next, AskedFor;
    RunsKeepInv(run, i);
    forall k | 0 <= k < |run[i].accepted| ensures run[i].accepted[k].stamped.request.requestId.Some? {
      assert run[i].accepted[k] in run[i].accepted;
    }
  }

  lemma {:induction false} HistoryOnlyGrows(run: seq<State>, i: nat, j: nat)
    requires IsRun(run) && i <= j < |run|
    ensures run[i].accepted <= run[j].accepted
    decreases j
  {
    hide PollStep, WorkerStep, AppStep, Tick, Init;
    if i < j {
      HistoryOnlyGrows(run, i, j - 1);
      var s, t := run[j - 1], run[j];
      assert Next(s, t);
      if PollStep(s, t) {
        PollKeepsHistory(s, t);
      } else if AppStep(s, t) || Tick(s, t) {
        OthersKeepStatus(s, t);
      } else {
        var w: nat :| w < |s.workers| && WorkerStep(s, t, w);
        WorkerKeeps(s, t, w);
      }
    }
  }

  lemma PollKeepsHistory(s: State, t: State)
    requires PollStep(s, t)
    ensures s.accepted <= t.accepted
  {
    hide IsForceScan, Acceptable, Restamp, IsBlank;
  }

  /**
   Whatever the poll thread writes into the status besides the module flags is that a request has failed, which it
   has read before and found malformed or outdated.
   */
  lemma PollThreadReportsRejections(run: seq<State>, i: nat) returns (k: nat)
    requires IsRun(run) && i + 1 < |run| && PollStep(run[i], run[i + 1])
    requires !SameReport(run[i + 1].status, run[i].status)
    ensures k < i && run[i + 1].status.phase == Failed && run[i + 1].status.requestId.Some?
    ensures IsTurnedDown(run[k], run[i + 1].status.requestId.value)
    ensures run[i].workers == []
  {
    hide Next, FileStep, RoundStep, IsTurnedDown;
    RunsKeepInv(run, i);
    if HandlesFile(run[i].poll) {
      FileStepKeeps(run[i], run[i + 1]);
    } else {
      RoundReports(run[i], run[i + 1]);
      k := RejectedWasTurnedDown(run, i);
    }
  }

  // ---------------------------------------------------------------- the work behind the reports

  /** How the only worker comes to its stage: it announces itself, then works, then concludes, then reports. */
  predicate GoesOn(s: State, t: State) {
    && |s.workers| == 1 && |t.workers| == 1 && t.workers[0].request == s.workers[0].request
    && match t.workers[0].stage
       case Begun => false
       case Working => Announces(s, t)
       case Concluded(phase, offer, announced) =>
         && s.workers[0].stage == (if announced then Working else Begun)
         && (phase == Ready ==> announced && offer == Offer(Some(t.live.players), Some(t.live.staff)))
       case Reported(_) => s.workers[0].stage.Concluded?
  }

  lemma StepGoesOn(s: State, t: State)
    requires GateInv(s) && Next(s, t) && |t.workers| == 1 && t.workers[0].stage != Begun
    ensures t.workers == s.workers || GoesOn(s, t)
  {
    hide FileStep, RoundStep, AppStep, WorkerStep;
    if PollStep(s, t) {
      if HandlesFile(s.poll) {
        FileStepKeeps(s, t);
      } else {
        RoundGoesOn(s, t);
      }
    } else if AppStep(s, t) || Tick(s, t) {
      OthersKeepStatus(s, t);
    } else {
      var w: nat :| w < |s.workers| && WorkerStep(s, t, w);
      WorkerGoesOn(s, t);
    }
  }

  lemma RoundGoesOn(s: State, t: State)
    requires GateInv(s) && RoundStep(s, t) && |t.workers| == 1 && t.workers[0].stage != Begun
    ensures t.workers == s.workers
  {
  }

  lemma WorkerGoesOn(s: State, t: State)
    requires |s.workers| == 1 && WorkerStep(s, t, 0) && |t.workers| == 1
    ensures GoesOn(s, t)
  {
    hide OpeningOffer, IsDump;
  }

  /** The step by which the only worker came to the stage it is in. */
  lemma {:induction false} CameTo(run: seq<State>, i: nat) returns (k: nat)
    requires IsRun(run) && i < |run| && |run[i].workers| == 1 && run[i].workers[0].stage != Begun
    ensures 0 < k <= i && run[k].workers == run[i].workers && GoesOn(run[k - 1], run[k])
  {
    hide Next, GoesOn;
    assert Init(run[0]);
    assert i > 0;
    GateAt(run, i - 1);
    assert Next(run[i - 1], run[i]);
    StepGoesOn(run[i - 1], run[i]);
    if run[i].workers == run[i - 1].workers {
      k := CameTo(run, i - 1);
    } else {
      k := i;
    }
  }

  /**
   What is reported as ready was worked for: its worker announced itself, then worked, then concluded so, offering
   boosts exactly as far as there were candidates, and then reported it.
   */
  lemma ReadyWasWorkedFor(run: seq<State>, i: nat) returns (announced: nat, concluded: nat, reported: nat)
    requires IsRun(run) && i < |run| && run[i].status.phase == Ready
    ensures 0 < announced < concluded < reported <= i && StandsSince(run, reported, i)
    ensures Announces(run[announced - 1], run[announced])
    ensures |run[concluded].workers| == 1
    ensures var w, live := run[concluded].workers[0], run[concluded].live;
            && run[announced].workers == run[concluded - 1].workers == [Worker(w.request, Working)]
            && w.stage.Concluded? && w.stage.phase == Ready
            && run[reported - 1].workers == [w] && run[reported].workers == [Worker(w.request, Reported(false))]
            && run[i].status.requestId == w.request.requestId
            && run[i].status.offer == Offer(Some(live.players), Some(live.staff))
  {
    hide Next, IsRun, StandsSince;
    reported := ReadyWasConcluded(run, i);
    concluded := CameTo(run, reported - 1);
    announced := CameTo(run, concluded - 1);
  }

  /** The time that the poll thread goes by is what the clock showed when it looked. */
  lemma {:induction false} TimeWasTaken(run: seq<State>, i: nat) returns (k: nat)
    requires IsRun(run) && i < |run| && (run[i].poll.RefreshingAt? || run[i].poll.LookingAt? || run[i].poll.Consuming?)
    ensures k < i && run[k].clock == run[i].poll.now
    ensures run[k].poll == if run[i].poll.RefreshingAt? then Refreshing else Looking
  {
    hide Next;
    assert Init(run[0]);
    assert i > 0;
    assert Next(run[i - 1], run[i]);
    TimeIsKept(run[i - 1], run[i]);
    if run[i - 1].poll in {Refreshing, Looking} && run[i].poll != run[i - 1].poll {
      k := i - 1;
    } else {
      k := TimeWasTaken(run, i - 1);
    }
  }

  lemma TimeIsKept(s: State, t: State)
    requires Next(s, t) && (t.poll.RefreshingAt? || t.poll.LookingAt? || t.poll.Consuming?)
    ensures || (t.poll == s.poll)
            || (s.poll == Refreshing && t.poll == RefreshingAt(s.clock))
            || (s.poll == Looking && t.poll == LookingAt(s.clock))
            || (s.poll.LookingAt? && t.poll.Consuming? && t.poll.now == s.poll.now && s.file == Holds(t.poll.parsed))
  {
    hide IsForceScan, WorkerStep, AppStep, Acceptable, IsBlank;
    if !PollStep(s, t) {
      if AppStep(s, t) || Tick(s, t) {
        OthersKeepStatus(s, t);
      } else {
        var w: nat :| w < |s.workers| && WorkerStep(s, t, w);
        WorkerKeeps(s, t, w);
      }
    }
  }
}
