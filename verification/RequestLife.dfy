/**
 What can still become of a request file from any state the bridge can be in: when a request that the app
 has just put there can be lost unread, and when a request lying there can still be accepted without the app
 touching it again. Each question is answered exactly; `RequestRuns` holds runs that show the bad cases.
 */
module RequestLife {
  import opened Wrappers
  import opened Requests
  import opened BridgeProtocol

  // ---------------------------------------------------------------- continuations

  /** A step that leaves the app's hands off the files. */
  ghost predicate QuietStep(s: State, t: State) { Next(s, t) && LeavesFilesAlone(s, t) }

  ghost predicate IsQuietPath(path: seq<State>) {
    path != [] && forall i :: 0 <= i < |path| - 1 ==> QuietStep(path[i], path[i + 1])
  }

  /** A quiet step on which what is deleted goes; with reads succeeding as well it is clean. */
  ghost predicate DeletingStep(s: State, t: State) { QuietStep(s, t) && !FailsToDelete(s, t) }

  ghost predicate CleanStep(s: State, t: State) { DeletingStep(s, t) && !FailsToRead(s, t) }

  ghost predicate IsDeletingPath(path: seq<State>) {
    path != [] && forall i :: 0 <= i < |path| - 1 ==> DeletingStep(path[i], path[i + 1])
  }

  ghost predicate IsCleanPath(path: seq<State>) {
    path != [] && forall i :: 0 <= i < |path| - 1 ==> CleanStep(path[i], path[i + 1])
  }

  ghost predicate Leads(path: seq<State>, s: State, t: State) {
    IsCleanPath(path) && path[0] == s && path[|path| - 1] == t
  }

  lemma StepLeads(s: State, t: State)
    requires CleanStep(s, t)
    ensures Leads([s, t], s, t)
  {
  }

  lemma PathsCompose(p: seq<State>, q: seq<State>, s: State, t: State, u: State)
    requires Leads(p, s, t) && Leads(q, t, u)
    ensures Leads(p + q[1..], s, u)
  {
    hide CleanStep;
    var r := p + q[1..];
    forall i | 0 <= i < |r| - 1 ensures CleanStep(r[i], r[i + 1]) {
      if i >= |p| - 1 {
        var k := i - (|p| - 1);
        assert r[i] == q[k] && r[i + 1] == q[k + 1];
      }
    }
  }

  lemma CleanIsDeleting(path: seq<State>)
    requires IsCleanPath(path)
    ensures IsDeletingPath(path)
  {
    hide DeletingStep, FailsToRead;
  }

  lemma DeletingIsQuiet(path: seq<State>)
    requires IsDeletingPath(path)
    ensures IsQuietPath(path)
  {
    hide QuietStep, FailsToDelete;
  }

  /** A poll step that neither fails to delete nor to read is clean. */
  lemma PollStepIsClean(s: State, t: State)
    requires PollStep(s, t) && !FailsToDelete(s, t) && !FailsToRead(s, t)
    ensures CleanStep(s, t)
  {
    hide FileStep, RoundStep;
    if AppStep(s, t) && s.poll.Moving? {
      PollIsNoAppStep(s, t);
    } else if HandlesFile(s.poll) {
      PollIsNoAppStep(s, t);
    } else {
      RoundStepKeeps(s, t);
    }
  }

  lemma PollIsNoAppStep(s: State, t: State)
    requires PollStep(s, t) && HandlesFile(s.poll)
    ensures t.poll != s.poll && !AppStep(s, t)
  {
    hide Acceptable, IsForceScan, Restamp, IsBlank;
  }

  lemma WorkerStepIsClean(s: State, t: State, i: nat)
    requires i < |s.workers| && WorkerStep(s, t, i) && t.workers != s.workers
    ensures CleanStep(s, t)
  {
    WorkerKeeps(s, t, i);
    hide WorkerStep, FileStep, RoundStep;
    if PollStep(s, t) {
      if HandlesFile(s.poll) {
        FileStepKeeps(s, t);
      }
    }
  }

  lemma TickIsClean(s: State, t: State)
    requires Tick(s, t)
    ensures CleanStep(s, t) || t == s
  {
    hide FileStep, RoundStep;
    if PollStep(s, t) {
      if HandlesFile(s.poll) {
        FileStepKeeps(s, t);
      } else {
        RoundStepKeeps(s, t);
      }
    }
  }

  /** A state that some run ends in. */
  ghost predicate Reachable(s: State) { exists run: seq<State> :: IsRun(run) && run[|run| - 1] == s }

  lemma ReachableKeepsInv(s: State)
    requires Reachable(s)
    ensures Inv(s)
  {
    var run: seq<State> :| IsRun(run) && run[|run| - 1] == s;
    RunsKeepInv(run, |run| - 1);
  }

  lemma ReachableKeepsGate(s: State)
    requires Reachable(s)
    ensures GateInv(s)
  {
    hide Reachable, GateInv, StatusInv, RequestInv;
    ReachableKeepsInv(s);
  }

  // ---------------------------------------------------------------- losing a request unread

  /** The poll thread has looked at the files and is about to replace or delete whatever lies there by then. */
  predicate IsAboutToReplace(s: State) {
    s.poll.Rewriting? || (s.poll.Moving? && s.temp != NoFile) || s.poll.Consuming? || s.poll.Discarding?
  }

  /** The poll thread reads this request. */
  ghost predicate Reads(s: State, t: State, x: Stamped) {
    PollStep(s, t) && (s.poll.RefreshingAt? || s.poll.LookingAt?) && s.file == Holds(x) && !t.poll.Discarding?
  }

  /** Along the path the request disappears from the file although the poll thread never read it. */
  ghost predicate LosesUnread(path: seq<State>, x: Stamped) {
    && path != [] && path[0].file == Holds(x) && path[|path| - 1].file != Holds(x)
    && forall i :: 0 <= i < |path| - 1 ==> !Reads(path[i], path[i + 1], x)
  }

  /** The request can be lost although every read and every deletion succeeds. */
  ghost predicate CanBeLost(s: State, x: Stamped) {
    exists path :: IsCleanPath(path) && path[0] == s && LosesUnread(path, x)
  }

  /** Some attempt to read the request fails along the path. */
  ghost predicate FailsToReadIt(path: seq<State>, x: Stamped) {
    exists i :: 0 <= i < |path| - 1 && path[i].file == Holds(x) && FailsToRead(path[i], path[i + 1])
  }

  /** The request can be lost because it could not be read, although every deletion succeeds. */
  ghost predicate CanBeLostByFailedRead(s: State, x: Stamped) {
    exists path :: IsDeletingPath(path) && path[0] == s && LosesUnread(path, x) && FailsToReadIt(path, x)
  }

  /** Unless the poll thread was about to replace the file, the request stays until it is read or reading fails. */
  lemma KeptUntilRead(s: State, t: State, x: Stamped)
    requires s.file == Holds(x) && !IsAboutToReplace(s) && QuietStep(s, t)
    requires !Reads(s, t, x) && !FailsToRead(s, t)
    ensures t.file == Holds(x) && !IsAboutToReplace(t)
  {
    hide RoundStep, WorkerStep, AppStep, Acceptable, IsForceScan;
    if PollStep(s, t) {
      if !HandlesFile(s.poll) {
        RoundStepKeeps(s, t);
      }
    } else if AppStep(s, t) || Tick(s, t) {
      OthersKeepStatus(s, t);
    } else {
      var w: nat :| w < |s.workers| && WorkerStep(s, t, w);
      WorkerKeeps(s, t, w);
    }
  }

  /** A request is lost unread only for one of two reasons. */
  lemma {:induction false} LostForAReason(path: seq<State>, x: Stamped, n: nat)
    requires IsQuietPath(path) && n < |path| && path[0].file == Holds(x) && !IsAboutToReplace(path[0])
    requires forall i :: 0 <= i < n ==> !Reads(path[i], path[i + 1], x)
    ensures FailsToReadIt(path, x) || (path[n].file == Holds(x) && !IsAboutToReplace(path[n]))
  {
    hide QuietStep, Reads, IsAboutToReplace, FailsToRead;
    if n > 0 {
      LostForAReason(path, x, n - 1);
      if !FailsToReadIt(path, x) {
        KeptUntilRead(path[n - 1], path[n], x);
      }
    }
  }

  /** The next step of a poll thread that is about to write, move or delete, when that succeeds. */
  function Onward(s: State): State
    requires IsAboutToReplace(s)
  {
    match s.poll
    case Rewriting(copy) => s.(temp := Holds(copy), poll := Moving)
    case Moving => s.(file := s.temp, temp := NoFile, poll := Checking)
    case Consuming(x, now) =>
      if Acceptable(x.request, now) then
        s.(file := NoFile, poll := Entering(x.request), accepted := s.accepted + [Acceptance(x, now)])
      else s.(file := NoFile, poll := AfterRejecting(x))
    case Discarding => s.(file := NoFile, poll := Checking)
  }

  lemma OnwardIsClean(s: State)
    requires IsAboutToReplace(s)
    ensures PollStep(s, Onward(s)) && CleanStep(s, Onward(s))
  {
    assert PollStep(s, Onward(s)) by {
      hide Acceptable, CopyRequest, IsBlank;
    }
    hide Acceptable, PollStep, IsBlank, QuietStep, FileStep;
    PollStepIsClean(s, Onward(s));
  }

  /** Whichever way the request is lost unread, an attempt to read it has failed. */
  ghost predicate OnlyLostByFailedRead(s: State, x: Stamped) {
    forall path: seq<State> :: IsQuietPath(path) && path[0] == s && LosesUnread(path, x) ==> FailsToReadIt(path, x)
  }

  /**
   A request that the app has just put in the file can be lost without ever being read, although every read
   and every deletion succeeds, exactly when the poll thread was between reading an earlier file and
   rewriting, consuming or discarding it. Otherwise, whatever else fails, it takes a failed read of that very file.
   */
  lemma LostUnreadIff(s: State, t: State, r: BridgeRequest, serial: nat)
    requires Reachable(s) && AppRenames(s, t) && t.temp == NoFile && t.file == Holds(Written(r, serial))
    ensures CanBeLost(t, Written(r, serial)) <==> IsAboutToReplace(t)
    ensures OnlyLostByFailedRead(t, Written(r, serial)) <==> !IsAboutToReplace(t)
    ensures t.poll == s.poll
  {
    hide CanBeLost, OnlyLostByFailedRead, Reachable;
    var x := Written(r, serial);
    CleanLossNeedsNoFailedRead(t, x);
    if IsAboutToReplace(t) {
      ReplacedIsLost(s, t, x);
    } else {
      OthersNeedAFailedRead(t, x);
    }
  }

  lemma OthersNeedAFailedRead(s: State, x: Stamped)
    requires s.file == Holds(x) && !IsAboutToReplace(s)
    ensures OnlyLostByFailedRead(s, x)
  {
    hide QuietStep, FailsToRead, Reads, IsAboutToReplace;
    forall path: seq<State> | IsQuietPath(path) && path[0] == s && LosesUnread(path, x) ensures FailsToReadIt(path, x) {
      LostForAReason(path, x, |path| - 1);
    }
  }

  lemma CleanLossNeedsNoFailedRead(s: State, x: Stamped)
    ensures CanBeLost(s, x) ==> !OnlyLostByFailedRead(s, x)
  {
    hide QuietStep, FailsToRead, Reads, FailsToDelete;
    if CanBeLost(s, x) {
      var path: seq<State> :| IsCleanPath(path) && path[0] == s && LosesUnread(path, x);
      CleanIsDeleting(path);
      DeletingIsQuiet(path);
      assert !FailsToReadIt(path, x);
    }
  }

  lemma ReplacedIsLost(s: State, t: State, x: Stamped)
    requires Reachable(s) && t.poll == s.poll && t.temp == NoFile && IsAboutToReplace(t)
    requires t.file == Holds(x) && |x.trail| == 1
    ensures CanBeLost(t, x)
  {
    hide Inv, Reachable, CanBeLost;
    if t.poll.Rewriting? {
      assert |s.poll.copy.trail| > 1 by { CopyWasRestamped(s); }
      RewritingIsLost(t, x);
    } else {
      hide PollStep, Acceptable, IsBlank;
      OnwardIsClean(t);
      IsLostOnward(t, x);
    }
  }

  lemma CopyWasRestamped(s: State)
    requires Reachable(s) && s.poll.Rewriting?
    ensures |s.poll.copy.trail| > 1
  {
    hide Reachable;
    ReachableKeepsInv(s);
  }

  lemma IsLostOnward(t: State, x: Stamped)
    requires IsAboutToReplace(t) && t.file == Holds(x) && CleanStep(t, Onward(t)) && Onward(t).file != Holds(x)
    ensures CanBeLost(t, x)
  {
    hide CleanStep, PollStep, Onward;
    var path := [t, Onward(t)];
    assert IsCleanPath(path) && LosesUnread(path, x);
  }

  lemma RewritingIsLost(t: State, x: Stamped)
    requires t.poll.Rewriting? && t.poll.copy != x && t.file == Holds(x)
    ensures CanBeLost(t, x)
  {
    hide CleanStep, PollStep;
    var u := Onward(t);
    OnwardIsClean(t);
    OnwardIsClean(u);
    var path := [t, u, Onward(u)];
    assert path[|path| - 1].file == Holds(t.poll.copy);
    assert IsCleanPath(path) && LosesUnread(path, x);
  }

  // ---------------------------------------------------------------- being accepted later

  /** The stamp has not expired; it may still lie ahead of the clock. */
  predicate IsUsable(x: Stamped, clock: int) { WellFormed(x.request) && clock - x.request.createdAtUtc <= TTL }

  /**
   The request in the file can still be used. When the poll thread is about to read it, what counts is the time
   taken before: a request that was fresh then is accepted, or written back with that time; any other is deleted.
   */
  predicate FileIsPending(s: State)
    requires s.file.Holds?
  {
    var x := s.file.stamped;
    match s.poll
    case Consuming(_, _) => false
    case Discarding => false
    case LookingAt(now) => Acceptable(x.request, now)
    case RefreshingAt(now) => IsUsable(x, s.clock) || (Acceptable(x.request, now) && s.clock - now <= TTL)
    case _ => IsUsable(x, s.clock)
  }

  /**
   The request can still be accepted: it lies in the file and can be used; or the poll thread holds an unexpired
   copy that it may put there; or it has read the request and it was fresh at the time taken.
   */
  predicate IsPending(s: State, original: BridgeRequest) {
    || (s.file.Holds? && s.file.stamped.original == original && FileIsPending(s))
    || (s.poll.Rewriting? && s.poll.copy.original == original && IsUsable(s.poll.copy, s.clock))
    || (s.poll.Moving? && s.temp.Holds? && s.temp.stamped.original == original && IsUsable(s.temp.stamped, s.clock))
    || (s.poll.Consuming? && s.poll.parsed.original == original && Acceptable(s.poll.parsed.request, s.poll.now))
  }

  /** What was accepted before, and after it something with this original. */
  ghost predicate AcceptsMore(before: State, after: State, original: BridgeRequest) {
    && before.accepted <= after.accepted
    && exists i :: |before.accepted| <= i < |after.accepted| && after.accepted[i].stamped.original == original
  }

  /** The request can be accepted without the app's help and without a failed deletion. */
  ghost predicate CanBeAccepted(s: State, original: BridgeRequest) {
    exists path :: IsDeletingPath(path) && path[0] == s && AcceptsMore(s, path[|path| - 1], original)
  }

  /** What is not pending does not become pending, and is not accepted. */
  lemma NotPendingStays(s: State, t: State, original: BridgeRequest)
    requires !IsPending(s, original) && DeletingStep(s, t)
    ensures !IsPending(t, original)
    ensures t.accepted == s.accepted
            || (|t.accepted| == |s.accepted| + 1 && s.accepted <= t.accepted
                && t.accepted[|s.accepted|].stamped.original != original)
  {
    hide FileStep, RoundStep, WorkerStep, AppStep, WellFormed;
    if PollStep(s, t) {
      if HandlesFile(s.poll) {
        NotPendingFileStep(s, t, original);
      } else {
        RoundStepKeeps(s, t);
      }
    } else if AppStep(s, t) || Tick(s, t) {
      OthersKeepStatus(s, t);
    } else {
      var w: nat :| w < |s.workers| && WorkerStep(s, t, w);
      WorkerKeeps(s, t, w);
    }
  }

  lemma NotPendingFileStep(s: State, t: State, original: BridgeRequest)
    requires !IsPending(s, original) && FileStep(s, t) && !FailsToDelete(s, t)
    ensures !IsPending(t, original)
    ensures t.accepted == s.accepted
            || (|t.accepted| == |s.accepted| + 1 && s.accepted <= t.accepted
                && t.accepted[|s.accepted|].stamped.original != original)
  {
    hide FileStep, RoundStep, IsPending, FailsToDelete;
    if s.poll.Consuming? {
      NotPendingConsumes(s, t, original);
    } else if s.poll.Rewriting? || s.poll.Moving? {
      FileStepKeeps(s, t);
      NotPendingReplaces(s, t, original);
    } else {
      FileStepKeeps(s, t);
      NotPendingReads(s, t, original);
    }
  }

  lemma NotPendingConsumes(s: State, t: State, original: BridgeRequest)
    requires !IsPending(s, original) && s.poll.Consuming? && FileStep(s, t) && !FailsToDelete(s, t)
    ensures !IsPending(t, original)
    ensures t.accepted == s.accepted
            || (|t.accepted| == |s.accepted| + 1 && s.accepted <= t.accepted
                && t.accepted[|s.accepted|].stamped.original != original)
  {
    hide RoundStep, Acceptable, IsUsable, IsBlank, FileIsPending;
  }

  lemma NotPendingReplaces(s: State, t: State, original: BridgeRequest)
    requires !IsPending(s, original) && (s.poll.Rewriting? || s.poll.Moving?) && FileStep(s, t)
    ensures !IsPending(t, original)
  {
    hide RoundStep, Acceptable, IsUsable, IsBlank;
  }

  lemma NotPendingReads(s: State, t: State, original: BridgeRequest)
    requires !IsPending(s, original) && !s.poll.Consuming? && !s.poll.Rewriting? && !s.poll.Moving?
    requires FileStep(s, t) && !FailsToDelete(s, t)
    ensures !IsPending(t, original)
  {
    hide RoundStep, WellFormed, IsForceScan, IsBlank;
  }

  lemma {:induction false} NeverAcceptedAlong(path: seq<State>, original: BridgeRequest, n: nat)
    requires IsDeletingPath(path) && n < |path| && !IsPending(path[0], original)
    ensures !IsPending(path[n], original) && path[0].accepted <= path[n].accepted
    ensures forall i :: |path[0].accepted| <= i < |path[n].accepted| ==> path[n].accepted[i].stamped.original != original
  {
    hide DeletingStep, IsPending;
    if n > 0 {
      NeverAcceptedAlong(path, original, n - 1);
      NotPendingStays(path[n - 1], path[n], original);
    }
  }

  // ---------------------------------------------------------------- a continuation that accepts

  predicate KeepsFile(p: Poll) { !p.Consuming? && !p.Discarding? && !p.Looking? && !p.LookingAt? }

  /** Nothing is going on. */
  predicate IsSettled(s: State) { s.poll == Polling && s.workers == [] && !s.busy }

  function PollRank(p: Poll): nat {
    match p
    case Entering(_) => 11
    case Starting(_) => 10
    case Refreshing => 6
    case RefreshingAt(_) => 5
    case Rewriting(_) => 4
    case Moving => 4
    case Rejecting(_) => 4
    case Checking => 3
    case Rechecking(_, _) => 3
    case Reading => 2
    case Overwriting(_, _) => 2
    case _ => 0
  }

  function StageRank(w: Worker): nat {
    match w.stage
    case Concluded(_, _, _) => 2
    case Reported(_) => 1
    case _ => 3
  }

  function Rank(s: State): nat { PollRank(s.poll) + if s.workers == [] then 0 else StageRank(s.workers[0]) }

  /** One step towards rest: the worker finishes first, then the poll thread goes round without touching the file. */
  function TowardsRest(s: State): State {
    if s.workers != [] then Finishing(s) else GoingRound(s)
  }

  /** The worker fails, cannot report it, and leaves. */
  function Finishing(s: State): State
    requires s.workers != []
  {
    var w := s.workers[0];
    match w.stage
    case Concluded(_, _, _) => s.(workers := s.workers[0 := w.(stage := Reported(true))])
    case Reported(_) => s.(busy := false, workers := s.workers[1..])
    case _ =>
      var live := if IsDump(w.request) then s.live else Live(false, false);
      var offer := if IsDump(w.request) then NO_OFFER else OfferOf(live);
      s.(live := live, workers := s.workers[0 := w.(stage := Concluded(Failed, offer, w.stage.Working?))])
  }

  function GoingRound(s: State): State {
    match s.poll
    case Entering(request) => s.(busy := true, poll := Starting(request))
    case Starting(request) => s.(poll := Checking, workers := s.workers + [Worker(request, Begun)])
    case Refreshing => s.(poll := RefreshingAt(s.clock))
    case RefreshingAt(now) =>
      if s.file.Holds? && Acceptable(s.file.stamped.request, now) then
        s.(poll := Rewriting(Restamp(s.file.stamped, now)))
      else s.(poll := Checking)
    case Rewriting(_) => s.(poll := Checking)
    case Moving => s.(poll := Checking)
    case Checking => s.(poll := Reading)
    case Rechecking(current, detected) => s.(poll := Overwriting(current, detected))
    case _ => s.(poll := Polling)
  }

  lemma RestIsNearer(s: State)
    requires GateInv(s) && s.file.Holds? && KeepsFile(s.poll) && !IsSettled(s)
    ensures var t := TowardsRest(s);
            && CleanStep(s, t) && GateInv(t) && KeepsFile(t.poll) && Rank(t) < Rank(s)
            && t.file == s.file && t.clock == s.clock && t.accepted == s.accepted
  {
    hide CleanStep;
    if s.workers != [] {
      FinishingStep(s);
    } else {
      RoundStepTowardsRest(s);
    }
  }

  lemma FinishingStep(s: State)
    requires GateInv(s) && s.workers != []
    ensures var t := Finishing(s);
            && CleanStep(s, t) && GateInv(t) && t.poll == s.poll
            && t.file == s.file && t.clock == s.clock && t.accepted == s.accepted
            && (t.workers == [] || StageRank(t.workers[0]) < StageRank(s.workers[0]))
  {
    var t := Finishing(s);
    assert |s.workers| == 1;
    assert s.workers[..0] + s.workers[1..] == s.workers[1..];
    assert WorkerStep(s, t, 0);
    hide WorkerStep, CleanStep;
    WorkerStepIsClean(s, t, 0);
  }

  lemma RoundStepTowardsRest(s: State)
    requires GateInv(s) && s.workers == [] && s.file.Holds? && KeepsFile(s.poll) && !IsSettled(s)
    ensures var t := GoingRound(s);
            && CleanStep(s, t) && GateInv(t) && KeepsFile(t.poll)
            && t.file == s.file && t.clock == s.clock && t.accepted == s.accepted
            && PollRank(t.poll) + (if t.workers == [] then 0 else StageRank(t.workers[0])) < PollRank(s.poll)
  {
    var t := GoingRound(s);
    assert PollStep(s, t) && !FailsToRead(s, t) by {
      hide Acceptable, IsForceScan, IsBlank, CleanStep;
    }
    hide FileStep, RoundStep, CleanStep, FailsToRead, Acceptable;
    PollStepIsClean(s, t);
    PollStepGate(s, t);
  }

  /** From any state that keeps the file the bridge can come to rest without touching it, in no time. */
  lemma {:induction false} ComesToRest(s: State) returns (path: seq<State>, t: State)
    requires GateInv(s) && s.file.Holds? && KeepsFile(s.poll)
    ensures Leads(path, s, t) && IsSettled(t)
    ensures t.file == s.file && t.clock == s.clock && t.accepted == s.accepted
    decreases Rank(s)
  {
    hide CleanStep, GateInv, Rank, TowardsRest, KeepsFile;
    if IsSettled(s) {
      path, t := [s], s;
    } else {
      RestIsNearer(s);
      var rest;
      rest, t := ComesToRest(TowardsRest(s));
      StepLeads(s, TowardsRest(s));
      PathsCompose([s, TowardsRest(s)], rest, s, TowardsRest(s), t);
      path := [s, TowardsRest(s)] + rest[1..];
    }
  }

  /** What the poll thread has found fresh it accepts. */
  lemma ReadsAndAccepts(s: State) returns (path: seq<State>, t: State)
    requires s.poll.LookingAt? && s.file.Holds? && Acceptable(s.file.stamped.request, s.poll.now)
    ensures Leads(path, s, t) && AcceptsMore(s, t, s.file.stamped.original)
  {
    hide Acceptable, CleanStep, IsBlank, PollStep;
    var x := s.file.stamped;
    var read := s.(poll := Consuming(x, s.poll.now));
    ReadingIsClean(s);
    t := Onward(read);
    OnwardIsClean(read);
    path := [s, read, t];
    assert t.accepted[|s.accepted|] == Acceptance(x, s.poll.now);
  }

  lemma ReadingIsClean(s: State)
    requires s.poll.LookingAt? && s.file.Holds?
    ensures CleanStep(s, s.(poll := Consuming(s.file.stamped, s.poll.now)))
  {
    var t := s.(poll := Consuming(s.file.stamped, s.poll.now));
    assert PollStep(s, t);
    hide PollStep, CleanStep;
    PollStepIsClean(s, t);
  }

  /** The poll thread looks, reads and accepts, after waiting for the stamp if that lies ahead. */
  lemma LooksAndAccepts(s: State) returns (path: seq<State>, t: State)
    requires s.poll == Looking && s.file.Holds? && IsUsable(s.file.stamped, s.clock)
    ensures Leads(path, s, t) && AcceptsMore(s, t, s.file.stamped.original)
  {
    var x := s.file.stamped;
    var later := s.(clock := if x.request.createdAtUtc > s.clock then x.request.createdAtUtc else s.clock);
    var at := later.(poll := LookingAt(later.clock));
    assert Acceptable(x.request, later.clock);
    assert PollStep(later, at);
    hide WellFormed, PollStep, CleanStep, Acceptable, AcceptsMore;
    PollStepIsClean(later, at);
    var rest;
    rest, t := ReadsAndAccepts(at);
    StepLeads(later, at);
    PathsCompose([later, at], rest, later, at, t);
    path := [later, at] + rest[1..];
    SameAccepted(later, at, t, x.original);
    SameAccepted(s, later, t, x.original);
    if later != s {
      assert Tick(s, later);
      TickIsClean(s, later);
      StepLeads(s, later);
      PathsCompose([s, later], path, s, later, t);
      path := [s, later] + path[1..];
    }
  }

  lemma SettledAccepts(s: State) returns (path: seq<State>, t: State)
    requires IsSettled(s) && s.file.Holds? && IsUsable(s.file.stamped, s.clock)
    ensures Leads(path, s, t) && AcceptsMore(s, t, s.file.stamped.original)
  {
    hide IsUsable, AcceptsMore, CleanStep;
    var looking := s.(poll := Looking);
    assert PollStep(s, looking);
    PollStepIsClean(s, looking);
    StepLeads(s, looking);
    var rest;
    rest, t := LooksAndAccepts(looking);
    PathsCompose([s, looking], rest, s, looking, t);
    path := [s, looking] + rest[1..];
    SameAccepted(s, looking, t, s.file.stamped.original);
  }

  lemma SameAccepted(s: State, u: State, t: State, original: BridgeRequest)
    requires s.accepted == u.accepted && AcceptsMore(u, t, original)
    ensures AcceptsMore(s, t, original)
  {
  }

  /** A usable request in a file that is kept can be accepted. */
  lemma KeptFileAccepts(s: State) returns (path: seq<State>, t: State)
    requires GateInv(s) && s.file.Holds? && IsUsable(s.file.stamped, s.clock)
    requires KeepsFile(s.poll) || s.poll.Looking?
    ensures Leads(path, s, t) && AcceptsMore(s, t, s.file.stamped.original)
  {
    hide GateInv, AcceptsMore, IsUsable, CleanStep;
    if s.poll == Looking {
      path, t := LooksAndAccepts(s);
    } else {
      var first, u := ComesToRest(s);
      var second;
      second, t := SettledAccepts(u);
      PathsCompose(first, second, s, u, t);
      path := first + second[1..];
      SameAccepted(s, u, t, s.file.stamped.original);
    }
  }

  /** A usable copy in the temporary file can be moved into place and accepted. */
  lemma MovedAccepts(s: State) returns (path: seq<State>, t: State)
    requires GateInv(s) && s.poll.Moving? && s.temp.Holds? && IsUsable(s.temp.stamped, s.clock)
    ensures Leads(path, s, t) && AcceptsMore(s, t, s.temp.stamped.original)
  {
    hide AcceptsMore, IsUsable, CleanStep, FileStep, RoundStep;
    OnwardIsClean(s);
    PollStepGate(s, Onward(s));
    path, t := StepThenAccepts(s, Onward(s));
  }

  /** After one step, the file that is then kept is accepted. */
  lemma StepThenAccepts(s: State, u: State) returns (path: seq<State>, t: State)
    requires CleanStep(s, u) && u.accepted == s.accepted
    requires GateInv(u) && u.file.Holds? && IsUsable(u.file.stamped, u.clock) && KeepsFile(u.poll)
    ensures Leads(path, s, t) && AcceptsMore(s, t, u.file.stamped.original)
  {
    hide AcceptsMore, IsUsable, CleanStep, GateInv, KeepsFile;
    var rest;
    rest, t := KeptFileAccepts(u);
    StepLeads(s, u);
    PathsCompose([s, u], rest, s, u, t);
    path := [s, u] + rest[1..];
    SameAccepted(s, u, t, u.file.stamped.original);
  }

  /** A usable copy that is about to be written back can be accepted. */
  lemma RewrittenAccepts(s: State) returns (path: seq<State>, t: State)
    requires GateInv(s) && s.poll.Rewriting? && IsUsable(s.poll.copy, s.clock)
    ensures Leads(path, s, t) && AcceptsMore(s, t, s.poll.copy.original)
  {
    hide AcceptsMore, IsUsable, CleanStep, FileStep, RoundStep;
    var u := Onward(s);
    OnwardIsClean(s);
    PollStepGate(s, u);
    var rest;
    rest, t := MovedAccepts(u);
    StepLeads(s, u);
    PathsCompose([s, u], rest, s, u, t);
    path := [s, u] + rest[1..];
    SameAccepted(s, u, t, s.poll.copy.original);
  }

  /** A request found fresh at the time taken is written back with that time and can then be accepted. */
  lemma RefreshedAccepts(s: State) returns (path: seq<State>, t: State)
    requires GateInv(s) && s.poll.RefreshingAt? && s.file.Holds?
    requires Acceptable(s.file.stamped.request, s.poll.now) && s.clock - s.poll.now <= TTL
    ensures Leads(path, s, t) && AcceptsMore(s, t, s.file.stamped.original)
  {
    var u := s.(poll := Rewriting(Restamp(s.file.stamped, s.poll.now)));
    assert PollStep(s, u);
    assert IsUsable(u.poll.copy, u.clock);
    hide AcceptsMore, IsUsable, CleanStep, FileStep, RoundStep, Acceptable;
    PollStepIsClean(s, u);
    PollStepGate(s, u);
    var rest;
    rest, t := RewrittenAccepts(u);
    StepLeads(s, u);
    PathsCompose([s, u], rest, s, u, t);
    path := [s, u] + rest[1..];
    SameAccepted(s, u, t, s.file.stamped.original);
  }

  lemma PendingFileIsAccepted(s: State) returns (path: seq<State>, t: State)
    requires GateInv(s) && s.file.Holds? && FileIsPending(s)
    ensures Leads(path, s, t) && AcceptsMore(s, t, s.file.stamped.original)
  {
    hide AcceptsMore, IsUsable, CleanStep, GateInv, Acceptable;
    if s.poll.LookingAt? {
      path, t := ReadsAndAccepts(s);
    } else if s.poll.RefreshingAt? && Acceptable(s.file.stamped.request, s.poll.now) && s.clock - s.poll.now <= TTL {
      path, t := RefreshedAccepts(s);
    } else {
      path, t := KeptFileAccepts(s);
    }
  }

  lemma PendingIsAccepted(s: State, original: BridgeRequest) returns (path: seq<State>, t: State)
    requires GateInv(s) && IsPending(s, original)
    ensures Leads(path, s, t) && AcceptsMore(s, t, original)
  {
    hide IsUsable, CleanStep, GateInv, FileIsPending;
    if s.file.Holds? && s.file.stamped.original == original && FileIsPending(s) {
      path, t := PendingFileIsAccepted(s);
    } else if s.poll.Rewriting? {
      path, t := RewrittenAccepts(s);
    } else if s.poll.Moving? {
      path, t := MovedAccepts(s);
    } else {
      t := Onward(s);
      OnwardIsClean(s);
      StepLeads(s, t);
      path := [s, t];
      assert t.accepted[|s.accepted|].stamped.original == original;
    }
  }

  /** In every state a run can end in, a request can be accepted without the app's help exactly when it is pending. */
  lemma AcceptedLaterIff(s: State, original: BridgeRequest)
    requires Reachable(s)
    ensures CanBeAccepted(s, original) <==> IsPending(s, original)
  {
    hide IsPending, Reachable, DeletingStep, CleanStep, GateInv;
    ReachableKeepsGate(s);
    if IsPending(s, original) {
      var path, t := PendingIsAccepted(s, original);
      CleanIsDeleting(path);
    } else if CanBeAccepted(s, original) {
      var path :| IsDeletingPath(path) && path[0] == s && AcceptsMore(s, path[|path| - 1], original);
      NeverAcceptedAlong(path, original, |path| - 1);
    }
  }

  /** Stamps and times that the poll thread remembers do not lie ahead. */
  lemma SampledBefore(s: State)
    requires Reachable(s)
    ensures s.poll.RefreshingAt? || s.poll.LookingAt? || s.poll.Consuming? ==> s.poll.now <= s.clock
    ensures s.poll.Rewriting? ==> s.poll.copy.request.createdAtUtc <= s.clock
  {
    hide Reachable;
    ReachableKeepsInv(s);
    hide GateInv, StatusInv, Linked, AskedFor, Acceptable;
  }

  /**
   A request in the file that is not fresh by the clock can be accepted later, the app doing nothing, exactly
   when its stamp still lies ahead of the clock and it is not about to be deleted or rejected; or when the poll
   thread has taken the time while it was fresh, or holds a usable copy of the same request.
   */
  lemma StaleAcceptedIff(s: State, x: Stamped)
    requires Reachable(s) && s.file == Holds(x) && !IsFresh(x.request.createdAtUtc, s.clock, TTL)
    ensures CanBeAccepted(s, x.original) <==>
              || (WellFormed(x.request) && x.request.createdAtUtc > s.clock
                  && !s.poll.LookingAt? && !s.poll.Consuming? && !s.poll.Discarding?)
              || (s.poll.LookingAt? && Acceptable(x.request, s.poll.now))
              || (s.poll.RefreshingAt? && Acceptable(x.request, s.poll.now) && s.clock - s.poll.now <= TTL)
              || (s.poll.Rewriting? && s.poll.copy.original == x.original && Acceptable(s.poll.copy.request, s.clock))
              || (s.poll.Moving? && s.temp.Holds? && s.temp.stamped.original == x.original
                  && IsUsable(s.temp.stamped, s.clock))
              || (s.poll.Consuming? && s.poll.parsed.original == x.original
                  && Acceptable(s.poll.parsed.request, s.poll.now))
  {
    hide CanBeAccepted, Reachable, WellFormed;
    AcceptedLaterIff(s, x.original);
    SampledBefore(s);
  }

  /**
   A well-formed request that the poll thread is about to read, younger than its time to live and not ahead of
   the clock, is accepted exactly when it was stamped before the time was taken; otherwise it is rejected as stale.
   */
  lemma YoungIsRejectedIff(s: State, x: Stamped)
    requires Reachable(s) && s.poll.LookingAt? && s.file == Holds(x)
    requires WellFormed(x.request) && IsFresh(x.request.createdAtUtc, s.clock, TTL)
    ensures CanBeAccepted(s, x.original) <==> x.request.createdAtUtc <= s.poll.now
    ensures s.poll.now < x.request.createdAtUtc ==> !Acceptable(x.request, s.poll.now)
  {
    hide CanBeAccepted, Reachable, WellFormed;
    AcceptedLaterIff(s, x.original);
    SampledBefore(s);
  }

  // ---------------------------------------------------------------- losing a request because it cannot be read

  /** Deleting an unread file leaves no request that a later read could fail on. */
  lemma {:induction false} DeletedFirst(path: seq<State>, x: Stamped, n: nat)
    requires IsDeletingPath(path) && n < |path|
    requires path[0].file == Holds(x) && (path[0].poll.Consuming? || path[0].poll.Discarding?)
    ensures Emptied(path[n]) || (path[n].poll == path[0].poll && path[n].file == Holds(x))
  {
    hide DeletingStep, Emptied;
    if n > 0 {
      DeletedFirst(path, x, n - 1);
      EmptiedStep(path[n - 1], path[n]);
    }
  }

  /** Nothing lies in the file, and nothing is on its way there. */
  ghost predicate Emptied(s: State) {
    s.file == NoFile && !s.poll.Rewriting? && (s.poll.Moving? ==> s.temp == NoFile)
  }

  lemma EmptiedStep(s: State, t: State)
    requires DeletingStep(s, t)
    ensures Emptied(s) ==> Emptied(t)
    ensures s.poll.Consuming? || s.poll.Discarding? ==> Emptied(t) || (t.poll == s.poll && t.file == s.file)
  {
    hide RoundStep, WorkerStep, AppStep, Acceptable, IsForceScan, IsBlank;
    if PollStep(s, t) {
      if !HandlesFile(s.poll) {
        RoundStepKeeps(s, t);
      }
    } else if AppStep(s, t) || Tick(s, t) {
      OthersKeepStatus(s, t);
    } else {
      var w: nat :| w < |s.workers| && WorkerStep(s, t, w);
      WorkerKeeps(s, t, w);
    }
  }

  /** A path can start one step earlier if the request is not read in that step. */
  lemma CanFailEarlier(s: State, t: State, x: Stamped)
    requires DeletingStep(s, t) && s.file == Holds(x) && !Reads(s, t, x) && CanBeLostByFailedRead(t, x)
    ensures CanBeLostByFailedRead(s, x)
  {
    hide DeletingStep, Reads, FailsToRead;
    var path: seq<State> :| IsDeletingPath(path) && path[0] == t && LosesUnread(path, x) && FailsToReadIt(path, x);
    var longer := [s] + path;
    assert forall i :: 0 < i < |longer| ==> longer[i] == path[i - 1];
    assert IsDeletingPath(longer) && LosesUnread(longer, x);
    var i :| 0 <= i < |path| - 1 && path[i].file == Holds(x) && FailsToRead(path[i], path[i + 1]);
    assert longer[i + 1].file == Holds(x) && FailsToRead(longer[i + 1], longer[i + 2]);
  }

  /** About to read, the poll thread fails and deletes the file. */
  lemma ReadingCanFail(s: State, x: Stamped)
    requires (s.poll.RefreshingAt? || s.poll.LookingAt?) && s.file == Holds(x)
    ensures CanBeLostByFailedRead(s, x)
  {
    var t := s.(poll := Discarding);
    FailedReadStep(s, x);
    OnwardIsClean(t);
    hide DeletingStep, FailsToRead, PollStep;
    var path := [s, t, Onward(t)];
    assert path[0].file == Holds(x) && FailsToRead(path[0], path[1]);
    assert IsDeletingPath(path) && LosesUnread(path, x) && FailsToReadIt(path, x);
  }

  lemma FailedReadStep(s: State, x: Stamped)
    requires (s.poll.RefreshingAt? || s.poll.LookingAt?) && s.file == Holds(x)
    ensures var t := s.(poll := Discarding);
            DeletingStep(s, t) && FailsToRead(s, t) && !Reads(s, t, x)
  {
    hide RoundStep, Restamp, IsForceScan;
    assert PollStep(s, s.(poll := Discarding));
  }

  /** About to take the time, the poll thread takes it, and then fails to read. */
  lemma LookingCanFail(s: State, x: Stamped)
    requires (s.poll.Refreshing? || s.poll.Looking?) && s.file == Holds(x)
    ensures CanBeLostByFailedRead(s, x)
  {
    hide CanBeLostByFailedRead, CleanStep;
    var t := s.(poll := if s.poll.Refreshing? then RefreshingAt(s.clock) else LookingAt(s.clock));
    assert PollStep(s, t);
    PollStepIsClean(s, t);
    ReadingCanFail(t, x);
    CleanMeansDeleting(s, t);
    CanFailEarlier(s, t, x);
  }

  lemma CleanMeansDeleting(s: State, t: State)
    requires CleanStep(s, t)
    ensures DeletingStep(s, t)
  {
    hide DeletingStep;
  }

  /** Unless the file is about to be deleted, the bridge can come to read it and fail. */
  lemma {:induction false} CanComeToFail(s: State, x: Stamped)
    requires GateInv(s) && s.file == Holds(x) && !s.poll.Consuming? && !s.poll.Discarding?
    ensures CanBeLostByFailedRead(s, x)
    decreases Rank(s)
  {
    hide CanBeLostByFailedRead, CleanStep, DeletingStep, GateInv, Rank, TowardsRest, FileStep, RoundStep;
    if s.poll.RefreshingAt? || s.poll.LookingAt? {
      ReadingCanFail(s, x);
    } else if s.poll.Refreshing? || s.poll.Looking? {
      LookingCanFail(s, x);
    } else if IsSettled(s) {
      var t := s.(poll := Looking);
      assert RoundStep(s, t) by { LooksNext(s); }
      PollStepIsClean(s, t);
      LookingCanFail(t, x);
      CleanMeansDeleting(s, t);
      CanFailEarlier(s, t, x);
    } else {
      var t := TowardsRest(s);
      RestIsNearer(s);
      CanComeToFail(t, x);
      CleanMeansDeleting(s, t);
      CanFailEarlier(s, t, x);
    }
  }

  lemma LooksNext(s: State)
    requires IsSettled(s)
    ensures RoundStep(s, s.(poll := Looking))
  {
  }

  /**
   In every state a run can end in, the request in the file can be lost because an attempt to read it fails,
   exactly unless the poll thread is about to delete the file anyway.
   */
  lemma FailedReadLosesIff(s: State, x: Stamped)
    requires Reachable(s) && s.file == Holds(x)
    ensures CanBeLostByFailedRead(s, x) <==> !s.poll.Consuming? && !s.poll.Discarding?
  {
    hide Reachable, GateInv, DeletingStep, LosesUnread, FileStep, RoundStep;
    ReachableKeepsGate(s);
    if !s.poll.Consuming? && !s.poll.Discarding? {
      CanComeToFail(s, x);
    } else if CanBeLostByFailedRead(s, x) {
      var path: seq<State> :| IsDeletingPath(path) && path[0] == s && LosesUnread(path, x) && FailsToReadIt(path, x);
      var i :| 0 <= i < |path| - 1 && path[i].file == Holds(x) && FailsToRead(path[i], path[i + 1]);
      DeletedFirst(path, x, i);
    }
  }
}
