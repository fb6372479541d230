/**
 Runs from the start that show how a request is lost, rejected or kept although it should not be. What they show
 is decided for every reachable state in `RequestLife`.
 */
module RequestRuns {
  import opened Wrappers
  import opened Requests
  import opened BridgeProtocol
  import opened RequestLife

  /** The run ends in the state. */
  ghost predicate EndsIn(run: seq<State>, s: State) { IsRun(run) && run[|run| - 1] == s }

  /** No deletion fails in the run, or no move. */
  ghost predicate AlwaysDeletes(run: seq<State>) {
    forall i :: 0 <= i < |run| - 1 ==> !FailsToDelete(run[i], run[i + 1])
  }

  ghost predicate AlwaysMoves(run: seq<State>) {
    forall i :: 0 <= i < |run| - 1 ==> !FailsToMove(run[i], run[i + 1])
  }

  /** What was not going wrong in the first run does not go wrong in the second. */
  ghost predicate GoesOnAsWell(run: seq<State>, longer: seq<State>) {
    (AlwaysDeletes(run) ==> AlwaysDeletes(longer)) && (AlwaysMoves(run) ==> AlwaysMoves(longer))
  }

  lemma StartOf(s: State) returns (run: seq<State>)
    requires Init(s)
    ensures run == [s] && EndsIn(run, s) && AlwaysDeletes(run) && AlwaysMoves(run)
  {
    run := [s];
  }

  lemma Extend(run: seq<State>, s: State, t: State) returns (longer: seq<State>)
    requires EndsIn(run, s) && Next(s, t)
    ensures longer == run + [t] && EndsIn(longer, t)
    ensures AlwaysDeletes(run) && !FailsToDelete(s, t) ==> AlwaysDeletes(longer)
    ensures AlwaysMoves(run) && !FailsToMove(s, t) ==> AlwaysMoves(longer)
  {
    hide Next, Init, FailsToDelete, FailsToMove;
    longer := run + [t];
    forall i | 0 <= i < |longer| - 1
      ensures Next(longer[i], longer[i + 1])
      ensures AlwaysDeletes(run) && !FailsToDelete(s, t) ==> !FailsToDelete(longer[i], longer[i + 1])
      ensures AlwaysMoves(run) && !FailsToMove(s, t) ==> !FailsToMove(longer[i], longer[i + 1])
    {
      if i == |run| - 1 {
        assert longer[i] == s;
      }
    }
  }

  lemma ReachedBy(run: seq<State>, s: State)
    requires EndsIn(run, s)
    ensures Reachable(s)
  {
    hide IsRun;
  }

  lemma PollExtends(run: seq<State>, s: State, t: State) returns (longer: seq<State>)
    requires EndsIn(run, s) && PollStep(s, t)
    ensures longer == run + [t] && EndsIn(longer, t)
    ensures AlwaysDeletes(run) && (s.poll.Consuming? || s.poll.Discarding? ==> t.file == NoFile) ==> AlwaysDeletes(longer)
    ensures AlwaysMoves(run) && (s.poll.Moving? ==> t.temp == NoFile) ==> AlwaysMoves(longer)
  {
    hide PollStep, EndsIn, AppStep, AlwaysDeletes, AlwaysMoves;
    longer := Extend(run, s, t);
  }

  lemma CleanlyExtends(run: seq<State>, s: State, t: State) returns (longer: seq<State>)
    requires EndsIn(run, s) && CleanStep(s, t)
    ensures longer == run + [t] && EndsIn(longer, t)
    ensures t.poll == s.poll ==> GoesOnAsWell(run, longer)
  {
    hide EndsIn, Next, LeavesFilesAlone, FailsToRead, AlwaysDeletes, AlwaysMoves, RoundStep;
    longer := Extend(run, s, t);
  }

  // ---------------------------------------------------------------- pieces of runs

  function Wrote(s: State, r: BridgeRequest): State {
    var own := Written(r, s.writes);
    s.(temp := Holds(own), app := Renaming(own), writes := s.writes + 1)
  }

  /** The app has put a request in place. */
  function Installed(s: State, r: BridgeRequest): State {
    s.(file := Holds(Written(r, s.writes)), temp := NoFile, writes := s.writes + 1)
  }

  /** The app writes a request and renames it into place, with nothing in between. */
  lemma Installs(run: seq<State>, s: State, r: BridgeRequest) returns (longer: seq<State>)
    requires EndsIn(run, s) && s.app == Away
    ensures longer == run + [Wrote(s, r), Installed(s, r)] && EndsIn(longer, Installed(s, r))
    ensures AppRenames(Wrote(s, r), Installed(s, r)) && GoesOnAsWell(run, longer)
  {
    hide EndsIn, RoundStep, AlwaysDeletes, AlwaysMoves;
    var writing, t := Wrote(s, r), Installed(s, r);
    assert AppStep(s, writing) && AppStep(writing, t);
    longer := Extend(run, s, writing);
    longer := Extend(longer, writing, t);
  }

  /** The poll thread finds the gate free, takes the time and reads the request. */
  lemma ReadsIt(run: seq<State>, s: State, x: Stamped) returns (longer: seq<State>, t: State)
    requires EndsIn(run, s) && s.poll == Polling && !s.busy && s.file == Holds(x)
    ensures t == s.(poll := Consuming(x, s.clock)) && EndsIn(longer, t) && run <= longer
    ensures GoesOnAsWell(run, longer)
  {
    hide EndsIn, Acceptable, AlwaysDeletes, AlwaysMoves;
    var looking := s.(poll := Looking);
    longer := PollExtends(run, s, looking);
    var sampled := s.(poll := LookingAt(s.clock));
    longer := PollExtends(longer, looking, sampled);
    t := s.(poll := Consuming(x, s.clock));
    longer := PollExtends(longer, sampled, t);
  }

  /** From the start, a first request is accepted and a worker begins with it. */
  lemma RunToWork(s0: State, first: BridgeRequest) returns (run: seq<State>, s: State)
    requires Init(s0) && Acceptable(first, s0.clock)
    ensures EndsIn(run, s) && [s0] <= run && AlwaysDeletes(run) && AlwaysMoves(run)
    ensures s.poll == Polling && s.busy && s.workers == [Worker(first, Begun)] && s.clock == s0.clock
    ensures s.app == Away && s.temp == NoFile && s.writes == s0.writes + 1
  {
    hide EndsIn, Acceptable, IsForceScan, AppRenames, AlwaysDeletes, AlwaysMoves;
    run := StartOf(s0);
    run := Installs(run, s0, first);
    s := Installed(s0, first);
    run, s := ReadsIt(run, s, Written(first, s0.writes));
    OnwardIsClean(s);
    var entering := Onward(s);
    run := PollExtends(run, s, entering);
    run, s := EntersAndStarts(run, entering, first);
  }

  lemma EntersAndStarts(run: seq<State>, s: State, request: BridgeRequest) returns (longer: seq<State>, t: State)
    requires EndsIn(run, s) && s.poll == Entering(request) && !s.busy && s.workers == []
    ensures t == s.(poll := Polling, busy := true, workers := [Worker(request, Begun)]) && EndsIn(longer, t)
    ensures run <= longer && GoesOnAsWell(run, longer)
  {
    hide EndsIn, IsForceScan, AlwaysDeletes, AlwaysMoves;
    var starting := s.(busy := true, poll := Starting(request));
    longer := PollExtends(run, s, starting);
    var started := starting.(poll := Checking, workers := [Worker(request, Begun)]);
    longer := PollExtends(longer, starting, started);
    t := started.(poll := Polling);
    longer := PollExtends(longer, started, t);
  }

  /** While that worker runs, a second request waits and the poll thread is about to restamp it. */
  lemma RunToRewriting(s0: State, first: BridgeRequest, waiting: BridgeRequest)
    returns (run: seq<State>, s: State, x: Stamped)
    requires Init(s0) && Acceptable(first, s0.clock) && Acceptable(waiting, s0.clock)
    ensures EndsIn(run, s) && [s0] <= run && AlwaysDeletes(run) && AlwaysMoves(run)
    ensures x == Written(waiting, s0.writes + 1)
    ensures s.poll == Rewriting(Restamp(x, s0.clock)) && s.file == Holds(x) && s.temp == NoFile && s.app == Away
    ensures s.busy && s.workers == [Worker(first, Begun)] && s.clock == s0.clock && s.writes == s0.writes + 2
  {
    hide EndsIn, Acceptable, Restamp, AppRenames, AlwaysDeletes, AlwaysMoves;
    var working;
    run, working := RunToWork(s0, first);
    x := Written(waiting, s0.writes + 1);
    run := Installs(run, working, waiting);
    var filed := Installed(working, waiting);
    var refreshing := filed.(poll := Refreshing);
    run := PollExtends(run, filed, refreshing);
    var sampled := filed.(poll := RefreshingAt(s0.clock));
    run := PollExtends(run, refreshing, sampled);
    s := filed.(poll := Rewriting(Restamp(x, s0.clock)));
    assert PollStep(sampled, s);
    run := PollExtends(run, sampled, s);
  }

  // ---------------------------------------------------------------- lost without being read

  /** The app puts the request in place at `k`, and from then on it is lost unread. */
  ghost predicate LostFrom(run: seq<State>, k: nat, x: Stamped) {
    && IsRun(run) && 0 < k < |run|
    && AppRenames(run[k - 1], run[k]) && run[k].file == Holds(x) && LosesUnread(run[k..], x)
  }

  /** A run in which a refresh replaces a newer request, never read, by the older one. */
  lemma RefreshMayLoseANewerRequest(s0: State, first: BridgeRequest, waiting: BridgeRequest, newer: BridgeRequest)
    returns (run: seq<State>, k: nat, x: Stamped)
    requires Init(s0) && Acceptable(first, s0.clock) && Acceptable(waiting, s0.clock)
    ensures [s0] <= run && LostFrom(run, k, x) && x == Written(newer, s0.writes + 2)
    ensures run[|run| - 1].file == Holds(Restamp(Written(waiting, s0.writes + 1), s0.clock))
    ensures IsCleanPath(run[k..])
  {
    hide Acceptable, CleanStep, IsRun;
    var s, older;
    run, s, older := RunToRewriting(s0, first, waiting);
    x := Written(newer, s0.writes + 2);
    run := Installs(run, s, newer);
    var t := Installed(s, newer);
    k := |run| - 1;
    var u := Onward(t);
    OnwardIsClean(t);
    run := PollExtends(run, t, u);
    var v := Onward(u);
    OnwardIsClean(u);
    run := PollExtends(run, u, v);
    assert run[k..] == [t, u, v];
    assert run[k - 1] == Wrote(s, newer);
  }

  /** A run in which accepting one request deletes a newer one, never read. */
  lemma AcceptanceMayLoseANewerRequest(s0: State, first: BridgeRequest, newer: BridgeRequest)
    returns (run: seq<State>, k: nat, x: Stamped)
    requires Init(s0) && Acceptable(first, s0.clock)
    ensures [s0] <= run && LostFrom(run, k, x) && x == Written(newer, s0.writes + 1) && IsCleanPath(run[k..])
    ensures run[|run| - 1].file == NoFile && run[|run| - 1].poll == Entering(first)
  {
    hide Acceptable, CleanStep, IsRun;
    run := StartOf(s0);
    run := Installs(run, s0, first);
    var s;
    run, s := ReadsIt(run, Installed(s0, first), Written(first, s0.writes));
    x := Written(newer, s0.writes + 1);
    run := Installs(run, s, newer);
    var t := Installed(s, newer);
    k := |run| - 1;
    OnwardIsClean(t);
    run := PollExtends(run, t, Onward(t));
    assert run[k..] == [t, Onward(t)];
    assert run[k - 1] == Wrote(s, newer);
  }

  /** A run in which the only request there is cannot be read and is deleted. */
  lemma FailedReadMayLoseARequest(s0: State, only: BridgeRequest) returns (run: seq<State>, k: nat, x: Stamped)
    requires Init(s0)
    ensures [s0] <= run && LostFrom(run, k, x) && x == Written(only, s0.writes) && !IsAboutToReplace(run[k])
    ensures run[|run| - 1].file == NoFile && run[|run| - 1].accepted == []
    ensures FailsToReadIt(run[k..], x) && IsDeletingPath(run[k..])
  {
    hide FailsToReadIt, IsDeletingPath, LosesUnread, IsRun;
    run := StartOf(s0);
    x := Written(only, s0.writes);
    run := Installs(run, s0, only);
    var s := Installed(s0, only);
    k := |run| - 1;
    var rest;
    run, rest := FailsAndDeletes(run, s, x);
    assert run[k..] == rest;
    assert run[k - 1] == Wrote(s0, only);
  }

  /** At rest, the poll thread looks at the file, fails to read it and deletes it. */
  lemma FailsAndDeletes(run: seq<State>, s: State, x: Stamped) returns (longer: seq<State>, path: seq<State>)
    requires EndsIn(run, s) && s.poll == Polling && !s.busy && s.file == Holds(x)
    ensures |path| > 1 && path[0] == s && longer == run + path[1..] && IsRun(longer)
    ensures path[|path| - 1] == s.(file := NoFile, poll := Checking)
    ensures LosesUnread(path, x) && FailsToReadIt(path, x) && IsDeletingPath(path)
  {
    hide FailsToRead, DeletingStep, IsRun;
    var looking := s.(poll := Looking);
    longer := PollExtends(run, s, looking);
    var sampled := s.(poll := LookingAt(s.clock));
    longer := PollExtends(longer, looking, sampled);
    var failed := s.(poll := Discarding);
    longer := PollExtends(longer, sampled, failed);
    var gone := s.(file := NoFile, poll := Checking);
    longer := PollExtends(longer, failed, gone);
    path := [s, looking, sampled, failed, gone];
    FailedReadPath(s, x);
    assert path[2].file == Holds(x) && FailsToRead(path[2], path[3]);
  }

  /** The steps of that run after the request is in place. */
  lemma FailedReadPath(s: State, x: Stamped)
    requires s.poll == Polling && !s.busy && s.file == Holds(x)
    ensures DeletingStep(s, s.(poll := Looking))
    ensures DeletingStep(s.(poll := Looking), s.(poll := LookingAt(s.clock)))
    ensures DeletingStep(s.(poll := LookingAt(s.clock)), s.(poll := Discarding))
    ensures FailsToRead(s.(poll := LookingAt(s.clock)), s.(poll := Discarding))
    ensures DeletingStep(s.(poll := Discarding), s.(file := NoFile, poll := Checking))
  {
    var looking, sampled := s.(poll := Looking), s.(poll := LookingAt(s.clock));
    assert PollStep(s, looking) && PollStep(looking, sampled);
    hide FileStep, RoundStep, QuietStep, FailsToRead, FailsToDelete;
    PollStepIsClean(s, looking);
    PollStepIsClean(looking, sampled);
    FailedReadStep(sampled, x);
    OnwardIsClean(s.(poll := Discarding));
  }

  // ---------------------------------------------------------------- rejected or kept although it should not be

  /**
   A run in which a request younger than its time to live is rejected as stale: the poll thread took the time
   before the app stamped the request, and read it afterwards.
   */
  lemma YoungMayBeRejected(s0: State, first: BridgeRequest, young: BridgeRequest)
    returns (run: seq<State>, k: nat, x: Stamped)
    requires Init(s0) && WellFormed(young) && young.createdAtUtc > s0.clock
    ensures [s0] <= run && IsRun(run) && 0 < k < |run| - 1 && AppRenames(run[k - 1], run[k])
    ensures x == Written(young, s0.writes + 1) && run[k].file == Holds(x)
    ensures run[k].poll.LookingAt? && IsFresh(young.createdAtUtc, run[k].clock, TTL)
    ensures var t := run[|run| - 1];
            t.poll == Rejecting(young.requestId.value) && t.file == NoFile && !CanBeAccepted(t, young)
  {
    hide WellFormed, CleanStep, IsRun, CanBeAccepted, Reachable;
    run := StartOf(s0);
    run := Installs(run, s0, first);
    var filed := Installed(s0, first);
    var looking := filed.(poll := Looking);
    run := PollExtends(run, filed, looking);
    var sampled := filed.(poll := LookingAt(s0.clock));
    run := PollExtends(run, looking, sampled);
    var later := sampled.(clock := young.createdAtUtc);
    assert Tick(sampled, later);
    run := Extend(run, sampled, later);
    x := Written(young, s0.writes + 1);
    run := Installs(run, later, young);
    var t := Installed(later, young);
    k := |run| - 1;
    assert run[k - 1] == Wrote(later, young) && run[k] == t;
    var read := t.(poll := Consuming(x, s0.clock));
    run := PollExtends(run, t, read);
    assert run[k] == t;
    run := RejectsIt(run, read, x);
    assert run[k] == t && run[k - 1] == Wrote(later, young);
  }

  /** A request that was not fresh when the time was taken is rejected, and is then no longer anywhere. */
  lemma RejectsIt(run: seq<State>, s: State, x: Stamped) returns (longer: seq<State>)
    requires EndsIn(run, s) && s.poll.Consuming? && s.poll.parsed == x
    requires WellFormed(x.request) && !Acceptable(x.request, s.poll.now)
    ensures longer == run + [Onward(s)] && EndsIn(longer, Onward(s))
    ensures Onward(s).poll == Rejecting(x.request.requestId.value) && Onward(s).file == NoFile
    ensures !CanBeAccepted(Onward(s), x.original)
  {
    hide CleanStep, IsRun, CanBeAccepted, Reachable, PollStep;
    OnwardIsClean(s);
    longer := PollExtends(run, s, Onward(s));
    ReachedBy(longer, Onward(s));
    AcceptedLaterIff(Onward(s), x.original);
  }

  /** A run in which a waiting request is rewritten although the gate has been released meanwhile. */
  lemma RestampMayFollowRelease(s0: State, first: BridgeRequest, waiting: BridgeRequest) returns (run: seq<State>)
    requires Init(s0) && Acceptable(first, s0.clock) && Acceptable(waiting, s0.clock)
    ensures [s0] <= run && IsRun(run) && |run| > 1
    ensures var s, t := run[|run| - 2], run[|run| - 1];
            && IsRestamping(s.poll) && !s.busy && s.workers == [] && PollStep(s, t)
            && s.file == Holds(Written(waiting, s0.writes + 1))
            && t.file == Holds(Restamp(Written(waiting, s0.writes + 1), s0.clock)) && t.file != s.file
  {
    hide Acceptable, CopyRequest, CleanStep, IsRun;
    var s, x;
    run, s, x := RunToRewriting(s0, first, waiting);
    run, s := WorkerFinishes(run, s);
    OnwardIsClean(s);
    run := PollExtends(run, s, Onward(s));
    OnwardIsClean(Onward(s));
    run := PollExtends(run, Onward(s), Onward(Onward(s)));
  }

  /** The worker fails, cannot report it, and leaves the gate. */
  lemma WorkerFinishes(run: seq<State>, s: State) returns (longer: seq<State>, t: State)
    requires EndsIn(run, s) && GateInv(s) && s.busy && |s.workers| == 1 && s.workers[0].stage.Begun?
    ensures run <= longer && EndsIn(longer, t) && t == s.(busy := false, workers := [], live := t.live)
    ensures t.live == if IsDump(s.workers[0].request) then s.live else Live(false, false)
    ensures GoesOnAsWell(run, longer)
  {
    hide EndsIn, GateInv, CleanStep, AlwaysDeletes, AlwaysMoves;
    FinishingStep(s);
    var concluded := Finishing(s);
    longer := CleanlyExtends(run, s, concluded);
    FinishingStep(concluded);
    var reported := Finishing(concluded);
    longer := CleanlyExtends(longer, concluded, reported);
    FinishingStep(reported);
    t := Finishing(reported);
    longer := CleanlyExtends(longer, reported, t);
  }

  /**
   A run that ends with a stale request in the file which can nevertheless be accepted, the app doing nothing:
   the poll thread read it while it was just fresh and is about to write it back with a new stamp.
   */
  lemma StaleMayBeRevived(s0: State, first: BridgeRequest, waiting: BridgeRequest) returns (run: seq<State>)
    requires Init(s0) && Acceptable(first, s0.clock) && WellFormed(waiting) && waiting.createdAtUtc == s0.clock - TTL
    ensures [s0] <= run && IsRun(run)
    ensures var s := run[|run| - 1];
            && s.file == Holds(Written(waiting, s0.writes + 1)) && !IsFresh(waiting.createdAtUtc, s.clock, TTL)
            && CanBeAccepted(s, waiting)
  {
    hide ValidateShape, IsRun, CanBeAccepted, Reachable;
    var s, x;
    run, s, x := RunToRewriting(s0, first, waiting);
    var t := s.(clock := s.clock + 1);
    assert Tick(s, t);
    run := Extend(run, s, t);
    ReachedBy(run, t);
    AcceptedLaterIff(t, waiting);
  }

  /** A run that ends with a request stamped ahead of the clock: not fresh, yet acceptable once its time has come. */
  lemma FutureMayBecomeFresh(s0: State, early: BridgeRequest) returns (run: seq<State>)
    requires Init(s0) && WellFormed(early) && early.createdAtUtc > s0.clock
    ensures [s0] <= run && IsRun(run)
    ensures var s := run[|run| - 1];
            && s.file == Holds(Written(early, s0.writes)) && !IsFresh(early.createdAtUtc, s.clock, TTL)
            && CanBeAccepted(s, early)
  {
    hide WellFormed, IsRun, CanBeAccepted, Reachable, AppRenames;
    run := StartOf(s0);
    run := Installs(run, s0, early);
    var s := Installed(s0, early);
    ReachedBy(run, s);
    AcceptedLaterIff(s, early);
  }

  // ---------------------------------------------------------------- full dumps

  /** A full dump of men as the app asks for it. */
  function FullDumpRequest(id: string, createdAtUtc: int): BridgeRequest {
    BridgeRequest(PROTOCOL_VERSION, Some(id), createdAtUtc, Some(FULL_DUMP), Some(MEN), None, None, None, None, None,
                  None, None, None, None)
  }

  lemma FullDumpIsAcceptable(id: string, createdAtUtc: int, now: int)
    requires !IsBlank(Some(id)) && createdAtUtc <= now <= createdAtUtc + TTL
    ensures Acceptable(FullDumpRequest(id, createdAtUtc), now)
  {
  }

  /** The run begins in the state and loses a request unread. */
  ghost predicate Loses(run: seq<State>, s0: State) {
    [s0] <= run && exists k: nat, x: Stamped :: LostFrom(run, k, x)
  }

  /** The run begins in the state and ends with this request in the file, not fresh and yet to be accepted. */
  ghost predicate EndsWithStale(run: seq<State>, s0: State, r: BridgeRequest) {
    && [s0] <= run && IsRun(run)
    && var s := run[|run| - 1];
       && s.file.Holds? && s.file.stamped.request == r && !IsFresh(r.createdAtUtc, s.clock, TTL)
       && CanBeAccepted(s, r)
  }

  /** Full dumps alone, from whatever state the bridge starts in, can be lost in each of the three ways. */
  lemma FullDumpsCanBeLost(s0: State, id: string)
    returns (refreshed: seq<State>, consumed: seq<State>, failed: seq<State>)
    requires Init(s0) && !IsBlank(Some(id))
    ensures Loses(refreshed, s0) && refreshed[|refreshed| - 1].file.Holds?
    ensures Loses(consumed, s0) && consumed[|consumed| - 1].poll.Entering?
    ensures Loses(failed, s0) && failed[|failed| - 1].accepted == []
  {
    var dump := FullDumpRequest(id, s0.clock);
    FullDumpIsAcceptable(id, s0.clock, s0.clock);
    hide FullDumpRequest, Acceptable, LostFrom, FailsToReadIt, IsCleanPath, IsDeletingPath, IsAboutToReplace;
    var k, x;
    refreshed, k, x := RefreshMayLoseANewerRequest(s0, dump, dump, dump);
    consumed, k, x := AcceptanceMayLoseANewerRequest(s0, dump, dump);
    failed, k, x := FailedReadMayLoseARequest(s0, dump);
  }

  /** They can be rejected while young, and accepted although they were found stale or came early. */
  lemma FullDumpsCanBeMistimed(s0: State, id: string)
    returns (young: seq<State>, revived: seq<State>, early: seq<State>)
    requires Init(s0) && !IsBlank(Some(id))
    ensures [s0] <= young && IsRun(young) && young[|young| - 1].poll == Rejecting(id)
    ensures EndsWithStale(revived, s0, FullDumpRequest(id, s0.clock - TTL))
    ensures EndsWithStale(early, s0, FullDumpRequest(id, s0.clock + 1))
  {
    var now, soon := FullDumpRequest(id, s0.clock), FullDumpRequest(id, s0.clock + 1);
    var waiting := FullDumpRequest(id, s0.clock - TTL);
    FullDumpIsAcceptable(id, s0.clock, s0.clock);
    FullDumpIsAcceptable(id, s0.clock + 1, s0.clock + 1);
    FullDumpIsAcceptable(id, s0.clock - TTL, s0.clock);
    hide WellFormed, CanBeAccepted, IsRun, AppRenames, IsBlank, IsRestamping;
    var k, x;
    young, k, x := YoungMayBeRejected(s0, now, soon);
    revived := StaleMayBeRevived(s0, now, waiting);
    early := FutureMayBecomeFresh(s0, soon);
  }
}
