/**
 The poll thread, the worker threads it starts, the app that writes requests and the clock, interleaved
 step by step over the work gate, the request file, the temporary file beside it, the status file and the
 live indexes. Looking at the gate, taking the time, reading a file, writing the temporary file and moving,
 renaming or deleting are separate steps, so anything may happen in between, and reads, deletes, moves and
 status writes may fail.
 */
module BridgeProtocol {
  import opened Wrappers
  import opened Requests

  datatype Modules = Modules(gamePlugin: bool, gameAssembly: bool)

  datatype Phase = Idle | Scanning | Ready | Failed

  /** What a status says about boosts of players and of staff: supported, not supported, or nothing. */
  datatype Offer = Offer(players: Option<bool>, staff: Option<bool>)

  datatype Status = Status(phase: Phase, requestId: Option<string>, modules: Modules, offer: Offer)

  /** Whether the index of players, and that of staff, has candidates for the running build. */
  datatype Live = Live(players: bool, staff: bool)

  /** A request with the one the app wrote, the number of that write and every time stamp it has carried since. */
  datatype Stamped = Stamped(request: BridgeRequest, original: BridgeRequest, trail: seq<int>, serial: nat)

  datatype File = NoFile | Garbage | Holds(stamped: Stamped)

  /** The app is about to rename the temporary file it has written, or it is doing something else. */
  datatype App = Away | Renaming(own: Stamped)

  datatype Stage =
    | Begun
    | Working
    | Concluded(phase: Phase, offer: Offer, announced: bool)
    | Reported(lost: bool)

  datatype Worker = Worker(request: BridgeRequest, stage: Stage)

  /** What the poll thread is about to do, with what it remembers. */
  datatype Poll =
    | Polling
    | Refreshing
    | RefreshingAt(now: int)
    | Rewriting(copy: Stamped)
    | Moving
    | Looking
    | LookingAt(now: int)
    | Consuming(parsed: Stamped, now: int)
    | Discarding
    | Rejecting(observedId: string)
    | Entering(request: BridgeRequest)
    | Starting(request: BridgeRequest)
    | Checking
    | Reading
    | Rechecking(current: Status, detected: Modules)
    | Overwriting(current: Status, detected: Modules)

  datatype Acceptance = Acceptance(stamped: Stamped, at: int)

  datatype State = State(
    busy: bool,
    poll: Poll,
    workers: seq<Worker>,
    file: File,
    temp: File,
    app: App,
    writes: nat,
    forceScan: bool,
    status: Status,
    live: Live,
    clock: int,
    accepted: seq<Acceptance>)

  const TTL: int := REQUEST_TTL_SECONDS

  // ---------------------------------------------------------------- the poll thread

  function Restamp(x: Stamped, now: int): Stamped {
    Stamped(CopyRequest(x.request, now), x.original, x.trail + [now], x.serial)
  }

  predicate Acceptable(r: BridgeRequest, now: int) {
    WellFormed(r) && IsFresh(r.createdAtUtc, now, TTL)
  }

  /** A manual scan: a full dump under an identity of its own. */
  predicate IsForceScan(r: BridgeRequest) {
    && r.protocolVersion == PROTOCOL_VERSION && r.operation == Some(FULL_DUMP) && r.playerDatabaseScope == Some(MEN)
    && r.requestId.Some? && "force-scan-" < r.requestId.value
  }

  const NO_OFFER: Offer := Offer(None, None)

  /** The file is deleted, or the attempt fails. */
  predicate IsDeletedOrKept(before: File, after: File) { after == NoFile || after == before }

  /** The poll thread is busy with the request file. */
  predicate HandlesFile(p: Poll) {
    || p.Refreshing? || p.RefreshingAt? || p.Rewriting? || p.Moving?
    || p.Looking? || p.LookingAt? || p.Consuming? || p.Discarding?
  }

  /** Looking at the gate starts a round; the round handles the file, starts work and brings the flags up to date. */
  predicate PollStep(s: State, t: State) {
    if HandlesFile(s.poll) then FileStep(s, t) else RoundStep(s, t)
  }

  predicate FileStep(s: State, t: State) {
    match s.poll
    case Refreshing =>
      t == s.(poll := RefreshingAt(s.clock))
    case RefreshingAt(now) =>
      (match s.file
       case NoFile => t == s.(poll := Checking)
       case Garbage => t == s.(poll := Discarding)
       case Holds(x) =>
         || t == s.(poll := Discarding)
         || t == s.(poll := if Acceptable(x.request, now) then Rewriting(Restamp(x, now)) else Checking))
    case Rewriting(copy) =>
      || t == s.(temp := Holds(copy), poll := Moving)
      || (t.temp in {s.temp, Garbage} && t == s.(temp := t.temp, poll := Checking))
    case Moving =>
      || t == s.(poll := Checking)
      || (s.temp != NoFile && t == s.(file := s.temp, temp := NoFile, poll := Checking))
    case Looking =>
      if s.file != NoFile then t == s.(poll := LookingAt(s.clock))
      else if s.forceScan then t.poll.Entering? && IsForceScan(t.poll.request) && t == s.(poll := t.poll)
      else t == s.(poll := Checking)
    case LookingAt(now) =>
      (match s.file
       case NoFile => t == s.(poll := Checking)
       case Garbage => t == s.(poll := Discarding)
       case Holds(x) => t == s.(poll := Discarding) || t == s.(poll := Consuming(x, now)))
    case Consuming(x, now) =>
      && IsDeletedOrKept(s.file, t.file)
      && if Acceptable(x.request, now) then
           t == s.(file := t.file, poll := Entering(x.request), accepted := s.accepted + [Acceptance(x, now)])
         else
           t == s.(file := t.file, poll := AfterRejecting(x))
    case Discarding =>
      IsDeletedOrKept(s.file, t.file) && t == s.(file := t.file, poll := Checking)
    case _ => false
  }

  predicate RoundStep(s: State, t: State) {
    match s.poll
    case Polling =>
      t == s.(poll := if s.busy then Refreshing else Looking)
    case Rejecting(id) =>
      t == s.(poll := Polling)
      || t == s.(poll := Checking, status := Status(Failed, Some(id), t.status.modules, NO_OFFER))
    case Entering(request) =>
      if !s.busy then t == s.(busy := true, poll := Starting(request))
      else t == s.(poll := Polling)
           || t == s.(poll := Checking, status := Status(Failed, request.requestId, t.status.modules, NO_OFFER))
    case Starting(request) =>
      t == s.(poll := Checking, workers := s.workers + [Worker(request, Begun)])
    case Checking =>
      t == s.(poll := if s.busy then Polling else Reading)
    case Reading =>
      t == s.(poll := Polling) || (t.poll.Rechecking? && t == s.(poll := Rechecking(s.status, t.poll.detected)))
    case Rechecking(current, detected) =>
      t == s.(poll := if s.busy then Polling else Overwriting(current, detected))
    case Overwriting(current, detected) =>
      t == s.(poll := Polling) || t == s.(poll := Polling, status := current.(modules := detected))
    case _ => false
  }

  /** A rejected request is reported if it could be identified. */
  function AfterRejecting(x: Stamped): Poll {
    if IsBlank(x.request.requestId) then Checking else Rejecting(x.request.requestId.value)
  }

  /** A file that holds a request cannot be read, which the poll thread takes for a reason to delete it. */
  predicate FailsToRead(s: State, t: State) {
    PollStep(s, t) && (s.poll.RefreshingAt? || s.poll.LookingAt?) && s.file.Holds? && t.poll.Discarding?
  }

  /** A file that the poll thread deletes stays where it is. */
  predicate FailsToDelete(s: State, t: State) {
    PollStep(s, t) && (s.poll.Consuming? || s.poll.Discarding?) && s.file != NoFile && t.file == s.file
  }

  /** A temporary file that the poll thread moves stays where it is. */
  predicate FailsToMove(s: State, t: State) {
    PollStep(s, t) && s.poll.Moving? && s.temp != NoFile && t.temp == s.temp
  }

  // ---------------------------------------------------------------- workers

  predicate IsDump(r: BridgeRequest) { r.operation == Some(FULL_DUMP) }

  /** What a worker's first status says about boosts: its own kind is not available for the moment. */
  function OpeningOffer(r: BridgeRequest): Offer {
    if IsDump(r) then NO_OFFER
    else if r.operation == Some(BOOST_STAFF_CURRENT_ABILITY) then Offer(None, Some(false))
    else Offer(Some(false), None)
  }

  /** Boosts are offered exactly as far as there are candidates behind them. */
  function OfferOf(live: Live): Offer { Offer(Some(live.players), Some(live.staff)) }

  /**
   How a worker's work can end. A successful dump files what it found; one that fails changes nothing, unless it
   crashes after it has announced itself. A boost that is done, or refused with everything as before, keeps both
   indexes; any other failure empties both, also when the worker fails before it could announce itself.
   */
  predicate Concludes(r: BridgeRequest, before: Live, after: Live, how: Stage) {
    && how.Concluded?
    && if IsDump(r) then
         || (how.announced && how.phase.Ready? && how.offer == OfferOf(after))
         || (how.announced && how.phase.Failed? && how.offer == NO_OFFER)
         || (after == before && how.phase.Failed?
             && (how.offer == NO_OFFER || (how.announced && how.offer == OfferOf(after))))
       else
         || (after == before && how.announced && (how.phase.Ready? || how.phase.Failed?) && how.offer == OfferOf(after))
         || (after == before && how.announced && how.phase.Failed? && how.offer == OpeningOffer(r))
         || (after == Live(false, false) && how.phase.Failed? && how.offer == OfferOf(after))
  }

  /** One worker announces itself, ends its work, reports the outcome if it can, or leaves the gate. */
  predicate WorkerStep(s: State, t: State, i: nat)
    requires i < |s.workers|
  {
    var w := s.workers[i];
    match w.stage
    case Begun =>
      || t == s.(status := Status(Scanning, w.request.requestId, t.status.modules, OpeningOffer(w.request)),
                 workers := s.workers[i := w.(stage := Working)])
      || WorkEnds(s, t, i, false)
    case Working => WorkEnds(s, t, i, true)
    case Concluded(phase, offer, _) =>
      || t == s.(forceScan := t.forceScan, workers := s.workers[i := w.(stage := Reported(true))])
      || t == s.(forceScan := t.forceScan, status := Status(phase, w.request.requestId, t.status.modules, offer),
                 workers := s.workers[i := w.(stage := Reported(false))])
    case Reported(_) => t == s.(busy := false, workers := s.workers[..i] + s.workers[i + 1..])
  }

  predicate WorkEnds(s: State, t: State, i: nat, announced: bool)
    requires i < |s.workers|
  {
    var w := s.workers[i];
    && i < |t.workers|
    && Concludes(w.request, s.live, t.live, t.workers[i].stage) && t.workers[i].stage.announced == announced
    && t == s.(live := t.live, workers := s.workers[i := w.(stage := t.workers[i].stage)])
  }

  // ---------------------------------------------------------------- the app

  /** A request as the app writes it for the `serial`-th time. */
  function Written(r: BridgeRequest, serial: nat): Stamped { Stamped(r, r, [r.createdAtUtc], serial) }

  /** The app writes a request to the temporary file, which has the name that the bridge uses as well. */
  predicate AppWrites(s: State, t: State) {
    && s.app.Away? && t.app.Renaming? && t.app.own == Written(t.app.own.request, s.writes)
    && t == s.(temp := Holds(t.app.own), app := t.app, writes := s.writes + 1)
  }

  /** It renames that file, whatever it holds by then. Without the file, or for any other reason, renaming fails. */
  predicate AppRenames(s: State, t: State) {
    && s.app.Renaming?
    && (t == s.(app := Away) || (s.temp != NoFile && t == s.(file := s.temp, temp := NoFile, app := Away)))
  }

  /** Writing fails, and leaves an unfinished file. */
  predicate AppFailsToWrite(s: State, t: State) { s.app.Away? && t == s.(temp := Garbage) }

  /** The app writes and renames; others may leave anything in the request file, or ask for a manual scan. */
  predicate AppStep(s: State, t: State) {
    || AppWrites(s, t) || AppFailsToWrite(s, t) || AppRenames(s, t)
    || t == s.(file := Garbage) || t == s.(forceScan := true)
  }

  predicate Tick(s: State, t: State) { s.clock <= t.clock && t == s.(clock := t.clock) }

  ghost predicate WorkerMoves(s: State, t: State) { exists i: nat :: i < |s.workers| && WorkerStep(s, t, i) }

  ghost predicate Next(s: State, t: State) { PollStep(s, t) || WorkerMoves(s, t) || AppStep(s, t) || Tick(s, t) }

  ghost predicate Init(s: State) {
    && !s.busy && s.poll == Polling && s.workers == [] && s.file == NoFile && s.temp == NoFile && s.app == Away
    && s.accepted == [] && s.live == Live(false, false)
    && s.status.phase == Idle && s.status.requestId == None && s.status.offer == OfferOf(s.live)
  }

  ghost predicate IsRun(run: seq<State>) {
    run != [] && Init(run[0]) && forall i :: 0 <= i < |run| - 1 ==> Next(run[i], run[i + 1])
  }

  // ---------------------------------------------------------------- the invariant

  /** The request is the app's own but for its stamp, and no refresh bridged a gap longer than the time to live. */
  ghost predicate Linked(x: Stamped) {
    && x.trail != [] && x.trail[0] == x.original.createdAtUtc
    && x.request == x.original.(createdAtUtc := x.trail[|x.trail| - 1])
    && forall i :: 0 <= i < |x.trail| - 1 ==> 0 <= x.trail[i + 1] - x.trail[i] <= TTL
  }

  /** The poll thread has found the gate free since it last looked, and has not started anything yet. */
  predicate FoundGateFree(p: Poll) {
    || p.Looking? || p.LookingAt? || p.Consuming? || p.Rejecting? || p.Entering?
    || p.Reading? || p.Rechecking? || p.Overwriting?
  }

  /** The work was asked for: by an accepted request or by a manual scan. */
  ghost predicate AskedFor(s: State, request: BridgeRequest) {
    IsForceScan(request) || exists a :: a in s.accepted && a.stamped.request == request
  }

  ghost predicate GateInv(s: State) {
    && |s.workers| <= 1
    && (s.busy <==> s.workers != [] || s.poll.Starting?)
    && (s.poll.Starting? ==> s.workers == [])
    && (FoundGateFree(s.poll) ==> !s.busy)
  }

  ghost predicate StatusInv(s: State) {
    && (s.poll.Rechecking? || s.poll.Overwriting? ==> s.poll.current == s.status)
    && (forall w :: w in s.workers ==>
          && (w.stage.Working? || (w.stage.Concluded? && w.stage.announced) ==>
                && s.status.phase == Scanning && s.status.requestId == w.request.requestId
                && s.status.offer == OpeningOffer(w.request))
          && (w.stage.Concluded? ==> w.stage.phase == Ready || w.stage.phase == Failed)
          && (w.stage.Reported? && !w.stage.lost ==>
                (s.status.phase == Ready || s.status.phase == Failed) && s.status.requestId == w.request.requestId))
  }

  ghost predicate RequestInv(s: State) {
    && (s.file.Holds? ==> Linked(s.file.stamped))
    && (s.temp.Holds? ==> Linked(s.temp.stamped))
    && (s.poll.Rewriting? ==>
          Linked(s.poll.copy) && |s.poll.copy.trail| > 1 && s.poll.copy.request.createdAtUtc <= s.clock)
    && (s.poll.Consuming? ==> Linked(s.poll.parsed))
    && (s.poll.RefreshingAt? || s.poll.LookingAt? || s.poll.Consuming? ==> s.poll.now <= s.clock)
    && (forall a :: a in s.accepted ==>
          Linked(a.stamped) && Acceptable(a.stamped.request, a.at) && a.at <= s.clock)
    && (s.poll.Entering? || s.poll.Starting? ==> AskedFor(s, s.poll.request))
    && (forall w :: w in s.workers ==> AskedFor(s, w.request))
  }

  ghost predicate Inv(s: State) { GateInv(s) && StatusInv(s) && RequestInv(s) }

  lemma RestampKeepsLink(x: Stamped, now: int)
    requires Linked(x) && IsFresh(x.request.createdAtUtc, now, TTL)
    ensures Linked(Restamp(x, now))
  {
    var y := Restamp(x, now);
    assert y.trail[|x.trail|] == now;
    forall i | 0 <= i < |y.trail| - 1 ensures 0 <= y.trail[i + 1] - y.trail[i] <= TTL {
      if i < |x.trail| - 1 {
        assert y.trail[i] == x.trail[i] && y.trail[i + 1] == x.trail[i + 1];
      }
    }
  }

  /** A worker touches the status, the indexes and the gate only. */
  lemma WorkerKeeps(s: State, t: State, i: nat)
    requires i < |s.workers| && WorkerStep(s, t, i)
    ensures t.file == s.file && t.temp == s.temp && t.app == s.app && t.writes == s.writes
    ensures t.poll == s.poll && t.clock == s.clock && t.accepted == s.accepted
    ensures forall w :: w in t.workers ==> exists v :: v in s.workers && v.request == w.request
  {
    hide Concludes, OpeningOffer;
    forall w | w in t.workers ensures exists v :: v in s.workers && v.request == w.request {
      assert s.workers[i] in s.workers;
      assert w in s.workers || w.request == s.workers[i].request;
    }
  }

  /** Handling the file leaves the gate, the workers, the status and the app alone. */
  lemma FileStepKeeps(s: State, t: State)
    requires FileStep(s, t)
    ensures t.busy == s.busy && t.workers == s.workers && t.status == s.status && t.live == s.live
    ensures t.clock == s.clock && t.app == s.app && t.writes == s.writes
    ensures !s.poll.Consuming? ==> t.accepted == s.accepted
    ensures !s.poll.Moving? && !s.poll.Consuming? && !s.poll.Discarding? ==> t.file == s.file
    ensures !s.poll.Rewriting? && !s.poll.Moving? ==> t.temp == s.temp
    ensures HandlesFile(t.poll) || t.poll.Checking? || t.poll.Entering? || t.poll.Rejecting?
    ensures FoundGateFree(t.poll) ==> FoundGateFree(s.poll)
  {
    hide Acceptable, IsForceScan, Restamp, IsBlank;
  }

  /** The rest of a round leaves the files alone. */
  lemma RoundStepKeeps(s: State, t: State)
    requires RoundStep(s, t)
    ensures t.file == s.file && t.temp == s.temp && t.accepted == s.accepted && t.live == s.live
    ensures t.clock == s.clock && t.app == s.app && t.writes == s.writes
    ensures s.workers <= t.workers && (!s.poll.Starting? ==> t.workers == s.workers)
    ensures HandlesFile(t.poll) ==> s.poll.Polling? && (t.poll.Refreshing? || t.poll.Looking?)
    ensures !t.poll.Entering?
  {
  }

  lemma InitInv(s: State)
    requires Init(s)
    ensures Inv(s)
  {
  }

  lemma PollStepGate(s: State, t: State)
    requires GateInv(s) && PollStep(s, t)
    ensures GateInv(t)
  {
    if HandlesFile(s.poll) {
      hide FileStep, RoundStep;
      FileStepKeeps(s, t);
    } else {
      RoundStepGate(s, t);
    }
  }

  lemma RoundStepGate(s: State, t: State)
    requires GateInv(s) && RoundStep(s, t)
    ensures GateInv(t)
  {
  }

  lemma PollStepStatus(s: State, t: State)
    requires GateInv(s) && StatusInv(s) && PollStep(s, t)
    ensures StatusInv(t)
  {
    hide FileStep, RoundStep, OpeningOffer;
    if HandlesFile(s.poll) {
      FileStepKeeps(s, t);
    } else {
      RoundStepStatus(s, t);
    }
  }

  lemma RoundStepStatus(s: State, t: State)
    requires GateInv(s) && StatusInv(s) && RoundStep(s, t)
    ensures StatusInv(t)
  {
    hide OpeningOffer;
  }

  /** What was asked for stays asked for. */
  lemma StillAskedFor(s: State, t: State, request: BridgeRequest)
    requires AskedFor(s, request) && s.accepted <= t.accepted
    ensures AskedFor(t, request)
  {
    hide IsForceScan;
    if !IsForceScan(request) {
      var a :| a in s.accepted && a.stamped.request == request;
      assert a in t.accepted;
    }
  }

  lemma AcceptingKeepsRequests(s: State, t: State)
    requires RequestInv(s) && s.poll.Consuming? && PollStep(s, t)
    ensures RequestInv(t)
  {
    hide Linked, IsForceScan, WellFormed, AskedFor;
    forall w | w in s.workers ensures AskedFor(t, w.request) {
      StillAskedFor(s, t, w.request);
    }
    if t.poll.Entering? {
      AcceptedIsAskedFor(t, Acceptance(s.poll.parsed, s.poll.now), |s.accepted|);
    }
  }

  lemma AcceptedIsAskedFor(s: State, a: Acceptance, i: nat)
    requires i < |s.accepted| && s.accepted[i] == a
    ensures AskedFor(s, a.stamped.request)
  {
  }

  lemma PollStepRequests(s: State, t: State)
    requires RequestInv(s) && PollStep(s, t)
    ensures RequestInv(t)
  {
    hide FileStep, RoundStep, RequestInv;
    if s.poll.Consuming? {
      AcceptingKeepsRequests(s, t);
    } else if HandlesFile(s.poll) {
      FileStepRequests(s, t);
    } else {
      RoundStepRequests(s, t);
    }
  }

  lemma RoundStepRequests(s: State, t: State)
    requires RequestInv(s) && RoundStep(s, t)
    ensures RequestInv(t)
  {
    hide Linked, Acceptable, AskedFor, RoundStep;
    RoundStepKeeps(s, t);
    StartedWasAskedFor(s, t);
    forall r: BridgeRequest ensures AskedFor(t, r) <==> AskedFor(s, r) {
      SameAsked(s, t, r);
    }
  }

  lemma StartedWasAskedFor(s: State, t: State)
    requires RequestInv(s) && RoundStep(s, t)
    ensures t.poll.Starting? ==> AskedFor(s, t.poll.request)
    ensures forall w :: w in t.workers ==> AskedFor(s, w.request)
  {
    hide Linked, AskedFor, Acceptable;
  }

  lemma FileStepRequests(s: State, t: State)
    requires RequestInv(s) && FileStep(s, t) && !s.poll.Consuming?
    ensures RequestInv(t)
  {
    hide Linked, Acceptable, AskedFor, FileStep;
    FileStepKeeps(s, t);
    FileStaysLinked(s, t);
    CopiesStayLinked(s, t);
    NothingElseEnters(s, t);
    forall r: BridgeRequest ensures AskedFor(t, r) <==> AskedFor(s, r) {
      SameAsked(s, t, r);
    }
  }

  lemma FileStaysLinked(s: State, t: State)
    requires RequestInv(s) && FileStep(s, t) && !s.poll.Consuming?
    ensures t.file.Holds? ==> Linked(t.file.stamped)
    ensures t.temp.Holds? ==> Linked(t.temp.stamped)
  {
    hide Linked, AskedFor, Acceptable;
  }

  lemma CopiesStayLinked(s: State, t: State)
    requires RequestInv(s) && FileStep(s, t) && !s.poll.Consuming?
    ensures t.poll.Rewriting? ==>
              Linked(t.poll.copy) && |t.poll.copy.trail| > 1 && t.poll.copy.request.createdAtUtc <= t.clock
    ensures t.poll.Consuming? ==> Linked(t.poll.parsed)
    ensures t.poll.RefreshingAt? || t.poll.LookingAt? || t.poll.Consuming? ==> t.poll.now <= t.clock
  {
    hide Linked, AskedFor, Acceptable, Restamp;
    if s.poll.RefreshingAt? && t.poll.Rewriting? {
      RefreshedIsLinked(s, t);
    }
  }

  /** Unless a request is consumed, the poll thread enters the gate only for a manual scan. */
  lemma NothingElseEnters(s: State, t: State)
    requires FileStep(s, t) && !s.poll.Consuming?
    ensures t.poll.Entering? ==> AskedFor(t, t.poll.request)
  {
    hide IsForceScan, Acceptable;
  }

  lemma RefreshedIsLinked(s: State, t: State)
    requires RequestInv(s) && s.poll.RefreshingAt? && FileStep(s, t) && t.poll.Rewriting?
    ensures Linked(t.poll.copy) && |t.poll.copy.trail| > 1 && t.poll.copy.request.createdAtUtc <= t.clock
  {
    RestampKeepsLink(s.file.stamped, s.poll.now);
  }

  lemma PollStepInv(s: State, t: State)
    requires Inv(s) && PollStep(s, t)
    ensures Inv(t)
  {
    hide GateInv, StatusInv, RequestInv, PollStep, FileStep, RoundStep;
    PollStepGate(s, t);
    PollStepStatus(s, t);
    PollStepRequests(s, t);
  }

  lemma WorkerStepInv(s: State, t: State, i: nat)
    requires Inv(s) && i < |s.workers| && WorkerStep(s, t, i)
    ensures Inv(t)
  {
    hide Inv, RequestInv, StatusInv, GateInv, WorkerStep;
    assert GateInv(s) && StatusInv(s) && RequestInv(s) by { InvHas(s); }
    WorkerStepGate(s, t, i);
    WorkerStepStatus(s, t, i);
    WorkerStepRequests(s, t, i);
    InvIs(t);
  }

  lemma InvHas(s: State)
    requires Inv(s)
    ensures GateInv(s) && StatusInv(s) && RequestInv(s)
  {
  }

  lemma InvIs(s: State)
    requires GateInv(s) && StatusInv(s) && RequestInv(s)
    ensures Inv(s)
  {
  }

  lemma WorkerStepGate(s: State, t: State, i: nat)
    requires GateInv(s) && i < |s.workers| && WorkerStep(s, t, i)
    ensures GateInv(t)
  {
    hide Concludes;
  }

  lemma WorkerStepStatus(s: State, t: State, i: nat)
    requires GateInv(s) && StatusInv(s) && i < |s.workers| && WorkerStep(s, t, i)
    ensures StatusInv(t)
  {
    assert i == 0 && |s.workers| == 1;
    hide IsDump, OpeningOffer, OfferOf;
  }

  lemma WorkerStepRequests(s: State, t: State, i: nat)
    requires RequestInv(s) && i < |s.workers| && WorkerStep(s, t, i)
    ensures RequestInv(t)
  {
    hide Linked, IsForceScan, WellFormed, Acceptable, WorkerStep, AskedFor;
    WorkerKeeps(s, t, i);
    forall r: BridgeRequest ensures AskedFor(t, r) <==> AskedFor(s, r) {
      SameAsked(s, t, r);
    }
  }

  lemma OtherStepInv(s: State, t: State)
    requires Inv(s) && (AppStep(s, t) || Tick(s, t))
    ensures Inv(t)
  {
    hide RequestInv;
    OtherStepRequests(s, t);
    hide AppWrites, AppRenames, OpeningOffer;
    OthersKeepStatus(s, t);
  }

  lemma OthersKeepStatus(s: State, t: State)
    requires AppStep(s, t) || Tick(s, t)
    ensures t.busy == s.busy && t.poll == s.poll && t.workers == s.workers && t.status == s.status && t.live == s.live
    ensures t.accepted == s.accepted && s.clock <= t.clock
    ensures AppStep(s, t) ==> t.clock == s.clock
  {
  }

  lemma OtherStepRequests(s: State, t: State)
    requires RequestInv(s) && (AppStep(s, t) || Tick(s, t))
    ensures RequestInv(t)
  {
    hide IsForceScan, WellFormed, Acceptable, AskedFor;
    OthersKeepStatus(s, t);
    forall r: BridgeRequest ensures AskedFor(t, r) <==> AskedFor(s, r) {
      SameAsked(s, t, r);
    }
    if AppWrites(s, t) {
      assert Linked(t.app.own);
    }
    hide Linked;
  }

  lemma SameAsked(s: State, t: State, r: BridgeRequest)
    requires t.accepted == s.accepted
    ensures AskedFor(t, r) <==> AskedFor(s, r)
  {
  }

  /** The invariant holds in every state of every run. */
  lemma {:induction false} RunsKeepInv(run: seq<State>, i: nat)
    requires IsRun(run) && i < |run|
    ensures Inv(run[i])
  {
    hide Inv, PollStep, WorkerStep, AppStep, Tick;
    if i == 0 {
      InitInv(run[0]);
    } else {
      RunsKeepInv(run, i - 1);
      var s, t := run[i - 1], run[i];
      assert Next(s, t);
      if PollStep(s, t) {
        PollStepInv(s, t);
      } else if AppStep(s, t) || Tick(s, t) {
        OtherStepInv(s, t);
      } else {
        var w: nat :| w < |s.workers| && WorkerStep(s, t, w);
        WorkerStepInv(s, t, w);
      }
    }
  }

  // ---------------------------------------------------------------- what every run guarantees

  /** At most one worker exists, and the poll thread never finds the gate taken after it found it free. */
  lemma OneWorkerAtATime(run: seq<State>, i: nat)
    requires IsRun(run) && i < |run|
    ensures |run[i].workers| <= 1
    ensures run[i].workers != [] ==> run[i].busy
    ensures run[i].poll.Entering? ==> !run[i].busy && run[i].workers == []
  {
    RunsKeepInv(run, i);
  }

  /** While a worker exists, every other step leaves the gate, the workers and the status as they are. */
  lemma OthersWhileWorking(s: State, t: State)
    requires GateInv(s) && s.workers != [] && Next(s, t) && !WorkerStep(s, t, 0)
    ensures t.busy == s.busy && t.workers == s.workers && t.status == s.status
  {
    hide FileStep, RoundStep, WorkerStep, AppStep;
    if PollStep(s, t) {
      if HandlesFile(s.poll) {
        FileStepKeeps(s, t);
      } else {
        RoundWhileWorking(s, t);
      }
    } else if AppStep(s, t) || Tick(s, t) {
      OthersKeepStatus(s, t);
    } else {
      var w: nat :| w < |s.workers| && WorkerStep(s, t, w);
    }
  }

  lemma RoundWhileWorking(s: State, t: State)
    requires GateInv(s) && s.workers != [] && RoundStep(s, t)
    ensures t.busy == s.busy && t.workers == s.workers && t.status == s.status
  {
  }

  /** While a worker exists, only that worker changes the status. */
  lemma OnlyTheWorkerReports(run: seq<State>, i: nat)
    requires IsRun(run) && i + 1 < |run|
    requires run[i].workers != [] && run[i + 1].status != run[i].status
    ensures WorkerStep(run[i], run[i + 1], 0)
  {
    hide Next, WorkerStep;
    RunsKeepInv(run, i);
    if !WorkerStep(run[i], run[i + 1], 0) {
      OthersWhileWorking(run[i], run[i + 1]);
    }
  }

  /** Rewriting the module flags changes the module flags of the status as it is, and nothing else of it. */
  lemma FlagRefreshKeepsStatus(run: seq<State>, i: nat)
    requires IsRun(run) && i + 1 < |run|
    requires run[i].poll.Overwriting? && PollStep(run[i], run[i + 1])
    ensures run[i + 1].status in {run[i].status, run[i].status.(modules := run[i].poll.detected)}
    ensures run[i].workers == []
  {
    RunsKeepInv(run, i);
  }

  /** When the gate is released, the status reports the outcome of the request, unless that could not be written. */
  lemma ReleaseMeansReported(run: seq<State>, i: nat)
    requires IsRun(run) && i + 1 < |run|
    requires run[i].busy && !run[i + 1].busy
    ensures run[i].workers != [] && run[i + 1].workers == []
    ensures run[i].workers[0].stage.Reported?
    ensures run[i].workers[0].stage.lost
            || ((run[i + 1].status.phase == Ready || run[i + 1].status.phase == Failed)
                && run[i + 1].status.requestId == run[i].workers[0].request.requestId)
    ensures AskedFor(run[i], run[i].workers[0].request)
  {
    hide Next, WorkerStep, AskedFor;
    RunsKeepInv(run, i);
    GateIsReleased(run[i], run[i + 1]);
    assert run[i].workers[0] in run[i].workers;
  }

  lemma GateIsReleased(s: State, t: State)
    requires GateInv(s) && Next(s, t) && s.busy && !t.busy
    ensures s.workers != [] && s.workers[0].stage.Reported? && t.workers == [] && t.status == s.status
  {
    hide FileStep, RoundStep, AppStep, WorkerStep;
    if s.workers != [] {
      if WorkerStep(s, t, 0) {
        LeavingStep(s, t);
      } else {
        OthersWhileWorking(s, t);
      }
    } else if PollStep(s, t) {
      RoundStepGate(s, t);
      StartingKeepsBusy(s, t);
    } else if AppStep(s, t) || Tick(s, t) {
      OthersKeepStatus(s, t);
    }
  }

  lemma LeavingStep(s: State, t: State)
    requires |s.workers| == 1 && WorkerStep(s, t, 0) && s.busy && !t.busy
    ensures s.workers[0].stage.Reported? && t.workers == [] && t.status == s.status
  {
    hide Concludes, OpeningOffer;
  }

  lemma StartingKeepsBusy(s: State, t: State)
    requires s.poll.Starting? && RoundStep(s, t)
    ensures t.busy == s.busy
  {
  }

  /**
   Every accepted request is one the app wrote, unchanged but for its time stamp, and no two consecutive
   stamps, nor the last stamp and the acceptance, are further apart than the time to live.
   */
  lemma AcceptedRequestsAreLinked(run: seq<State>, i: nat, a: Acceptance)
    requires IsRun(run) && i < |run| && a in run[i].accepted
    ensures Linked(a.stamped) && WellFormed(a.stamped.original)
    ensures forall k :: 0 <= k < |a.stamped.trail| - 1 ==> 0 <= a.stamped.trail[k + 1] - a.stamped.trail[k] <= 30
    ensures 0 <= a.at - a.stamped.trail[|a.stamped.trail| - 1] <= 30
    ensures a.at - a.stamped.original.createdAtUtc <= 30 * |a.stamped.trail|
  {
    RunsKeepInv(run, i);
    var x := a.stamped;
    assert CopyRequest(x.original, x.request.createdAtUtc) == x.request;
    TrailSpan(x.trail);
  }

  lemma {:induction false} TrailSpan(trail: seq<int>)
    requires trail != [] && forall i :: 0 <= i < |trail| - 1 ==> 0 <= trail[i + 1] - trail[i] <= TTL
    ensures trail[|trail| - 1] - trail[0] <= TTL * (|trail| - 1)
  {
    var n := |trail| - 1;
    if n > 0 {
      TrailSpan(trail[..n]);
    }
  }

  /** The poll thread is keeping a waiting request fresh. */
  predicate IsRestamping(p: Poll) { p.Refreshing? || p.RefreshingAt? || p.Rewriting? || p.Moving? }

  lemma RestampingBegins(s: State, t: State)
    requires Next(s, t) && IsRestamping(t.poll)
    ensures IsRestamping(s.poll) || (s.poll == Polling && s.busy)
  {
    hide PollStep, WorkerStep, AppStep;
    if PollStep(s, t) {
      RestampingRound(s, t);
    } else if AppStep(s, t) || Tick(s, t) {
      OthersKeepStatus(s, t);
    } else {
      var w: nat :| w < |s.workers| && WorkerStep(s, t, w);
      WorkerKeeps(s, t, w);
    }
  }

  lemma RestampingRound(s: State, t: State)
    requires PollStep(s, t) && IsRestamping(t.poll)
    ensures IsRestamping(s.poll) || (s.poll == Polling && s.busy && t.busy)
  {
    hide Acceptable, IsForceScan, Restamp, IsBlank;
  }

  /** The worker leaves the gate. */
  predicate Releases(s: State, t: State) {
    s.workers != [] && s.workers[0].stage.Reported? && WorkerStep(s, t, 0)
  }

  /** While a request is being restamped the gate can only be released, and only by the worker leaving it. */
  lemma GateWhileRestamping(s: State, t: State)
    requires GateInv(s) && Next(s, t) && IsRestamping(s.poll)
    ensures t.busy <==> s.busy && !Releases(s, t)
  {
    hide WellFormed, IsForceScan, CopyRequest, Acceptable;
    if !PollStep(s, t) && !AppStep(s, t) && !Tick(s, t) {
      var w: nat :| w < |s.workers| && WorkerStep(s, t, w);
      assert w == 0;
    }
  }

  /**
   A request is restamped only after the poll thread saw the gate taken, and from then on the gate is taken
   exactly until the worker leaves it.
   */
  lemma {:induction false} RestampFollowsBusy(run: seq<State>, i: nat) returns (k: nat)
    requires IsRun(run) && i < |run| && IsRestamping(run[i].poll)
    ensures k < i && run[k].poll == Polling && run[k].busy
    ensures forall j :: k < j <= i ==> IsRestamping(run[j].poll)
    ensures run[i].busy <==> forall j :: k < j < i ==> !Releases(run[j], run[j + 1])
  {
    hide Next, IsRestamping, Releases;
    assert i > 0 by { assert run[0].poll == Polling; StartsPolling(run[0]); }
    assert Next(run[i - 1], run[i]);
    RestampingBegins(run[i - 1], run[i]);
    if IsRestamping(run[i - 1].poll) {
      k := RestampFollowsBusy(run, i - 1);
      GateAt(run, i - 1);
      GateWhileRestamping(run[i - 1], run[i]);
    } else {
      k := i - 1;
      StaysBusyOnEntry(run[i - 1], run[i]);
    }
  }

  lemma GateAt(run: seq<State>, i: nat)
    requires IsRun(run) && i < |run|
    ensures GateInv(run[i])
  {
    RunsKeepInv(run, i);
  }

  lemma StaysBusyOnEntry(s: State, t: State)
    requires Next(s, t) && s.poll == Polling && s.busy && IsRestamping(t.poll)
    ensures t.busy
  {
    hide WellFormed, IsForceScan, CopyRequest, Acceptable;
  }

  lemma StartsPolling(s: State)
    requires s.poll == Polling
    ensures !IsRestamping(s.poll)
  {
  }

  // ---------------------------------------------------------------- stale requests

  /** The poll thread holds no copy that it could still move into the file or accept. */
  ghost predicate HoldsNothingUsable(s: State) {
    && !s.poll.Rewriting? && (s.poll.Moving? ==> s.temp == NoFile)
    && (s.poll.Consuming? ==> !Acceptable(s.poll.parsed.request, s.poll.now))
  }

  /** An expired request lies in the file, was expired when the poll thread took the time, and is all there is. */
  ghost predicate Doomed(s: State) {
    && s.file.Holds? && s.file.stamped.request.createdAtUtc <= s.clock
    && !IsFresh(s.file.stamped.request.createdAtUtc, s.clock, TTL)
    && HoldsNothingUsable(s)
    && (s.poll.RefreshingAt? || s.poll.LookingAt? ==> !Acceptable(s.file.stamped.request, s.poll.now))
  }

  /** Nothing lies in the file and nothing usable is held. */
  ghost predicate Gone(s: State) { s.file == NoFile && HoldsNothingUsable(s) }

  /** The app changes neither the file nor the temporary file. */
  predicate LeavesFilesAlone(s: State, t: State) { AppStep(s, t) ==> t.file == s.file && t.temp == s.temp }

  ghost predicate FilesAreLeftAlone(run: seq<State>, i: nat, j: nat)
    requires i <= j < |run|
  {
    forall k :: i <= k < j ==> LeavesFilesAlone(run[k], run[k + 1])
  }

  /** From then on nothing at all is accepted until the app changes a file; the request is kept as it is or deleted. */
  lemma {:induction false} StaleIsNeverAccepted(run: seq<State>, i: nat, j: nat)
    requires IsRun(run) && i <= j < |run| && Doomed(run[i]) && FilesAreLeftAlone(run, i, j)
    ensures run[j].accepted == run[i].accepted
    ensures (Doomed(run[j]) && run[j].file == run[i].file) || Gone(run[j])
    decreases j - i
  {
    hide Next, PollStep, AppStep, Init, Doomed, Gone;
    if i < j {
      StaleIsNeverAccepted(run, i, j - 1);
      assert Next(run[j - 1], run[j]);
      DoomedStep(run[j - 1], run[j]);
    }
  }

  lemma DoomedStep(s: State, t: State)
    requires (Doomed(s) || Gone(s)) && Next(s, t) && LeavesFilesAlone(s, t)
    ensures t.accepted == s.accepted && ((Doomed(s) && Doomed(t) && t.file == s.file) || Gone(t))
    ensures Gone(s) ==> Gone(t)
  {
    hide Acceptable, PollStep, WorkerStep, AppStep;
    if PollStep(s, t) {
      if Doomed(s) {
        DoomedPollStep(s, t);
      } else {
        GonePollStep(s, t);
      }
    } else if AppStep(s, t) || Tick(s, t) {
      OthersKeepStatus(s, t);
    } else {
      var w: nat :| w < |s.workers| && WorkerStep(s, t, w);
      WorkerKeeps(s, t, w);
    }
  }

  lemma GonePollStep(s: State, t: State)
    requires Gone(s) && PollStep(s, t)
    ensures t.accepted == s.accepted && Gone(t)
  {
    if HandlesFile(s.poll) {
      hide RoundStep, IsForceScan, IsFresh, WellFormed, Restamp;
    } else {
      RoundStepKeeps(s, t);
      hide RoundStep, FileStep;
    }
  }

  lemma DoomedPollStep(s: State, t: State)
    requires Doomed(s) && PollStep(s, t)
    ensures t.accepted == s.accepted && ((Doomed(t) && t.file == s.file) || Gone(t))
  {
    hide RoundStep, FileStep;
    if HandlesFile(s.poll) {
      DoomedFileStep(s, t);
    } else {
      RoundStepKeeps(s, t);
    }
  }

  lemma DoomedFileStep(s: State, t: State)
    requires Doomed(s) && FileStep(s, t)
    ensures t.accepted == s.accepted && ((Doomed(t) && t.file == s.file) || Gone(t))
  {
    hide WellFormed, IsForceScan, Restamp, IsBlank;
  }
}
