/**
 The app and the poll thread write their requests to one temporary file, and move or rename it independently.
 A request is accepted at most once unless a deletion fails, or a move fails while the app is about to rename;
 and what the app's rename puts in place is its own request exactly if the poll thread kept off that file.
 */
module RequestOnce {
  import opened Wrappers
  import opened Requests
  import opened BridgeProtocol
  import opened RequestLife
  import opened RequestRuns

  // ---------------------------------------------------------------- at most once

  /** Two different acceptances are of two different writes of the app. */
  ghost predicate AcceptedOnce(s: State) {
    forall i, j :: 0 <= i < j < |s.accepted| ==> s.accepted[i].stamped.serial != s.accepted[j].stamped.serial
  }

  /** The write has not been accepted. */
  ghost predicate IsOpen(s: State, serial: nat) {
    forall i :: 0 <= i < |s.accepted| ==> s.accepted[i].stamped.serial != serial
  }

  ghost predicate WasWritten(s: State, serial: nat) { serial < s.writes }

  /** Whatever is around was written by the app before. */
  ghost predicate AllWritten(s: State) {
    && (s.file.Holds? ==> WasWritten(s, s.file.stamped.serial))
    && (s.temp.Holds? ==> WasWritten(s, s.temp.stamped.serial))
    && (s.poll.Rewriting? ==> WasWritten(s, s.poll.copy.serial))
    && (s.poll.Consuming? ==> WasWritten(s, s.poll.parsed.serial))
    && forall i :: 0 <= i < |s.accepted| ==> WasWritten(s, s.accepted[i].stamped.serial)
  }

  /** What may still be accepted has not been accepted. */
  ghost predicate AllOpen(s: State) {
    && (s.file.Holds? ==> IsOpen(s, s.file.stamped.serial))
    && (s.poll.Rewriting? ==> IsOpen(s, s.poll.copy.serial))
    && (s.poll.Consuming? ==> IsOpen(s, s.poll.parsed.serial))
    && (s.temp.Holds? && (s.poll.Moving? || s.app.Renaming?) ==> IsOpen(s, s.temp.stamped.serial))
  }

  /** What the app is about to rename, unless the poll thread is about to move it, is in no other place. */
  ghost predicate RenamedIsApart(s: State) {
    s.app.Renaming? && !s.poll.Moving? && s.temp.Holds? ==>
      && (s.file.Holds? ==> s.file.stamped.serial != s.temp.stamped.serial)
      && (s.poll.Consuming? ==> s.poll.parsed.serial != s.temp.stamped.serial)
  }

  ghost predicate OnceInv(s: State) { AcceptedOnce(s) && AllWritten(s) && AllOpen(s) && RenamedIsApart(s) }

  /** What is deleted goes, and the app is not renaming when a move fails. */
  ghost predicate IsTidy(s: State, t: State) { !FailsToDelete(s, t) && !(FailsToMove(s, t) && s.app.Renaming?) }

  ghost predicate IsTidyRun(run: seq<State>) {
    IsRun(run) && forall i :: 0 <= i < |run| - 1 ==> IsTidy(run[i], run[i + 1])
  }

  lemma SameAccepted(s: State, t: State)
    requires t.accepted == s.accepted
    ensures AcceptedOnce(s) ==> AcceptedOnce(t)
    ensures forall n: nat {:trigger IsOpen(t, n)} :: IsOpen(s, n) ==> IsOpen(t, n)
  {
  }

  lemma ConsumingOnce(s: State, t: State)
    requires OnceInv(s) && s.poll.Consuming? && FileStep(s, t) && !FailsToDelete(s, t)
    ensures OnceInv(t)
  {
    hide Acceptable, IsBlank, RoundStep;
    assert t.file == NoFile;
  }

  lemma HandlingOnce(s: State, t: State)
    requires OnceInv(s) && !s.poll.Consuming? && FileStep(s, t) && !(FailsToMove(s, t) && s.app.Renaming?)
    ensures OnceInv(t)
  {
    hide OnceInv, FileStep, RoundStep, FailsToMove;
    if s.poll.Rewriting? || s.poll.Moving? {
      ReplacingOnce(s, t);
    } else {
      ReadingOnce(s, t);
    }
  }

  lemma ReplacingOnce(s: State, t: State)
    requires OnceInv(s) && (s.poll.Rewriting? || s.poll.Moving?)
    requires FileStep(s, t) && !(FailsToMove(s, t) && s.app.Renaming?)
    ensures OnceInv(t)
  {
    FileStepKeeps(s, t);
    SameAccepted(s, t);
    hide RoundStep, AcceptedOnce, IsOpen, Acceptable, IsForceScan, CopyRequest, IsBlank;
  }

  lemma ReadingOnce(s: State, t: State)
    requires OnceInv(s) && !s.poll.Consuming? && !s.poll.Rewriting? && !s.poll.Moving? && FileStep(s, t)
    ensures OnceInv(t)
  {
    FileStepKeeps(s, t);
    SameAccepted(s, t);
    hide RoundStep, AcceptedOnce, IsOpen, Acceptable, IsForceScan, CopyRequest, IsBlank;
  }

  lemma OnceStep(s: State, t: State)
    requires OnceInv(s) && Next(s, t) && IsTidy(s, t)
    ensures OnceInv(t)
  {
    hide FileStep, RoundStep, AppStep, WorkerStep, OnceInv, FailsToDelete, FailsToMove;
    if PollStep(s, t) {
      if !HandlesFile(s.poll) {
        RoundStepKeeps(s, t);
        OtherOnce(s, t);
      } else if s.poll.Consuming? {
        ConsumingOnce(s, t);
      } else {
        HandlingOnce(s, t);
      }
    } else if AppStep(s, t) {
      AppStepOnce(s, t);
    } else if Tick(s, t) {
      OtherOnce(s, t);
    } else {
      var w: nat :| w < |s.workers| && WorkerStep(s, t, w);
      WorkerKeeps(s, t, w);
      OtherOnce(s, t);
    }
  }

  lemma OtherOnce(s: State, t: State)
    requires OnceInv(s) && t.file == s.file && t.temp == s.temp && t.app == s.app && t.writes == s.writes
    requires t.accepted == s.accepted
    requires t.poll == s.poll || (!HandlesFile(s.poll) && (t.poll.Refreshing? || t.poll.Looking? || !HandlesFile(t.poll)))
    ensures OnceInv(t)
  {
    SameAccepted(s, t);
    hide AcceptedOnce, IsOpen;
  }

  lemma AppStepOnce(s: State, t: State)
    requires OnceInv(s) && AppStep(s, t)
    ensures OnceInv(t)
  {
    hide AppWrites, AppRenames, OnceInv;
    if AppWrites(s, t) {
      AppWritesOnce(s, t);
    } else if AppRenames(s, t) {
      AppRenamesOnce(s, t);
    } else {
      LeftoverOnce(s, t);
    }
  }

  lemma AppWritesOnce(s: State, t: State)
    requires OnceInv(s) && AppWrites(s, t)
    ensures OnceInv(t)
  {
    SameAccepted(s, t);
    assert IsOpen(s, s.writes);
    hide AcceptedOnce, IsOpen;
  }

  lemma AppRenamesOnce(s: State, t: State)
    requires OnceInv(s) && AppRenames(s, t)
    ensures OnceInv(t)
  {
    SameAccepted(s, t);
    hide AcceptedOnce, IsOpen;
  }

  lemma LeftoverOnce(s: State, t: State)
    requires OnceInv(s) && AppStep(s, t) && !AppWrites(s, t) && !AppRenames(s, t)
    ensures OnceInv(t)
  {
    SameAccepted(s, t);
    hide AcceptedOnce, IsOpen, AppWrites, AppRenames;
  }

  lemma InitOnce(s: State)
    requires Init(s)
    ensures OnceInv(s)
  {
  }

  /** In every tidy run, whatever the app writes is accepted at most once. */
  lemma {:induction false} AtMostOnce(run: seq<State>, n: nat)
    requires IsTidyRun(run) && n < |run|
    ensures OnceInv(run[n])
    ensures AcceptedOnce(run[n])
  {
    hide OnceInv, Next, IsTidy, Init;
    if n == 0 {
      InitOnce(run[0]);
    } else {
      AtMostOnce(run, n - 1);
      OnceStep(run[n - 1], run[n]);
    }
    OnceInvHas(run[n]);
  }

  lemma OnceInvHas(s: State)
    requires OnceInv(s)
    ensures AcceptedOnce(s)
  {
  }

  // ---------------------------------------------------------------- twice

  /** From a consuming state whose request is acceptable: accepted, worked on without success, and back to polling. */
  lemma AcceptsAndFinishes(run: seq<State>, s: State, accepting: State) returns (longer: seq<State>, t: State)
    requires EndsIn(run, s) && s.poll.Consuming? && PollStep(s, accepting) && !s.busy && s.workers == []
    requires accepting.poll == Entering(s.poll.parsed.request)
    requires accepting == s.(file := accepting.file, poll := accepting.poll, accepted := accepting.accepted)
    ensures EndsIn(longer, t) && run <= longer && (AlwaysMoves(run) ==> AlwaysMoves(longer))
    ensures accepting.file == NoFile ==> GoesOnAsWell(run, longer)
    ensures t == s.(file := accepting.file, poll := Polling, accepted := accepting.accepted, live := t.live)
  {
    hide EndsIn, PollStep, Acceptable, AlwaysDeletes, AlwaysMoves;
    longer := PollExtends(run, s, accepting);
    longer, t := EntersAndStarts(longer, accepting, s.poll.parsed.request);
    longer, t := WorkerFinishes(longer, t);
  }

  /** A run in which a request is accepted twice because it could not be deleted the first time. */
  lemma FailedDeleteMayAcceptTwice(s0: State, only: BridgeRequest) returns (run: seq<State>)
    requires Init(s0) && Acceptable(only, s0.clock)
    ensures [s0] <= run && IsRun(run) && run[|run| - 1].writes == s0.writes + 1
    ensures |run[|run| - 1].accepted| == 2 && !AcceptedOnce(run[|run| - 1])
    ensures AlwaysMoves(run)
  {
    hide Acceptable, IsRun, CleanStep, AppRenames, AcceptedOnce, AlwaysDeletes, AlwaysMoves;
    var x := Written(only, s0.writes);
    run := StartOf(s0);
    run := Installs(run, s0, only);
    var s;
    run, s := ReadsIt(run, Installed(s0, only), x);
    var kept := s.(poll := Entering(only), accepted := s.accepted + [Acceptance(x, s0.clock)]);
    assert PollStep(s, kept);
    run, s := AcceptsAndFinishes(run, s, kept);
    run, s := ReadsIt(run, s, x);
    OnwardIsClean(s);
    run := PollExtends(run, s, Onward(s));
    assert Onward(s).accepted == [Acceptance(x, s0.clock), Acceptance(x, s0.clock)];
    NotOnce(Onward(s), 0);
  }

  /**
   A run in which a request is accepted twice because a move failed while the app was about to rename: the app
   then puts the restamped copy of the request in place, after the request itself has been accepted.
   */
  lemma FailedMoveMayAcceptTwice(s0: State, first: BridgeRequest, waiting: BridgeRequest, third: BridgeRequest)
    returns (run: seq<State>)
    requires Init(s0) && Acceptable(first, s0.clock) && Acceptable(waiting, s0.clock)
    ensures [s0] <= run && IsRun(run) && AlwaysDeletes(run) && !AcceptedOnce(run[|run| - 1])
  {
    hide Acceptable, IsRun, CleanStep, AppRenames, AcceptedOnce, AlwaysDeletes, AlwaysMoves, CopyRequest;
    var s, x;
    run, s, x := RunToRewriting(s0, first, waiting);
    run, s := MissesItsMove(run, s, x, third);
    run, s := WorkerFinishes(run, s);
    run, s := ReadsIt(run, s, x);
    OnwardIsClean(s);
    run, s := AcceptsAndFinishes(run, s, Onward(s));
    var y := Restamp(x, s0.clock);
    run, s := AppPutsInPlace(run, s, y);
    run, s := ReadsIt(run, s, y);
    RestampedIsAcceptable(x, s0.clock);
    OnwardIsClean(s);
    run := PollExtends(run, s, Onward(s));
    NotOnce(Onward(s), |s.accepted| - 1);
  }

  /** The app writes, the poll thread overwrites that with its copy, and fails to move it. */
  lemma MissesItsMove(run: seq<State>, s: State, x: Stamped, third: BridgeRequest) returns (longer: seq<State>, t: State)
    requires EndsIn(run, s) && s.poll.Rewriting? && s.busy && s.app == Away
    ensures EndsIn(longer, t) && run <= longer && (AlwaysDeletes(run) ==> AlwaysDeletes(longer))
    ensures t == s.(poll := Polling, temp := Holds(s.poll.copy), app := t.app, writes := t.writes) && t.app.Renaming?
  {
    hide EndsIn, AlwaysDeletes, AlwaysMoves;
    var wrote := Wrote(s, third);
    longer := AppExtends(run, s, wrote);
    var moving := wrote.(temp := Holds(s.poll.copy), poll := Moving);
    longer := PollExtends(longer, wrote, moving);
    var missed := moving.(poll := Checking);
    longer := PollExtends(longer, moving, missed);
    t := missed.(poll := Polling);
    longer := PollExtends(longer, missed, t);
  }

  lemma AppExtends(run: seq<State>, s: State, t: State) returns (longer: seq<State>)
    requires EndsIn(run, s) && AppStep(s, t)
    ensures longer == run + [t] && EndsIn(longer, t) && GoesOnAsWell(run, longer)
  {
    hide EndsIn, AlwaysDeletes, AlwaysMoves, FileStep, RoundStep;
    AppIsNoFileStep(s, t);
    longer := Extend(run, s, t);
  }

  lemma AppIsNoFileStep(s: State, t: State)
    requires AppStep(s, t)
    ensures !FailsToDelete(s, t) && !FailsToMove(s, t)
  {
    hide FileStep, RoundStep, AppStep;
    if FailsToDelete(s, t) || FailsToMove(s, t) {
      PollIsNoAppStep(s, t);
    }
  }

  /** The app renames what lies in the temporary file. */
  lemma AppPutsInPlace(run: seq<State>, s: State, y: Stamped) returns (longer: seq<State>, t: State)
    requires EndsIn(run, s) && s.app.Renaming? && s.temp == Holds(y)
    ensures t == s.(file := Holds(y), temp := NoFile, app := Away) && EndsIn(longer, t) && run <= longer
    ensures GoesOnAsWell(run, longer)
  {
    hide EndsIn, GoesOnAsWell;
    t := s.(file := Holds(y), temp := NoFile, app := Away);
    longer := AppExtends(run, s, t);
  }

  lemma RestampedIsAcceptable(x: Stamped, now: int)
    requires Acceptable(x.request, now)
    ensures Acceptable(Restamp(x, now).request, now)
  {
    hide ValidateShape;
  }

  lemma NotOnce(s: State, i: nat)
    requires i + 1 < |s.accepted| && s.accepted[i].stamped.serial == s.accepted[i + 1].stamped.serial
    ensures !AcceptedOnce(s)
  {
  }

  // ---------------------------------------------------------------- what a rename puts in place

  /** The app wrote at `i` and has been about to rename up to `j`. */
  ghost predicate IsPendingRename(run: seq<State>, i: nat, j: nat) {
    && IsRun(run) && i < j < |run| && AppWrites(run[i], run[i + 1])
    && forall k :: i < k <= j ==> run[k].app == run[i + 1].app
  }

  /** The poll thread has left the temporary file alone since the app wrote it. */
  ghost predicate IsUntouched(run: seq<State>, i: nat, j: nat)
    requires i < j < |run|
  {
    forall k :: i < k < j ==> run[k + 1].temp == run[k].temp
  }

  /** Once something else lies there, the app's own request does not come back. */
  lemma OwnDoesNotReturn(s: State, t: State)
    requires RequestInv(s) && Next(s, t) && s.app.Renaming? && t.app == s.app && |s.app.own.trail| == 1
    requires s.temp != Holds(s.app.own)
    ensures t.temp != Holds(s.app.own)
  {
    hide Linked, Acceptable, AskedFor, RoundStep, WorkerStep;
    if PollStep(s, t) {
      if HandlesFile(s.poll) {
        FileStepKeeps(s, t);
      } else {
        RoundStepKeeps(s, t);
      }
    } else if AppStep(s, t) || Tick(s, t) {
    } else {
      var w: nat :| w < |s.workers| && WorkerStep(s, t, w);
      WorkerKeeps(s, t, w);
    }
  }

  /** The file about to be renamed holds the app's own request exactly if the poll thread left it alone. */
  lemma {:induction false} OwnIsThereIff(run: seq<State>, i: nat, j: nat)
    requires IsPendingRename(run, i, j)
    ensures run[j].app.Renaming? && |run[j].app.own.trail| == 1
    ensures run[j].temp == Holds(run[j].app.own) <==> IsUntouched(run, i, j)
  {
    hide Next, RequestInv, AppWrites;
    WritesOwn(run[i], run[i + 1]);
    if i + 1 < j {
      OwnIsThereIff(run, i, j - 1);
      assert Next(run[j - 1], run[j]);
      RequestsAt(run, j - 1);
      if run[j - 1].temp != Holds(run[j].app.own) {
        OwnDoesNotReturn(run[j - 1], run[j]);
      }
    }
  }

  lemma RequestsAt(run: seq<State>, i: nat)
    requires IsRun(run) && i < |run|
    ensures RequestInv(run[i])
  {
    hide IsRun, RequestInv, GateInv, StatusInv;
    RunsKeepInv(run, i);
  }

  lemma WritesOwn(s: State, t: State)
    requires AppWrites(s, t)
    ensures t.app.Renaming? && |t.app.own.trail| == 1 && t.temp == Holds(t.app.own)
  {
  }

  /**
   A rename that succeeds puts the app's own request in place exactly if the poll thread has not touched the
   temporary file since the app wrote it, and it can fail for want of that file only if it has.
   */
  lemma RenamePlacesOwnIff(run: seq<State>, i: nat, j: nat)
    requires IsPendingRename(run, i, j) && j + 1 < |run| && AppRenames(run[j], run[j + 1])
    ensures run[j].temp != NoFile && run[j + 1].temp == NoFile ==>
              (run[j + 1].file == Holds(run[j].app.own) <==> IsUntouched(run, i, j))
    ensures run[j].temp == NoFile ==> !IsUntouched(run, i, j) && run[j + 1].file == run[j].file
  {
    hide Next, IsUntouched, AppWrites;
    OwnIsThereIff(run, i, j);
  }

  // ---------------------------------------------------------------- renaming the wrong file, or none

  /**
   A run in which the app's rename succeeds and puts an older request in place: the poll thread had overwritten
   the temporary file. The app's own request is then nowhere, and was never in the request file.
   */
  lemma RenameMayPlaceAnOlderRequest(s0: State, first: BridgeRequest, waiting: BridgeRequest, newer: BridgeRequest)
    returns (run: seq<State>)
    requires Init(s0) && Acceptable(first, s0.clock) && Acceptable(waiting, s0.clock)
    ensures [s0] <= run && IsRun(run) && |run| > 1 && AlwaysDeletes(run) && AlwaysMoves(run)
    ensures var s, t := run[|run| - 2], run[|run| - 1];
            && AppRenames(s, t) && s.app.Renaming? && s.app.own.request == newer && s.temp != NoFile && t.temp == NoFile
            && t.file == Holds(Restamp(Written(waiting, s0.writes + 1), s0.clock))
  {
    hide Acceptable, CopyRequest, IsRun, AlwaysDeletes, AlwaysMoves;
    var s, x;
    run, s, x := RunToRewriting(s0, first, waiting);
    var wrote := Wrote(s, newer);
    run := AppExtends(run, s, wrote);
    var moving := wrote.(temp := Holds(s.poll.copy), poll := Moving);
    run := PollExtends(run, wrote, moving);
    var t := moving.(file := moving.temp, temp := NoFile, app := Away);
    run := AppExtends(run, moving, t);
  }

  /**
   A run in which the app's rename fails although its request is in place: the poll thread, about to move its own
   copy, has moved what the app had written over it.
   */
  lemma RenameMayFailThoughInPlace(s0: State, first: BridgeRequest, waiting: BridgeRequest, newer: BridgeRequest)
    returns (run: seq<State>)
    requires Init(s0) && Acceptable(first, s0.clock) && Acceptable(waiting, s0.clock)
    ensures [s0] <= run && IsRun(run) && |run| > 1 && AlwaysDeletes(run) && AlwaysMoves(run)
    ensures var s, t := run[|run| - 2], run[|run| - 1];
            && AppRenames(s, t) && s.app.Renaming? && s.app.own.request == newer && s.temp == NoFile
            && t.file == Holds(s.app.own)
  {
    hide Acceptable, CopyRequest, IsRun, AlwaysDeletes, AlwaysMoves;
    var s, x;
    run, s, x := RunToRewriting(s0, first, waiting);
    var moving := s.(temp := Holds(s.poll.copy), poll := Moving);
    run := PollExtends(run, s, moving);
    var wrote := Wrote(moving, newer);
    run := AppExtends(run, moving, wrote);
    var moved := wrote.(file := wrote.temp, temp := NoFile, poll := Checking);
    run := PollExtends(run, wrote, moved);
    run := AppExtends(run, moved, moved.(app := Away));
  }
}
