/** One poll of the owner, and what it keeps. */
module TcpPoll {
  import opened Common
  import opened ResponseFrames
  import opened Retry
  import opened Execution
  import opened TcpExecution
  import opened TcpInvariant
  import opened Sums
  import C = Coordinator

  /** Execution, log, ledger and coupling, between any two slot steps. */
  ghost predicate Steady(x: Owner) {
    Good(x.execution, x.history.log) && Ledger(x) && Coupled(x)
  }

  /** What slot steps never touch. */
  ghost predicate Kept(x: Owner, y: Owner) {
    && y.config == x.config && y.snapshot == x.snapshot && y.status == x.status && y.failure == x.failure
    && y.result == x.result && y.metrics.rebindings == x.metrics.rebindings && |y.clients| == |x.clients|
    && y.history == x.history.(log := y.history.log, wire := y.history.wire, abandoned := y.history.abandoned)
    && Grows(x.metrics, y.metrics) && x.history.abandoned <= y.history.abandoned
  }

  /** The state after some slot steps: all of them went well, or the last one did not. */
  ghost predicate After(x: Owner, y: Owner, ok: bool) {
    && Kept(x, y) && Good(y.execution, y.history.log) && Ledger(y)
    && (ok ==> Coupled(y) && y.history.abandoned == x.history.abandoned)
  }

  /** No sender of slots `from`..`to` is ready. */
  predicate StartedIn(slots: seq<Slot>, from: nat, to: nat)
    requires to <= |slots|
  {
    forall j :: from <= j < to ==> slots[j].sender.phase != Phase.Ready
  }

  lemma StartedGrows(e: Execution.State, f: Execution.State, i: nat)
    requires i < |e.slots| && SlotOnly(e, f, i) && f.slots[i].sender.phase != Phase.Ready
    ensures StartedIn(e.slots, 0, i) ==> StartedIn(f.slots, 0, i + 1)
    ensures StartedIn(e.slots, 0, |e.slots|) ==> StartedIn(f.slots, 0, |e.slots|)
  {
  }

  lemma MovesAfter(x: Owner, y: Owner, i: nat, ok: bool)
    requires Steady(x) && i < |x.clients| && Moves(x, y, i, ok) && Good(y.execution, y.history.log)
    requires x.history.abandoned <= y.history.abandoned
    ensures After(x, y, ok)
  {
    MovesKeepsLedger(x, y, i, ok);
    if ok {
      MovesKeepsCoupled(x, y, i);
    }
  }

  lemma StartStep(x: Owner, i: nat, now: Time, connect: Connect)
    requires Steady(x) && i < |x.clients|
    ensures Retry.Sound(x.execution.slots[i].sender)
    ensures
      var (answer, y) := StartSlot(x, i, now, connect);
      && After(x, y, answer == Ok)
      && (StartedIn(x.execution.slots, 0, i) ==> StartedIn(y.execution.slots, 0, i + 1))
  {
    GoodSender(x.execution, x.history.log, i);
    StartMoves(x, i, now, connect);
    StartGood(x, i, now, connect);
    var (answer, y) := StartSlot(x, i, now, connect);
    MovesAfter(x, y, i, answer == Ok);
    StartedGrows(x.execution, y.execution, i);
  }

  lemma DriveStep(x: Owner, i: nat, later: Time, drive: Drive)
    requires Steady(x) && i < |x.clients| && StartedIn(x.execution.slots, 0, |x.clients|)
    ensures Retry.Sound(x.execution.slots[i].sender)
    ensures
      var (answer, y) := DriveSlot(x, i, later, drive);
      After(x, y, answer == Ok) && StartedIn(y.execution.slots, 0, |x.clients|)
  {
    GoodSender(x.execution, x.history.log, i);
    DriveMoves(x, i, later, drive);
    DriveGood(x, i, later, drive);
    DriveStarted(x, i, later, drive);
    var (answer, y) := DriveSlot(x, i, later, drive);
    MovesAfter(x, y, i, answer == Ok);
    StartedGrows(x.execution, y.execution, i);
  }

  /** A driven slot that held a client is never ready again. */
  lemma DriveStarted(x: Owner, i: nat, later: Time, drive: Drive)
    requires Ledger(x) && Coupled(x) && i < |x.clients| && Retry.Sound(x.execution.slots[i].sender)
    ensures
      var y := DriveSlot(x, i, later, drive).1;
      && i < |y.execution.slots|
      && (y.execution.slots[i].sender.phase == Phase.Ready ==> x.execution.slots[i].sender.phase == Phase.Ready)
  {
    assert CoupledAt(x, i);
    DriveMoves(x, i, later, drive);
    DrivesHere(x, i, later, drive);
  }

  lemma AfterTrans(x: Owner, y: Owner, z: Owner, ok: bool)
    requires After(x, y, true) && After(y, z, ok)
    ensures After(x, z, ok)
  {
  }

  lemma SteadyRunnable(x: Owner)
    requires Good(x.execution, x.history.log) && |x.clients| == |x.execution.slots|
    ensures Runnable(x)
  {
  }

  lemma {:induction false} StartAllAfter(x: Owner, now: Time, connects: nat -> Connect, i: nat)
    requires Steady(x) && i <= |x.clients| && StartedIn(x.execution.slots, 0, i) && Runnable(x)
    ensures
      var (answer, y) := StartAll(x, now, connects, i);
      After(x, y, answer == Ok) && (answer == Ok ==> StartedIn(y.execution.slots, 0, |x.clients|))
    decreases |x.clients| - i
  {
    if i < |x.clients| {
      StartStep(x, i, now, connects(i));
      StartsHere(x, i, now, connects(i));
      var (answer, y) := StartSlot(x, i, now, connects(i));
      OnlyHereRunnable(x, y, i);
      if answer == Ok {
        StartAllAfter(y, now, connects, i + 1);
        var r := StartAll(y, now, connects, i + 1);
        AfterTrans(x, y, r.1, r.0 == Ok);
      }
    }
  }

  lemma {:induction false} DriveAllAfter(x: Owner, later: Time, drives: nat -> Drive, i: nat)
    requires Steady(x) && i <= |x.clients| && StartedIn(x.execution.slots, 0, |x.clients|) && Runnable(x)
    ensures
      var (answer, y) := DriveAll(x, later, drives, i);
      After(x, y, answer == Ok) && StartedIn(y.execution.slots, 0, |x.clients|)
    decreases |x.clients| - i
  {
    if i < |x.clients| {
      DriveStep(x, i, later, drives(i));
      DrivesHere(x, i, later, drives(i));
      var (answer, y) := DriveSlot(x, i, later, drives(i));
      OnlyHereRunnable(x, y, i);
      if answer == Ok {
        DriveAllAfter(y, later, drives, i + 1);
        var r := DriveAll(y, later, drives, i + 1);
        AfterTrans(x, y, r.1, r.0 == Ok);
      }
    }
  }

  /** Every tablet succeeded and the coordinator's result is the one held. */
  predicate Finished(x: Owner)
  {
    && (forall i :: 0 <= i < |x.execution.slots| ==> x.execution.slots[i].sender.phase == Succeeded)
    && x.result.Some? && C.Finish(x.execution.coordinator) == Success(x.result.value)
  }

  predicate Idle(x: Owner) {
    x.metrics.active == 0 && forall i :: 0 <= i < |x.clients| ==> x.clients[i].None?
  }

  /** What every call leaves behind. */
  ghost predicate Valid(x: Owner) {
    && Good(x.execution, x.history.log) && Ledger(x)
    && (x.status == Running || x.status == AllComplete ==> Coupled(x))
    && (x.status == HasFailed || x.status == WasCancelled ==> Idle(x) && x.failure != Ok)
    && (x.status == AllComplete ==> Finished(x))
  }

  lemma NoneFlying(n: nat)
    ensures Flying(Idled(n)) == 0
  {
    TotalBounded(Idled(n), 0, Holding);
  }

  lemma StopKeepsLedger(x: Owner, status: Status, code: StatusCode)
    requires Ledger(x)
    ensures Ledger(Stop(x, status, code)) && Idle(Stop(x, status, code))
  {
    var y := Stop(x, status, code);
    NoneFlying(|x.clients|);
    forall i | 0 <= i < |y.execution.slots|
      ensures SourcedAt(y, i)
    {
      assert SourcedAt(x, i);
    }
  }

  /** Ending a run abandons exactly the attempts in flight. */
  lemma StopIsValid(x: Owner, status: Status, code: StatusCode)
    requires Good(x.execution, x.history.log) && Ledger(x)
    requires (status == HasFailed || status == WasCancelled) && code != Ok
    ensures
      var y := Stop(x, status, code);
      && Valid(y) && y.history.abandoned == x.history.abandoned + x.metrics.active
      && y.metrics == x.metrics.(active := 0)
  {
    StopKeepsLedger(x, status, code);
  }

  /** The owner can still make progress: nothing is unstarted or given up, and some slot flies or waits to retry. */
  predicate Progressing(x: Owner)
    requires |x.clients| == |x.execution.slots|
  {
    var slots := x.execution.slots;
    && StartedIn(slots, 0, |slots|)
    && (forall i :: 0 <= i < |slots| ==> slots[i].sender.phase != Exhausted)
    && exists i :: 0 <= i < |slots| && (x.clients[i].Some? || slots[i].sender.notBefore.Some?)
  }

  lemma SenderPhases(s: Sender<seq<Payload>>)
    requires Retry.Sound(s) && s.phase != Phase.Ready && s.phase != Exhausted && s.phase != Succeeded
    ensures s.phase == Waiting || s.notBefore.Some?
  {
  }

  /** A sender that gave up has told the coordinator, so a failed query never produces a result. */
  lemma GivenUpNeverFinishes(e: Execution.State, i: nat)
    requires Execution.Sound(e) && i < |e.slots| && e.slots[i].sender.phase == Exhausted
    ensures C.Finish(e.coordinator) == Failure(e.coordinator.failure)
  {
  }

  predicate HasPhase(slots: seq<Slot>, phase: Phase) {
    exists i :: 0 <= i < |slots| && slots[i].sender.phase == phase
  }

  predicate AllSucceeded(slots: seq<Slot>) {
    forall i :: 0 <= i < |slots| ==> slots[i].sender.phase == Succeeded
  }

  /** The three ways a publication goes, as a function of the slots and the coordinator's answer. */
  lemma PublishCases(x: Owner)
    requires Execution.Sound(x.execution) && x.status == Running
    ensures
      var y, finished := PublishIfTerminal(x), C.Finish(x.execution.coordinator);
      if HasPhase(x.execution.slots, Exhausted) then finished.Failure? && y == Stop(x, HasFailed, finished.code)
      else if !AllSucceeded(x.execution.slots) then y == x
      else if finished.Failure? then y == Stop(x, HasFailed, finished.code)
      else y == x.(result := Some(finished.value), status := AllComplete)
  {
  }

  lemma StillProgressing(x: Owner)
    requires Steady(x) && StartedIn(x.execution.slots, 0, |x.execution.slots|)
    requires !HasPhase(x.execution.slots, Exhausted) && !AllSucceeded(x.execution.slots)
    ensures Progressing(x)
  {
    var i :| 0 <= i < |x.execution.slots| && x.execution.slots[i].sender.phase != Succeeded;
    GoodSender(x.execution, x.history.log, i);
    SenderPhases(x.execution.slots[i].sender);
    assert CoupledAt(x, i);
  }

  lemma SameBooks(x: Owner, y: Owner)
    requires Ledger(x) && Coupled(x)
    requires y.clients == x.clients && y.execution == x.execution && y.snapshot == x.snapshot
    requires y.config == x.config && y.metrics == x.metrics && y.history == x.history
    ensures Ledger(y) && Coupled(y)
  {
    forall i | 0 <= i < |y.clients|
      ensures CoupledAt(y, i) && SourcedAt(y, i)
    {
      assert CoupledAt(x, i) && SourcedAt(x, i);
    }
  }

  lemma CompletionIsValid(x: Owner, groups: C.Groups)
    requires Steady(x) && AllSucceeded(x.execution.slots)
    requires C.Finish(x.execution.coordinator) == Success(groups)
    ensures Valid(x.(result := Some(groups), status := AllComplete))
  {
    SameBooks(x, x.(result := Some(groups), status := AllComplete));
  }

  /** What a publication leaves: a valid owner that stopped, completed, or can still make progress. */
  ghost predicate Publishes(x: Owner, y: Owner)
    requires |x.clients| == |x.execution.slots|
  {
    && Valid(y)
    && (y.status == Running ==> y == x && Progressing(x))
    && (y.status == AllComplete ==> y == x.(result := y.result, status := AllComplete))
    && (y.status == HasFailed ==> y == Stop(x, HasFailed, y.failure))
    && y.status != WasCancelled
  }

  lemma PublishIsValid(x: Owner)
    requires Steady(x) && x.status == Running
    requires StartedIn(x.execution.slots, 0, |x.execution.slots|)
    ensures Publishes(x, PublishIfTerminal(x))
  {
    PublishCases(x);
    var finished := C.Finish(x.execution.coordinator);
    if HasPhase(x.execution.slots, Exhausted) {
      StopIsValid(x, HasFailed, finished.code);
    } else if !AllSucceeded(x.execution.slots) {
      StillProgressing(x);
    } else if finished.Failure? {
      StopIsValid(x, HasFailed, finished.code);
    } else {
      CompletionIsValid(x, finished.value);
    }
  }

  // ---- The poll ----

  /** What a poll may do to a running owner; only a poll that ends it abandons attempts. */
  ghost predicate Polls(x: Owner, y: Owner) {
    && Valid(y) && Kept(x, y.(status := x.status, failure := x.failure, result := x.result))
    && (y.status == Running ==> Progressing(y))
    && (y.status == Running || y.status == AllComplete ==> y.history.abandoned == x.history.abandoned)
  }

  lemma StopPolls(x: Owner, y: Owner, ok: bool, status: Status, code: StatusCode)
    requires After(x, y, ok)
    requires (status == HasFailed || status == WasCancelled) && code != Ok
    ensures Polls(x, Stop(y, status, code))
  {
    StopIsValid(y, status, code);
  }

  lemma ConcludePolls(x: Owner, step: (StatusCode, Owner))
    requires After(x, step.1, step.0 == Ok) && x.status == Running
    requires step.0 == Ok ==> StartedIn(step.1.execution.slots, 0, |step.1.execution.slots|)
    ensures Polls(x, Conclude(step))
    ensures Conclude(step).status == Running ==> step.0 == Ok && Conclude(step) == step.1
  {
    if step.0 != Ok {
      StopPolls(x, step.1, false, HasFailed, step.0);
    } else {
      PublishIsValid(step.1);
    }
  }

  lemma WaitAndDrivePolls(w: Owner, x: Owner, p: Poll)
    requires After(w, x, true) && Runnable(x) && w.status == Running
    requires StartedIn(x.execution.slots, 0, |x.execution.slots|)
    ensures Polls(w, WaitAndDrive(x, p))
  {
    if p.pollFails {
      StopPolls(w, x, true, HasFailed, IoError);
    } else if Expired(x.config, p.later) {
      StopPolls(w, x, true, WasCancelled, Cancelled);
    } else {
      DriveAllAfter(x, p.later, p.drives, 0);
      var step := DriveAll(x, p.later, p.drives, 0);
      AfterTrans(w, x, step.1, step.0 == Ok);
      ConcludePolls(w, step);
    }
  }

  /**
   Every poll of a valid owner leaves a valid owner. While it keeps running, slots and senders are
   coupled, nothing is silently lost and no attempt is abandoned.
   */
  lemma PollKeepsValid(x: Owner, p: Poll)
    requires Valid(x)
    ensures Runnable(x)
    ensures x.status != Running ==> PollOnce(x, p) == x
    ensures x.status == Running ==> Polls(x, PollOnce(x, p))
  {
    SteadyRunnable(x);
    if x.status == Running {
      if Expired(x.config, p.now) {
        assert After(x, x, true);
        StopPolls(x, x, true, WasCancelled, Cancelled);
      } else {
        StartAllAfter(x, p.now, p.connects, 0);
        var step := StartAll(x, p.now, p.connects, 0);
        ConcludePolls(x, step);
        if Conclude(step).status == Running {
          WaitAndDrivePolls(x, step.1, p);
        }
      }
    }
  }
}
