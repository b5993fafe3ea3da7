/** What one step of the mutable owner does to one slot, case by case: its client and the counters. */
module MutableSteps {
  import opened Common
  import opened Retry
  import opened TcpExecution
  import opened MutableOwner
  import M = MutableExecution

  /** A slot that is to be started: no client, and new or past its backoff. */
  predicate ToStart<R>(x: MutableOwner.State<R>, i: nat, now: Time)
    requires i < |x.clients| == |x.execution.slots|
  {
    var s := x.execution.slots[i].sender;
    !x.clients[i] && (s.phase == Phase.Ready || (s.phase == Backoff && s.notBefore.Some? && s.notBefore.value <= now))
  }

  /** Every counter, by how much it moved. */
  predicate Moved(
    c: Counters, d: Counters, started: int, retries: int, active: int, completed: int, failed: int,
    localCompleted: int, localFailed: int)
  {
    && d.started == c.started + started && d.retries == c.retries + retries && d.active == c.active + active
    && d.completed == c.completed + completed && d.failed == c.failed + failed
    && d.localCompleted == c.localCompleted + localCompleted && d.localFailed == c.localFailed + localFailed
    && d.rebindings == c.rebindings
  }

  lemma BeginsOpen<R>(x: MutableOwner.State<R>, i: nat, now: Time)
    requires MutableOwner.Runnable(x) && i < |x.clients| && Open(x.execution) && ToStart(x, i, now)
    ensures
      var (code, e) := M.BeginSlot(x.execution, i, now);
      && code == Ok && |e.slots| == |x.execution.slots|
      && e.slots[i].sender == x.execution.slots[i].sender.(
           attempts := x.execution.slots[i].sender.attempts + 1, phase := Waiting, hint := None, notBefore := None)
  {
    BeginExactly(x.execution.slots[i].sender, now);
  }

  /** A local run succeeds exactly when the worker's answer is a stream the sender takes. */
  lemma LocalSucceeds<R>(e: M.State<R>, i: nat, run: LocalRun<R>, now: Time, answers: M.Answers)
    requires i < |e.slots| && M.Usable(e.slots[i], e.sourcesTaken) && Open(e) && e.slots[i].sender.phase == Waiting
    ensures
      var f := LocalStep(e, i, run, now, answers).1;
      && |f.slots| == |e.slots|
      && (f.slots[i].sender.phase == Succeeded <==> run.WorkerAnswered? && run.verdict.Delivered?)
  {
  }

  lemma StartsNothing<R>(
    x: MutableOwner.State<R>, i: nat, now: Time, connect: Connect, run: LocalRun<R>, answers: M.Answers)
    requires MutableOwner.Runnable(x) && i < |x.clients| && Open(x.execution) && !ToStart(x, i, now)
    ensures MutableOwner.StartSlot(x, i, now, connect, run, answers) == (Ok, x)
  {
  }

  /** A local slot runs in place: no client, and one more local success or failure. */
  lemma StartsLocally<R>(
    x: MutableOwner.State<R>, i: nat, now: Time, connect: Connect, run: LocalRun<R>, answers: M.Answers)
    requires MutableOwner.Runnable(x) && i < |x.clients| && Open(x.execution) && ToStart(x, i, now) && x.local[i]
    ensures
      var y := MutableOwner.StartSlot(x, i, now, connect, run, answers).1;
      var succeeds := run.WorkerAnswered? && run.verdict.Delivered?;
      && y.clients == x.clients
      && Moved(x.counters, y.counters, 1, if x.execution.slots[i].sender.attempts == 0 then 0 else 1, 0, 0, 0,
               if succeeds then 1 else 0, if succeeds then 0 else 1)
  {
    BeginsOpen(x, i, now);
    BegunUsable(x.execution, i, now);
    LocalSucceeds(M.BeginSlot(x.execution, i, now).1, i, run, now, answers);
  }

  /** A remote slot gets a client; one that is unavailable or fails costs the attempt, any other refusal the poll. */
  lemma StartsRemotely<R>(
    x: MutableOwner.State<R>, i: nat, now: Time, connect: Connect, run: LocalRun<R>, answers: M.Answers)
    requires MutableOwner.Runnable(x) && i < |x.clients| && Open(x.execution) && ToStart(x, i, now) && !x.local[i]
    ensures
      var (code, y) := MutableOwner.StartSlot(x, i, now, connect, run, answers);
      var retries := if x.execution.slots[i].sender.attempts == 0 then 0 else 1;
      match connect
      case Connected =>
        code == Ok && y.clients == x.clients[i := true] && Moved(x.counters, y.counters, 1, retries, 1, 0, 0, 0, 0)
      case Refused(refusal) =>
        && y.clients == x.clients
        && if refusal == Unavailable || refusal == IoError then Moved(x.counters, y.counters, 1, retries, 0, 0, 1, 0, 0)
           else code == refusal && Moved(x.counters, y.counters, 1, retries, 0, 0, 0, 0, 0) && y.abandoned == x.abandoned + 1
  {
    BeginsOpen(x, i, now);
    BegunUsable(x.execution, i, now);
  }

  /** Driving a client: only a stream that arrived whole completes; what breaks off otherwise fails or ends the poll. */
  lemma DriveCounts<R>(x: MutableOwner.State<R>, i: nat, later: Time, drive: RemoteDrive<R>, answers: M.Answers)
    requires MutableOwner.Runnable(x) && i < |x.clients|
    ensures
      var (code, y) := MutableOwner.DriveSlot(x, i, later, drive, answers);
      if !x.clients[i] || drive.Progress? then code == Ok && y == x
      else match drive
        case Finished(_) => y.clients == x.clients[i := false] && Moved(x.counters, y.counters, 0, 0, -1, 1, 0, 0, 0)
        case HungUp => y.clients == x.clients[i := false] && Moved(x.counters, y.counters, 0, 0, -1, 0, 1, 0, 0)
        case Broke(broken) =>
          if broken == Unavailable || broken == IoError
          then y.clients == x.clients[i := false] && Moved(x.counters, y.counters, 0, 0, -1, 0, 1, 0, 0)
          else code == broken && y == x
        case Unreadable(unreadable) => code == unreadable && y == x
        case Progress => true
  {
  }
}
