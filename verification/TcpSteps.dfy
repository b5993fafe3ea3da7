/** What one step of a poll does to one slot, case by case: its client, its sender and the counters. */
module TcpSteps {
  import opened Common
  import opened WirePipe
  import opened Retry
  import opened Execution
  import opened TcpExecution
  import opened TcpInvariant

  /** A slot that is to be started: no client, and new or past its backoff, which may never end. */
  predicate ToStart(x: Owner, i: nat, now: Time)
    requires i < |x.clients| == |x.execution.slots|
  {
    var s := x.execution.slots[i].sender;
    && x.clients[i].None?
    && (s.phase == Phase.Ready ||
        (s.phase == Backoff && s.notBefore.Some? && s.notBefore.value != TIME_MAX && s.notBefore.value <= now))
  }

  /** One attempt more, and one retry more if it is not the first. */
  predicate CountsStart(x: Owner, y: Owner, first: bool, active: int, failed: int) {
    && y.metrics.started == x.metrics.started + 1
    && y.metrics.retries == x.metrics.retries + (if first then 0 else 1)
    && y.metrics.completed == x.metrics.completed && y.metrics.rebindings == x.metrics.rebindings
    && y.metrics.active == x.metrics.active + active && y.metrics.failed == x.metrics.failed + failed
  }

  /** The sender of slot `i` after attempt number `attempt` was lost with `code`. */
  predicate LostWith(y: Owner, i: nat, limits: Limits, attempt: nat, code: StatusCode) {
    && i < |y.clients| == |y.execution.slots| && y.clients[i].None?
    && var t := y.execution.slots[i].sender;
    && t.attempts == attempt && t.lastStatus == Some(code) && t.hint.None?
    && t.phase == (if WorthAnother(limits, attempt, code) then Backoff else Exhausted)
  }

  /** Losing a waiting sender's attempt, whatever the reason. */
  lemma LosesWith(e: Execution.State, i: nat, code: FailureCode, now: Time)
    requires i < |e.slots| && Retry.Sound(e.slots[i].sender) && e.slots[i].sender.phase == Waiting
    ensures
      var s, out := e.slots[i].sender, FailSlot(e, i, code, now);
      && |out.state.slots| == |e.slots|
      && var t := out.state.slots[i].sender;
      && t.attempts == s.attempts && t.lastStatus == Some(code) && t.hint.None?
      && t.phase == (if WorthAnother(s.limits, s.attempts, code) then Backoff else Exhausted)
  {
    var s := e.slots[i].sender;
    FailureExactly(s, FailAt(code, now));
    ApplyKeepsSound(s, FailAt(code, now));
    SettleShape(e, i, TransportFailed(s, code, now));
  }

  lemma BeginsExactly(x: Owner, i: nat, now: Time)
    requires i < |x.clients| == |x.execution.slots| && Retry.Sound(x.execution.slots[i].sender) && ToStart(x, i, now)
    ensures
      var s, begun := x.execution.slots[i].sender, BeginSlot(x.execution, i, now);
      && begun.0 == Success(s.attempts + 1) && |begun.1.slots| == |x.execution.slots|
      && begun.1.slots[i].sender == s.(attempts := s.attempts + 1, phase := Waiting, hint := None, notBefore := None)
      && Retry.Sound(begun.1.slots[i].sender)
  {
    BeginExactly(x.execution.slots[i].sender, now);
    ApplyKeepsSound(x.execution.slots[i].sender, BeginAt(now));
  }

  /** A slot that is not to be started is left alone. */
  lemma StartsNothing(x: Owner, i: nat, now: Time, connect: Connect)
    requires i < |x.clients| == |x.execution.slots| && Retry.Sound(x.execution.slots[i].sender) && !ToStart(x, i, now)
    ensures StartSlot(x, i, now, connect) == (Ok, x)
  {
  }

  /** One that is gets a new attempt, numbered and counted, and a fresh client if one opens. */
  lemma StartsConnected(x: Owner, i: nat, now: Time)
    requires i < |x.clients| == |x.execution.slots| && Retry.Sound(x.execution.slots[i].sender) && ToStart(x, i, now)
    ensures
      var s, (code, y) := x.execution.slots[i].sender, StartSlot(x, i, now, Connected);
      && code == Ok && CountsStart(x, y, s.attempts == 0, 1, 0)
      && y.clients == x.clients[i := Some(Connection(s.attempts + 1, []))]
      && |y.execution.slots| == |x.execution.slots|
      && y.execution.slots[i].sender == s.(attempts := s.attempts + 1, phase := Waiting, hint := None, notBefore := None)
  {
    BeginsExactly(x, i, now);
  }

  /** A client that is unavailable or fails costs the attempt; any other refusal ends the poll with its code. */
  lemma StartsRefused(x: Owner, i: nat, now: Time, refusal: FailureCode)
    requires i < |x.clients| == |x.execution.slots| && Retry.Sound(x.execution.slots[i].sender) && ToStart(x, i, now)
    ensures
      var s, (code, y) := x.execution.slots[i].sender, StartSlot(x, i, now, Refused(refusal));
      if refusal == Unavailable || refusal == IoError then
        && CountsStart(x, y, s.attempts == 0, 0, 1) && y.clients == x.clients
        && LostWith(y, i, s.limits, s.attempts + 1, refusal)
      else
        && code == refusal && CountsStart(x, y, s.attempts == 0, 0, 0) && y.clients == x.clients
        && y.history.abandoned == x.history.abandoned + 1
  {
    BeginsExactly(x, i, now);
    if refusal == Unavailable || refusal == IoError {
      LosesWith(BeginSlot(x.execution, i, now).1, i, refusal, now);
    }
  }

  /** The attempt of slot `i` is over and its client gone: one less active, and counted where it belongs. */
  predicate CountsEnd(x: Owner, y: Owner, i: nat, completed: int, failed: int)
    requires i < |x.clients|
  {
    && y.clients == x.clients[i := None]
    && y.metrics == x.metrics.(active := x.metrics.active - 1, completed := y.metrics.completed, failed := y.metrics.failed)
    && y.metrics.completed == x.metrics.completed + completed && y.metrics.failed == x.metrics.failed + failed
  }

  predicate Loses(x: Owner, y: Owner, i: nat, code: StatusCode)
    requires i < |x.clients| == |x.execution.slots|
  {
    var s := x.execution.slots[i].sender;
    CountsEnd(x, y, i, 0, 1) && LostWith(y, i, s.limits, s.attempts, code)
  }

  lemma LoseExactly(x: Owner, i: nat, code: FailureCode, later: Time)
    requires i < |x.clients| == |x.execution.slots| && Retry.Sound(x.execution.slots[i].sender)
    requires x.execution.slots[i].sender.phase == Waiting
    ensures Loses(x, LoseSlot(x, i, code, later).1, i, code)
  {
    LosesWith(x.execution, i, code, later);
  }

  /**
   Driving a client: hanging up and end of stream lose the attempt, a client that is unavailable or fails
   does too, and any other client failure ends the poll with its code and nothing changed.
   */
  lemma DriveExactly(x: Owner, i: nat, later: Time, drive: Drive)
    requires i < |x.clients| == |x.execution.slots| && Retry.Sound(x.execution.slots[i].sender)
    requires x.clients[i].Some? ==> x.execution.slots[i].sender.phase == Waiting
    ensures
      var (code, y) := DriveSlot(x, i, later, drive);
      if x.clients[i].None? || drive.Progress? then code == Ok && y == x
      else match drive
        case HungUp => Loses(x, y, i, IoError)
        case Broke(broken) =>
          if broken == Unavailable || broken == IoError then Loses(x, y, i, broken) else code == broken && y == x
        case Received(bytes) => bytes == [] ==> Loses(x, y, i, Unavailable)
        case Progress => true
  {
    if x.clients[i].Some? {
      match drive
      case HungUp => LoseExactly(x, i, IoError, later);
      case Progress =>
      case Broke(code) =>
        if code == Unavailable || code == IoError {
          LoseExactly(x, i, code, later);
        }
      case Received(bytes) =>
        if bytes == [] {
          LoseExactly(x, i, Unavailable, later);
        }
    }
  }

  /**
   Reading: the bytes go to the client and under its attempt into the record; what follows depends on
   what the client has heard so far, and only a stream that is complete counts as one.
   */
  lemma ReadExactly(x: Owner, i: nat, bytes: Bytes, later: Time)
    requires i < |x.clients| == |x.execution.slots| && Retry.Sound(x.execution.slots[i].sender)
    requires x.clients[i].Some? && x.execution.slots[i].sender.phase == Waiting && bytes != []
    ensures
      var (code, y) := ReadSlot(x, i, bytes, later);
      var chunks := x.clients[i].value.chunks + [bytes];
      && y.history.wire == x.history.wire + [Receipt(i, x.execution.slots[i].sender.attempts, bytes)]
      && match ReceiveAll(x.config.crc, IdentityAt(x.execution, i), x.config.maxFrames, chunks).0
         case Reading(_) =>
           && code == Ok && y.metrics == x.metrics && y.execution == x.execution
           && y.clients == x.clients[i := Some(Connection(x.clients[i].value.attempt, chunks))]
         case Failed(broken) =>
           if broken == Unavailable || broken == IoError then Loses(x, y, i, broken)
           else code == broken && y.metrics == x.metrics && y.execution == x.execution
         case Complete(rs) =>
           && CountsEnd(x, y, i, 1, 0)
           && code == RespondSlot(x.execution, i, rs, later).answer
           && y.execution == RespondSlot(x.execution, i, rs, later).state
  {
    var y := Noted(x, i, bytes);
    match Heard(y, i, y.clients[i].value.chunks)
    case Failed(broken) =>
      if broken == Unavailable || broken == IoError {
        LoseExactly(y, i, broken, later);
      }
    case _ =>
  }
}
