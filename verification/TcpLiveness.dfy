/** An owner polled before the end of time is never stuck: some slot flies or has a retry it will reach. */
module TcpLiveness {
  import opened Common
  import opened ResponseFrames
  import opened GroupedStreams
  import opened Retry
  import opened Execution
  import opened TcpExecution
  import opened TcpInvariant
  import opened TcpPoll
  import opened TcpRuns

  /** Backing off by at most `most` milliseconds from `t` ends before the end of time. */
  predicate Early(t: Time, most: nat) {
    t + most * TICKS_PER_MS < TIME_MAX
  }

  /** The sender backs off by at most `most` milliseconds, and any deadline it holds will come. */
  predicate Soon(s: Sender<seq<Payload>>, most: nat) {
    s.limits.maxBackoff <= most && (s.notBefore.Some? ==> s.notBefore.value < TIME_MAX)
  }

  predicate Timely(e: Execution.State, most: nat) {
    forall i :: 0 <= i < |e.slots| ==> Soon(e.slots[i].sender, most)
  }

  lemma ApplySoon(s: Sender<seq<Payload>>, e: Event<seq<Payload>>, most: nat)
    requires Retry.Sound(s) && Soon(s, most) && Early(e.now, most)
    ensures Soon(Apply(s, e).1, most)
  {
  }

  lemma FailSoon(e: Execution.State, i: nat, code: StatusCode, t: Time, most: nat)
    requires i < |e.slots| && Retry.Sound(e.slots[i].sender) && Soon(e.slots[i].sender, most) && Early(t, most)
    ensures var out := FailSlot(e, i, code, t); |out.state.slots| == |e.slots| && Soon(out.state.slots[i].sender, most)
  {
    ApplyKeepsSound(e.slots[i].sender, FailAt(code, t));
    ApplySoon(e.slots[i].sender, FailAt(code, t), most);
    SettleShape(e, i, TransportFailed(e.slots[i].sender, code, t));
  }

  lemma RespondSoon(e: Execution.State, i: nat, rs: seq<Response>, t: Time, most: nat)
    requires i < |e.slots| && Retry.Sound(e.slots[i].sender) && Soon(e.slots[i].sender, most) && Early(t, most)
    ensures var out := RespondSlot(e, i, rs, t); |out.state.slots| == |e.slots| && Soon(out.state.slots[i].sender, most)
  {
    var verdict := Judge(IdentityAt(e, i), rs);
    ApplyKeepsSound(e.slots[i].sender, ResolveAt(verdict, t));
    ApplySoon(e.slots[i].sender, ResolveAt(verdict, t), most);
    SettleShape(e, i, Resolve(e.slots[i].sender, verdict, t));
  }

  lemma SettledSoon(x: Owner, i: nat, heard: ClientState, later: Time, most: nat)
    requires i < |x.clients| == |x.execution.slots| && Retry.Sound(x.execution.slots[i].sender)
    requires Soon(x.execution.slots[i].sender, most) && Early(later, most)
    ensures var e := Settled(x, i, heard, later).1.execution; i < |e.slots| && Soon(e.slots[i].sender, most)
  {
    match heard
    case Reading(_) =>
    case Failed(code) => FailSoon(x.execution, i, code, later, most);
    case Complete(rs) => RespondSoon(x.execution, i, rs, later, most);
  }

  lemma DriveSoon(x: Owner, i: nat, later: Time, drive: Drive, most: nat)
    requires i < |x.clients| == |x.execution.slots| && Retry.Sound(x.execution.slots[i].sender)
    requires Soon(x.execution.slots[i].sender, most) && Early(later, most)
    ensures var e := DriveSlot(x, i, later, drive).1.execution; i < |e.slots| && Soon(e.slots[i].sender, most)
  {
    if x.clients[i].Some? {
      match drive
      case HungUp => FailSoon(x.execution, i, IoError, later, most);
      case Progress =>
      case Broke(code) => FailSoon(x.execution, i, code, later, most);
      case Received(bytes) =>
        FailSoon(x.execution, i, Unavailable, later, most);
        var y := Noted(x, i, bytes);
        SettledSoon(y, i, Heard(y, i, y.clients[i].value.chunks), later, most);
    }
  }

  lemma StartSoon(x: Owner, i: nat, now: Time, connect: Connect, most: nat)
    requires i < |x.clients| == |x.execution.slots| && Retry.Sound(x.execution.slots[i].sender)
    requires Soon(x.execution.slots[i].sender, most) && Early(now, most)
    ensures var e := StartSlot(x, i, now, connect).1.execution; i < |e.slots| && Soon(e.slots[i].sender, most)
  {
    var s := x.execution.slots[i].sender;
    BeginStaysLive(s, now);
    ApplySoon(s, BeginAt(now), most);
    if connect.Refused? {
      FailSoon(BeginSlot(x.execution, i, now).1, i, connect.code, now, most);
    }
  }

  /** Slot `j` is there, and soon. */
  predicate SoonAt(x: Owner, j: nat, most: nat) {
    j < |x.clients| == |x.execution.slots| && Soon(x.execution.slots[j].sender, most)
  }

  lemma StartKeepsSoon(x: Owner, i: nat, now: Time, connect: Connect, j: nat, most: nat)
    requires Runnable(x) && i < |x.clients| && SoonAt(x, j, most) && Early(now, most)
    ensures
      var y := StartSlot(x, i, now, connect).1;
      Runnable(y) && |y.clients| == |x.clients| && SoonAt(y, j, most)
  {
    StartsHere(x, i, now, connect);
    OnlyHereRunnable(x, StartSlot(x, i, now, connect).1, i);
    if i == j {
      StartSoon(x, i, now, connect, most);
    }
  }

  lemma DriveKeepsSoon(x: Owner, i: nat, later: Time, drive: Drive, j: nat, most: nat)
    requires Runnable(x) && i < |x.clients| && SoonAt(x, j, most) && Early(later, most)
    ensures
      var y := DriveSlot(x, i, later, drive).1;
      Runnable(y) && |y.clients| == |x.clients| && SoonAt(y, j, most)
  {
    DrivesHere(x, i, later, drive);
    OnlyHereRunnable(x, DriveSlot(x, i, later, drive).1, i);
    if i == j {
      DriveSoon(x, i, later, drive, most);
    }
  }

  lemma {:induction false} StartsKeepSoon(x: Owner, now: Time, connects: nat -> Connect, i: nat, j: nat, most: nat)
    requires Runnable(x) && i <= |x.clients| && SoonAt(x, j, most) && Early(now, most)
    ensures SoonAt(StartAll(x, now, connects, i).1, j, most)
    decreases |x.clients| - i
  {
    if i == |x.clients| {
    } else {
      StartKeepsSoon(x, i, now, connects(i), j, most);
      var step := StartSlot(x, i, now, connects(i));
      if step.0 == Ok {
        StartsKeepSoon(step.1, now, connects, i + 1, j, most);
      }
    }
  }

  lemma {:induction false} DrivesKeepSoon(x: Owner, later: Time, drives: nat -> Drive, i: nat, j: nat, most: nat)
    requires Runnable(x) && i <= |x.clients| && SoonAt(x, j, most) && Early(later, most)
    ensures SoonAt(DriveAll(x, later, drives, i).1, j, most)
    decreases |x.clients| - i
  {
    if i == |x.clients| {
    } else {
      DriveKeepsSoon(x, i, later, drives(i), j, most);
      var step := DriveSlot(x, i, later, drives(i));
      if step.0 == Ok {
        DrivesKeepSoon(step.1, later, drives, i + 1, j, most);
      }
    }
  }

  lemma WaitKeepsSoon(x: Owner, p: Poll, j: nat, most: nat)
    requires Runnable(x) && SoonAt(x, j, most) && Early(p.later, most)
    ensures SoonAt(WaitAndDrive(x, p), j, most)
  {
    DrivesKeepSoon(x, p.later, p.drives, 0, j, most);
    ConcludeKeeps(DriveAll(x, p.later, p.drives, 0));
  }

  lemma PollKeepsSoon(x: Owner, p: Poll, j: nat, most: nat)
    requires Runnable(x) && SoonAt(x, j, most) && Early(p.now, most) && Early(p.later, most)
    ensures SoonAt(PollOnce(x, p), j, most)
  {
    var step := StartAll(x, p.now, p.connects, 0);
    StartsKeepSoon(x, p.now, p.connects, 0, j, most);
    ConcludeKeeps(step);
    WaitKeepsSoon(Conclude(step), p, j, most);
  }

  /** Polls look at the clock early enough, and hand-overs bring no deadline that never comes. */
  predicate Punctual(steps: seq<Step>, most: nat) {
    forall k :: 0 <= k < |steps| ==>
      match steps[k]
      case Polled(p) => Early(p.now, most) && Early(p.later, most)
      case CancelCalled => true
      case Replaced(r) => Carries(r.handover) && Timely(r.handover.execution, most)
  }

  /** Every slot a life leads to is soon, if all slots it started from or was rebound to were. */
  lemma {:induction false} LifeKeepsSoon(x: Owner, steps: seq<Step>, j: nat, most: nat)
    requires Runnable(x) && Timely(x.execution, most) && Punctual(steps, most)
    requires (forall k :: 0 <= k < |steps| ==> Sane(steps[k])) && j < |Life(x, steps).clients|
    ensures SoonAt(Life(x, steps), j, most)
  {
    if steps == [] {
    } else {
      var init, last := steps[..|steps| - 1], steps[|steps| - 1];
      var w := Life(x, init);
      match last
      case Polled(p) =>
        PollKeepsClients(w, p);
        LifeKeepsSoon(x, init, j, most);
        PollKeepsSoon(w, p, j, most);
      case CancelCalled =>
        LifeKeepsSoon(x, init, j, most);
      case Replaced(r) =>
        if Rebind(w, r).0 != Ok {
          LifeKeepsSoon(x, init, j, most);
        }
    }
  }

  lemma PollKeepsClients(x: Owner, p: Poll)
    requires Runnable(x)
    ensures |PollOnce(x, p).clients| == |x.clients|
  {
    var step := StartAll(x, p.now, p.connects, 0);
    ConcludeKeeps(step);
    WaitKeepsClients(Conclude(step), p);
  }

  lemma WaitKeepsClients(x: Owner, p: Poll)
    requires Runnable(x)
    ensures |WaitAndDrive(x, p).clients| == |x.clients|
  {
    ConcludeKeeps(DriveAll(x, p.later, p.drives, 0));
  }

  /** Some slot holds a client, or waits for a retry whose time will come. */
  predicate CanMove(x: Owner)
    requires |x.clients| == |x.execution.slots|
  {
    exists i :: 0 <= i < |x.clients| &&
      (x.clients[i].Some? ||
       (x.execution.slots[i].sender.notBefore.Some? && x.execution.slots[i].sender.notBefore.value < TIME_MAX))
  }

  lemma ProgressesAt(y: Owner) returns (i: nat)
    requires |y.clients| == |y.execution.slots| && Progressing(y)
    ensures i < |y.clients| && (y.clients[i].Some? || y.execution.slots[i].sender.notBefore.Some?)
  {
    i :| 0 <= i < |y.execution.slots| && (y.clients[i].Some? || y.execution.slots[i].sender.notBefore.Some?);
  }

  lemma PollCanMove(x: Owner, p: Poll, y: Owner, most: nat)
    requires Runnable(x) && Timely(x.execution, most) && Early(p.now, most) && Early(p.later, most)
    requires y == PollOnce(x, p) && |y.clients| == |y.execution.slots| == |x.clients| && Progressing(y)
    ensures CanMove(y)
  {
    var i := ProgressesAt(y);
    PollKeepsSoon(x, p, i, most);
  }

  lemma LifeTimely(x: Owner, steps: seq<Step>, most: nat)
    requires Runnable(x) && Timely(x.execution, most) && Punctual(steps, most)
    requires forall k :: 0 <= k < |steps| ==> Sane(steps[k])
    ensures Timely(Life(x, steps).execution, most)
  {
    var y := Life(x, steps);
    forall j | 0 <= j < |y.execution.slots|
      ensures Soon(y.execution.slots[j].sender, most)
    {
      LifeKeepsSoon(x, steps, j, most);
    }
  }

  /**
   As long as no poll looks at the clock within one maximal backoff of the end of time, an owner that
   is still running after a poll has a slot in flight or a retry that will come due.
   */
  lemma PolledLifeCanMove(x: Owner, steps: seq<Step>, p: Poll, most: nat)
    requires Alive(x) && Runnable(x) && Fair(steps) && Timely(x.execution, most)
    requires Punctual(steps, most) && Early(p.now, most) && Early(p.later, most)
    ensures
      var y := PollOnce(Life(x, steps), p);
      |y.clients| == |y.execution.slots| && (y.status == Running ==> CanMove(y))
  {
    var w := Life(x, steps);
    LifeKeepsAlive(x, steps);
    LifeTimely(x, steps, most);
    PolledCanMove(w, p, most);
  }

  lemma PolledCanMove(w: Owner, p: Poll, most: nat)
    requires Valid(w) && Runnable(w) && Timely(w.execution, most) && Early(p.now, most) && Early(p.later, most)
    ensures
      var y := PollOnce(w, p);
      |y.clients| == |y.execution.slots| && (y.status == Running ==> CanMove(y))
  {
    PollStaysRunnable(w, p);
    PollKeepsClients(w, p);
    PollKeepsValid(w, p);
    if w.status == Running && PollOnce(w, p).status == Running {
      PollCanMove(w, p, PollOnce(w, p), most);
    }
  }
}
