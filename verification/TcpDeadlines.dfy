/** When a poll cancels: at its deadline and at no other time, looked up once before starting and once after waiting. */
module TcpDeadlines {
  import opened Common
  import opened Retry
  import opened TcpExecution
  import opened TcpInvariant
  import opened TcpRuns

  /** A cancelled owner: nothing in flight, the execution and what was started as they were. */
  ghost predicate CancelledFrom(x: Owner, y: Owner) {
    && y.status == WasCancelled && y.failure == Cancelled && y.result == x.result
    && y.execution == x.execution && y.metrics == x.metrics.(active := 0)
    && |y.clients| == |x.clients| && (forall i :: 0 <= i < |y.clients| ==> y.clients[i].None?)
    && y.history == x.history.(abandoned := x.history.abandoned + Flying(x.clients))
  }

  /** Cancelling ends a running owner and leaves every other one alone. */
  lemma CancelExactly(x: Owner)
    ensures if x.status == Running then CancelledFrom(x, Cancel(x)) else Cancel(x) == x
  {
  }

  // ---- One poll ----

  lemma ConcludeNeverCancels(step: (StatusCode, Owner))
    requires step.1.status == Running
    ensures Conclude(step).status != WasCancelled && Conclude(step).config == step.1.config
  {
  }

  /** The owner once its due attempts are started, still running or ended by starting them. */
  function Begun(x: Owner, p: Poll): (y: Owner)
    requires Runnable(x)
    ensures Runnable(y) && (x.status == Running ==> y.status != WasCancelled && y.config == x.config)
  {
    var step := StartAll(x, p.now, p.connects, 0);
    ConcludeKeeps(step);
    Conclude(step)
  }

  /** And once whatever was ready is driven. */
  lemma DrivenNeverCancels(x: Owner, p: Poll)
    requires Runnable(x) && x.status == Running
    ensures
      var y := Conclude(DriveAll(x, p.later, p.drives, 0));
      y.status != WasCancelled && y.config == x.config
  {
    ConcludeNeverCancels(DriveAll(x, p.later, p.drives, 0));
  }

  /** A poll at or past the deadline starts nothing: it cancels what is there. */
  lemma PollAtDeadline(x: Owner, p: Poll, deadline: Time)
    requires Runnable(x) && x.status == Running && x.config.deadline == Some(deadline) && deadline <= p.now
    ensures CancelledFrom(x, PollOnce(x, p))
  {
  }

  /** A poll before the deadline that is past it once the wait is over cancels after starting, before driving. */
  lemma PollPastDeadline(x: Owner, p: Poll, deadline: Time)
    requires Runnable(x) && x.status == Running && x.config.deadline == Some(deadline)
    requires p.now < deadline <= p.later && !p.pollFails && Begun(x, p).status == Running
    ensures CancelledFrom(Begun(x, p), PollOnce(x, p))
  {
  }

  /** A wait that fails ends the run as an input-output error, whatever the deadline says by then. */
  lemma PollFailure(x: Owner, p: Poll)
    requires Runnable(x) && x.status == Running && p.pollFails && Begun(x, p).status == Running
    requires x.config.deadline.Some? ==> p.now < x.config.deadline.value
    ensures PollOnce(x, p) == Stop(Begun(x, p), HasFailed, IoError)
  {
  }

  /** A poll cancels exactly at its deadline; one that leaves the owner running saw it twice ahead. */
  lemma PollCancelsExactly(x: Owner, p: Poll)
    requires Runnable(x) && x.status == Running
    ensures PollOnce(x, p).status == WasCancelled <==>
      && x.config.deadline.Some?
      && (x.config.deadline.value <= p.now ||
          (x.config.deadline.value <= p.later && !p.pollFails && Begun(x, p).status == Running))
    ensures PollOnce(x, p).status == Running ==>
      && !p.pollFails && Begun(x, p).status == Running
      && (x.config.deadline.Some? ==> p.now < x.config.deadline.value && p.later < x.config.deadline.value)
    ensures PollOnce(x, p).config == x.config
  {
    var y := Begun(x, p);
    if y.status == Running {
      DrivenNeverCancels(y, p);
    }
  }

  // ---- Whole lives ----

  /** A call that may cancel: cancelling itself, or a poll that saw the deadline pass. */
  predicate MayCancel(deadline: Option<Time>, step: Step) {
    match step
    case CancelCalled => true
    case Polled(p) => deadline.Some? && (deadline.value <= p.now || deadline.value <= p.later)
    case Replaced(_) => false
  }

  lemma AdvanceCancels(x: Owner, step: Step)
    requires Runnable(x) && Sane(step)
    ensures Advance(x, step).config.deadline == x.config.deadline
    ensures x.status != WasCancelled && Advance(x, step).status == WasCancelled ==> MayCancel(x.config.deadline, step)
  {
    if step.Polled? && x.status == Running {
      PollCancelsExactly(x, step.poll);
    }
  }

  /** In every life the deadline is the one it began with, and no owner is cancelled without its cause. */
  lemma {:induction false} LifeCancels(x: Owner, steps: seq<Step>)
    requires Runnable(x) && forall k :: 0 <= k < |steps| ==> Sane(steps[k])
    ensures Life(x, steps).config.deadline == x.config.deadline
    ensures x.status != WasCancelled && Life(x, steps).status == WasCancelled ==>
      exists k :: 0 <= k < |steps| && MayCancel(x.config.deadline, steps[k])
  {
    if steps == [] {
    } else {
      var init, last := steps[..|steps| - 1], steps[|steps| - 1];
      LifeCancels(x, init);
      AdvanceCancels(Life(x, init), last);
      if x.status != WasCancelled && Life(x, steps).status == WasCancelled {
        if Life(x, init).status == WasCancelled {
          var k :| 0 <= k < |init| && MayCancel(x.config.deadline, init[k]);
          assert steps[k] == init[k];
        } else {
          assert MayCancel(x.config.deadline, steps[|steps| - 1]);
        }
      }
    }
  }

  /** And no life that polls past its deadline is running afterwards. */
  lemma LifePastDeadline(x: Owner, steps: seq<Step>, p: Poll, deadline: Time)
    requires Runnable(x) && (forall k :: 0 <= k < |steps| ==> Sane(steps[k])) && x.config.deadline == Some(deadline)
    requires deadline <= p.now || deadline <= p.later
    ensures PollOnce(Life(x, steps), p).status != Running
  {
    LifeCancels(x, steps);
    var y := Life(x, steps);
    if y.status == Running {
      PollCancelsExactly(y, p);
    }
  }
}
