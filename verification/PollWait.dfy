/** How long a poll may sleep: two ways to compute it, one in each execution, and when they agree. */
module PollWait {
  import opened Common
  import opened ResponseFrames
  import opened Retry
  import opened TcpExecution

  /** Whole milliseconds left until an instant; none once it has passed. */
  function Millis(until: Time, now: Time): nat {
    if until <= now then 0 else (until - now) / TICKS_PER_MS
  }

  /** The retry deadline of each slot that holds no client and is in backoff. */
  function Pending(x: TcpExecution.State): seq<Option<Time>>
    requires |x.clients| == |x.execution.slots|
  {
    seq(|x.clients|, i requires 0 <= i < |x.clients| =>
      var sender := x.execution.slots[i].sender;
      if x.clients[i].None? && sender.phase == Backoff then sender.notBefore else None)
  }

  function Deadlines(pending: seq<Option<Time>>, saturated: bool): seq<Time> {
    if pending == [] then []
    else
      var rest, last := Deadlines(pending[..|pending| - 1], saturated), pending[|pending| - 1];
      if last.Some? && (saturated || last.value != TIME_MAX) then rest + [last.value] else rest
  }

  function Bounds(deadline: Option<Time>, pending: seq<Option<Time>>, saturated: bool): seq<Time> {
    (if deadline.Some? then [deadline.value] else []) + Deadlines(pending, saturated)
  }

  function Least(maximumWait: nat, now: Time, bounds: seq<Time>): nat {
    if bounds == [] then maximumWait
    else Min(Least(maximumWait, now, bounds[..|bounds| - 1]), Millis(bounds[|bounds| - 1], now))
  }

  /** `Least` is the minimum: below the limit and every bound, and equal to one of them. */
  lemma {:induction false} LeastIsMinimum(maximumWait: nat, now: Time, bounds: seq<Time>)
    ensures Least(maximumWait, now, bounds) <= maximumWait
    ensures forall b :: b in bounds ==> Least(maximumWait, now, bounds) <= Millis(b, now)
    ensures Least(maximumWait, now, bounds) == maximumWait
      || exists b :: b in bounds && Least(maximumWait, now, bounds) == Millis(b, now)
  {
    if bounds != [] {
      var init, last := bounds[..|bounds| - 1], bounds[|bounds| - 1];
      LeastIsMinimum(maximumWait, now, init);
      assert bounds == init + [last];
      assert last in bounds;
    }
  }

  lemma {:induction false} LeastSnoc(maximumWait: nat, now: Time, bounds: seq<Time>, b: Time)
    ensures Least(maximumWait, now, bounds + [b]) == Min(Least(maximumWait, now, bounds), Millis(b, now))
  {
  }

  /** One more slot adds its deadline to the bounds, or nothing. */
  lemma LeastPending(maximumWait: nat, now: Time, deadline: Option<Time>, init: seq<Option<Time>>, last: Option<Time>,
                     saturated: bool)
    ensures
      var before := Least(maximumWait, now, Bounds(deadline, init, saturated));
      Least(maximumWait, now, Bounds(deadline, init + [last], saturated)) ==
        if last.Some? && (saturated || last.value != TIME_MAX) then Min(before, Millis(last.value, now)) else before
  {
    assert (init + [last])[..|init|] == init;
    if last.Some? && (saturated || last.value != TIME_MAX) {
      var bounds := Bounds(deadline, init, saturated);
      assert Bounds(deadline, init + [last], saturated) == bounds + [last.value];
      LeastSnoc(maximumWait, now, bounds, last.value);
    }
  }

  /** The wait of the float64 execution: find the earliest instant, then convert it once. */
  method BoundedWait(x: TcpExecution.State, maximumWait: nat, now: Time) returns (wait: nat)
    requires Runnable(x)
    ensures wait == Least(maximumWait, now, Bounds(x.config.deadline, Pending(x), false))
  {
    ghost var deadline, pending := x.config.deadline, Pending(x);
    var earliest: Option<Time> := x.config.deadline;
    var i := 0;
    assert Deadlines(pending[..0], false) == [];
    while i < |x.clients|
      invariant i <= |x.clients| == |pending|
      invariant Least(maximumWait, now, Bounds(deadline, pending[..i], false)) == Capped(maximumWait, now, earliest)
    {
      assert pending[..i + 1] == pending[..i] + [pending[i]];
      LeastPending(maximumWait, now, deadline, pending[..i], pending[i], false);
      SoonerCaps(maximumWait, now, earliest, pending[i]);
      var sender := x.execution.slots[i].sender;
      if x.clients[i].None? && sender.phase == Backoff {
        var due := sender.notBefore.GetOr(TIME_MAX);
        if due != TIME_MAX && due < earliest.GetOr(TIME_MAX) {
          earliest := Some(due);
        }
      }
      i := i + 1;
    }
    assert pending[..|pending|] == pending;
    wait := Capped(maximumWait, now, earliest);
  }

  function Capped(maximumWait: nat, now: Time, earliest: Option<Time>): nat {
    if earliest.None? then maximumWait else Min(maximumWait, Millis(earliest.value, now))
  }

  lemma MillisMonotone(a: Time, b: Time, now: Time)
    requires a <= b
    ensures Millis(a, now) <= Millis(b, now)
  {
  }

  /** The earlier of the instant found so far and one more slot's, unless that one never comes. */
  function Sooner(earliest: Option<Time>, due: Option<Time>): Option<Time> {
    if due.Some? && due.value != TIME_MAX && due.value < earliest.GetOr(TIME_MAX) then due else earliest
  }

  lemma SoonerCaps(maximumWait: nat, now: Time, earliest: Option<Time>, due: Option<Time>)
    ensures Capped(maximumWait, now, Sooner(earliest, due)) ==
      if due.Some? && due.value != TIME_MAX then Min(Capped(maximumWait, now, earliest), Millis(due.value, now))
      else Capped(maximumWait, now, earliest)
  {
    if due.Some? && due.value != TIME_MAX {
      if due.value < earliest.GetOr(TIME_MAX) {
        CappedEarlier(maximumWait, now, earliest, due.value);
      } else {
        MillisMonotone(earliest.GetOr(TIME_MAX), due.value, now);
      }
    }
  }

  lemma CappedEarlier(maximumWait: nat, now: Time, earliest: Option<Time>, sooner: Time)
    requires sooner < earliest.GetOr(TIME_MAX)
    ensures Min(Capped(maximumWait, now, earliest), Millis(sooner, now)) == Capped(maximumWait, now, Some(sooner))
  {
  }

  /** The wait of the mutable execution: fold every deadline into the wait as it is met. */
  method InlineWait(maximumWait: nat, now: Time, deadline: Option<Time>, pending: seq<Option<Time>>) returns (wait: nat)
    ensures wait == Least(maximumWait, now, Bounds(deadline, pending, true))
  {
    wait := maximumWait;
    if deadline.Some? {
      wait := if deadline.value <= now then 0 else Min(wait, (deadline.value - now) / TICKS_PER_MS);
    }
    var i := 0;
    while i < |pending|
      invariant i <= |pending|
      invariant wait == Least(maximumWait, now, Bounds(deadline, pending[..i], true))
    {
      assert pending[..i + 1] == pending[..i] + [pending[i]];
      LeastPending(maximumWait, now, deadline, pending[..i], pending[i], true);
      if pending[i].Some? {
        var due := pending[i].value;
        wait := if due <= now then 0 else Min(wait, (due - now) / TICKS_PER_MS);
      }
      i := i + 1;
    }
    assert pending[..|pending|] == pending;
  }

  predicate HasSaturated(pending: seq<Option<Time>>) {
    Some(TIME_MAX) in pending
  }

  lemma {:induction false} SaturatedBound(maximumWait: nat, now: Time, deadline: Option<Time>, pending: seq<Option<Time>>)
    ensures
      var bounded := Least(maximumWait, now, Bounds(deadline, pending, false));
      Least(maximumWait, now, Bounds(deadline, pending, true))
        == if HasSaturated(pending) then Min(bounded, Millis(TIME_MAX, now)) else bounded
  {
    if pending == [] {
      assert Deadlines(pending, true) == Deadlines(pending, false);
    } else {
      var init, last := pending[..|pending| - 1], pending[|pending| - 1];
      SaturatedBound(maximumWait, now, deadline, init);
      assert pending == init + [last];
      LeastPending(maximumWait, now, deadline, init, last, true);
      LeastPending(maximumWait, now, deadline, init, last, false);
    }
  }

  /** Some slot waits for an instant that is not the end of time. */
  predicate HasOrdinary(pending: seq<Option<Time>>) {
    exists i :: 0 <= i < |pending| && pending[i].Some? && pending[i].value != TIME_MAX
  }

  lemma {:induction false} OrdinaryIsBound(pending: seq<Option<Time>>)
    ensures HasOrdinary(pending) <==> Deadlines(pending, false) != []
  {
    if pending == [] {
    } else {
      var init := pending[..|pending| - 1];
      OrdinaryIsBound(init);
      assert forall i :: 0 <= i < |init| ==> init[i] == pending[i];
    }
  }

  /** Without any bound the wait is the limit; with one it never reaches past the end of time. */
  lemma BoundedByEnd(maximumWait: nat, now: Time, bounds: seq<Time>)
    ensures Least(maximumWait, now, bounds) <= Millis(TIME_MAX, now) <==> bounds != [] || maximumWait <= Millis(TIME_MAX, now)
  {
    LeastIsMinimum(maximumWait, now, bounds);
    if bounds != [] {
      assert bounds[0] in bounds;
      MillisMonotone(bounds[0], TIME_MAX, now);
    }
  }

  /**
   The two computations agree if and only if no deadline is saturated, or some other bound is in force
   (the execution's deadline or a slot's ordinary one), or the limit ends before the end of time.
   */
  lemma WaitsAgree(maximumWait: nat, now: Time, deadline: Option<Time>, pending: seq<Option<Time>>)
    ensures Least(maximumWait, now, Bounds(deadline, pending, true)) == Least(maximumWait, now, Bounds(deadline, pending, false))
      <==> (HasSaturated(pending) ==>
              deadline.Some? || HasOrdinary(pending) || maximumWait <= Millis(TIME_MAX, now))
  {
    SaturatedBound(maximumWait, now, deadline, pending);
    OrdinaryIsBound(pending);
    BoundedByEnd(maximumWait, now, Bounds(deadline, pending, false));
  }

  /** One millisecond before the end of time, a saturated slot shortens only the inline wait. */
  lemma WaitsDiffer()
    ensures
      var now: Time, pending := TIME_MAX - TICKS_PER_MS, [Some(TIME_MAX)];
      && Least(1000, now, Bounds(None, pending, false)) == 1000
      && Least(1000, now, Bounds(None, pending, true)) == 1
  {
    var now: Time, pending := TIME_MAX - TICKS_PER_MS, [Some(TIME_MAX)];
    assert pending[..0] == [];
    assert Deadlines(pending[..0], false) == [] && Deadlines(pending[..0], true) == [];
    assert Bounds(None, pending, false) == [] && Bounds(None, pending, true) == [] + [TIME_MAX];
    LeastSnoc(1000, now, [], TIME_MAX);
  }

  // ---- Slots that are never started again ----

  /**
   After a retryable failure at `now` with budget left, the owner can ever start the slot again exactly
   when the backoff ends before the end of time; the sender itself would also begin at that last instant.
   */
  lemma RetriesAgainExactly(s: Sender<seq<Payload>>, code: StatusCode, now: Time)
    requires Retry.Sound(s) && s.phase == Waiting && Retryable(code) && s.attempts < s.limits.maxAttempts
    ensures
      var t := Schedule(s, code, now);
      && Retry.Sound(t) && Begin(t, TIME_MAX).0.Success?
      && ((exists later: Time :: Due(t, later)) <==> now + s.nextBackoff * TICKS_PER_MS < TIME_MAX)
  {
    ScheduleKeepsSound(s, s.hint, code, now);
    var t := Schedule(s, code, now);
    assert s.(hint := s.hint) == s;
    BudgetRemains(t, TIME_MAX);
    if now + s.nextBackoff * TICKS_PER_MS < TIME_MAX {
      assert Due(t, t.notBefore.value);
    }
  }

  /** A sender that backs off as long as its limits ever allow is, from the clock's first millisecond on, never started again. */
  lemma LongestBackoffIsNever(now: Time)
    requires now >= TICKS_PER_MS
    ensures
      var s := Begin(Initial<seq<Payload>>(Limits(2, MAX_BACKOFF_MS, MAX_BACKOFF_MS)), now).1;
      && Retry.Sound(s) && s.phase == Waiting && s.attempts < s.limits.maxAttempts
      && var t := Schedule(s, Unavailable, now);
      Retry.Sound(t) && t.phase == Backoff && forall later: Time :: !Due(t, later)
  {
    var limits := Limits(2, MAX_BACKOFF_MS, MAX_BACKOFF_MS);
    InitialSound<seq<Payload>>(limits);
    var s := Begin(Initial<seq<Payload>>(limits), now).1;
    ApplyKeepsSound(Initial<seq<Payload>>(limits), BeginAt(now));
    RetriesAgainExactly(s, Unavailable, now);
  }
}
