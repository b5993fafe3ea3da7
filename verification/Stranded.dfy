/** What becomes of an execution that is handed over while an attempt is under way. */
module Stranded {
  import opened Common
  import opened Retry
  import opened Execution
  import opened TcpExecution
  import opened TcpInvariant
  import opened TcpRuns

  /** A sender that waits for a response while its slot holds no client that could bring one. */
  predicate StrandedAt(x: Owner, i: nat) {
    && i < |x.clients| == |x.execution.slots|
    && x.clients[i].None? && x.execution.slots[i].sender.phase == Waiting
  }

  /** Slot `i` is still where it was. */
  ghost predicate Stuck(x: Owner, y: Owner, i: nat) {
    StrandedAt(x, i) && StrandedAt(y, i) && y.execution.slots[i] == x.execution.slots[i]
  }

  lemma StuckElsewhere(x: Owner, y: Owner, i: nat, j: nat)
    requires StrandedAt(x, i) && j < |x.clients| && OnlyHere(x, y, j)
    requires j == i ==> y == x
    ensures Stuck(x, y, i) && y.status == x.status
  {
  }

  lemma StartPassesOver(x: Owner, now: Time, connect: Connect, j: nat, i: nat)
    requires Runnable(x) && j < |x.clients| && StrandedAt(x, i)
    ensures var y := StartSlot(x, j, now, connect).1; Stuck(x, y, i) && y.status == x.status && Runnable(y)
  {
    StartsHere(x, j, now, connect);
    var y := StartSlot(x, j, now, connect).1;
    OnlyHereRunnable(x, y, j);
    StuckElsewhere(x, y, i, j);
  }

  lemma DrivePassesOver(x: Owner, later: Time, drive: Drive, j: nat, i: nat)
    requires Runnable(x) && j < |x.clients| && StrandedAt(x, i)
    ensures var y := DriveSlot(x, j, later, drive).1; Stuck(x, y, i) && y.status == x.status && Runnable(y)
  {
    DrivesHere(x, j, later, drive);
    var y := DriveSlot(x, j, later, drive).1;
    OnlyHereRunnable(x, y, j);
    StuckElsewhere(x, y, i, j);
  }

  /** A poll's start loop passes the slot over: its sender is neither ready nor waiting to retry. */
  lemma {:induction false} StartsPassOver(x: Owner, now: Time, connects: nat -> Connect, j: nat, i: nat)
    requires Runnable(x) && j <= |x.clients| && StrandedAt(x, i)
    ensures var y := StartAll(x, now, connects, j).1; Stuck(x, y, i) && y.status == x.status
    decreases |x.clients| - j
  {
    if j == |x.clients| {
    } else {
      StartPassesOver(x, now, connects(j), j, i);
      var step := StartSlot(x, j, now, connects(j));
      if step.0 == Ok {
        StartsPassOver(step.1, now, connects, j + 1, i);
      }
    }
  }

  /** Its drive loop passes the slot over too: there is no client to drive. */
  lemma {:induction false} DrivesPassOver(x: Owner, later: Time, drives: nat -> Drive, j: nat, i: nat)
    requires Runnable(x) && j <= |x.clients| && StrandedAt(x, i)
    ensures var y := DriveAll(x, later, drives, j).1; Stuck(x, y, i) && y.status == x.status
    decreases |x.clients| - j
  {
    if j == |x.clients| {
    } else {
      DrivePassesOver(x, later, drives(j), j, i);
      var step := DriveSlot(x, j, later, drives(j));
      if step.0 == Ok {
        DrivesPassOver(step.1, later, drives, j + 1, i);
      }
    }
  }

  /** And the owner never takes the query for finished. */
  lemma ConcludePassesOver(x: Owner, step: (StatusCode, Owner), i: nat)
    requires Stuck(x, step.1, i) && step.1.status != AllComplete
    ensures Stuck(x, Conclude(step), i) && Conclude(step).status != AllComplete
  {
  }

  lemma WaitPassesOver(x: Owner, p: Poll, i: nat)
    requires Runnable(x) && StrandedAt(x, i) && x.status != AllComplete
    ensures Stuck(x, WaitAndDrive(x, p), i) && WaitAndDrive(x, p).status != AllComplete
  {
    if !p.pollFails && !Expired(x.config, p.later) {
      DrivesPassOver(x, p.later, p.drives, 0, i);
      ConcludePassesOver(x, DriveAll(x, p.later, p.drives, 0), i);
    }
  }

  lemma PollPassesOver(x: Owner, p: Poll, i: nat)
    requires Runnable(x) && StrandedAt(x, i) && x.status != AllComplete
    ensures Stuck(x, PollOnce(x, p), i) && PollOnce(x, p).status != AllComplete
  {
    if x.status == Running && !Expired(x.config, p.now) {
      var step := StartAll(x, p.now, p.connects, 0);
      StartsPassOver(x, p.now, p.connects, 0, i);
      ConcludePassesOver(x, step, i);
      ConcludeKeeps(step);
      if Conclude(step).status == Running {
        WaitPassesOver(Conclude(step), p, i);
      }
    }
  }

  /**
   However often the owner is polled or cancelled, a stranded slot is never started, never driven and
   never concluded, and the owner never completes: only a rebinding gets rid of it.
   */
  lemma {:induction false} StrandedForever(x: Owner, steps: seq<Step>, i: nat)
    requires Runnable(x) && StrandedAt(x, i) && x.status != AllComplete
    requires forall k :: 0 <= k < |steps| ==> !steps[k].Replaced?
    ensures Stuck(x, Life(x, steps), i) && Life(x, steps).status != AllComplete
  {
    if steps == [] {
    } else {
      var init, last := steps[..|steps| - 1], steps[|steps| - 1];
      StrandedForever(x, init, i);
      if last.Polled? {
        PollPassesOver(Life(x, init), last.poll, i);
      }
    }
  }

  /** Beginning one attempt through the execution's own interface. */
  function BegunByHand(h: Handover, i: nat, now: Time): Handover
    requires i < |h.execution.slots| && Usable(h.execution)
  {
    h.(execution := BeginSlot(h.execution, i, now).1)
  }

  lemma BegunIsGiven(h: Handover, i: nat, now: Time)
    requires Given(h) && i < |h.execution.slots|
    ensures Given(BegunByHand(h, i, now))
    ensures h.execution.slots[i].sender.phase == Phase.Ready ==>
      BegunByHand(h, i, now).execution.slots[i].sender.phase == Waiting
  {
    BeginGood(h.execution, h.log, i, now);
    BeginStaysLive(h.execution.slots[i].sender, now);
  }

  lemma HandedWhileWaiting(config: Config, h: Handover, i: nat)
    requires Carries(h) && i < |h.execution.slots| && h.execution.slots[i].sender.phase == Waiting
    ensures var x := NewState(config, h); Runnable(x) && StrandedAt(x, i) && x.status == Running
  {
  }

  /**
   The input that loses a tablet: any execution on which one attempt was begun by hand before it was
   given to an owner. It is accepted like any other, and that tablet is never asked.
   */
  lemma BegunByHandIsLost(config: Config, h: Handover, i: nat, now: Time, steps: seq<Step>)
    requires Given(h) && i < |h.execution.slots| && h.execution.slots[i].sender.phase == Phase.Ready
    requires Creatable(config, h.snapshot) && forall k :: 0 <= k < |steps| ==> !steps[k].Replaced?
    ensures
      var g := BegunByHand(h, i, now);
      var x := NewState(config, g);
      && Given(g) && Creatable(config, g.snapshot) && Runnable(x)
      && Stuck(x, Life(x, steps), i) && Life(x, steps).status != AllComplete
  {
    var g := BegunByHand(h, i, now);
    BegunIsGiven(h, i, now);
    HandedWhileWaiting(config, g, i);
    StrandedForever(NewState(config, g), steps, i);
  }

  ghost predicate StaysCoupled(y: Owner)
    requires |y.clients| == |y.execution.slots|
  {
    y.status == Running || y.status == AllComplete ==> Coupled(y)
  }

  /**
   The exact condition: in every state of every life the slots that hold a client are those whose
   sender waits, if and only if no attempt was under way when the execution was handed over.
   */
  lemma CoupledExactly(config: Config, h: Handover)
    requires Creatable(config, h.snapshot) && Given(h)
    ensures Runnable(NewState(config, h))
    ensures (forall steps :: Fair(steps) ==> StaysCoupled(Life(NewState(config, h), steps))) <==> NoneWaiting(h.execution)
  {
    var x := NewState(config, h);
    NewUnstarted(config, h);
    UnstartedCoupled(x, h);
    if NoneWaiting(h.execution) {
      NewAlive(config, h);
      forall steps | Fair(steps)
        ensures StaysCoupled(Life(x, steps))
      {
        LifeKeepsAlive(x, steps);
      }
    } else {
      assert Fair([]) && Life(x, []) == x;
    }
  }
}
