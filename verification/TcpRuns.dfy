/** Whole lives of a poll owner: polls, cancellation and rebinding in any order. */
module TcpRuns {
  import opened Common
  import opened ResponseFrames
  import opened RequestFrames
  import opened GroupedSender
  import opened Retry
  import opened Execution
  import opened TcpExecution
  import opened TcpInvariant
  import opened TcpPoll
  import opened Sums

  // ---- Compatibility ----

  /** The same question to the same tablet; where it is served, from which generation and by which proof may differ. */
  predicate SameLogicalFragment(a: Dispatch, b: Dispatch) {
    && a.raftGroupId == b.raftGroupId && a.groupKeyInputIndex == b.groupKeyInputIndex
    && a.queryId == b.queryId && a.databaseId == b.databaseId && a.tableId == b.tableId && a.tabletId == b.tabletId
    && a.schemaId == b.schemaId && a.readPolicy == b.readPolicy && a.columnOrdinals == b.columnOrdinals
    && a.aggregateInputIndex == b.aggregateInputIndex && a.eventTimePredicate == b.eventTimePredicate
  }

  predicate Compatible(previous: Snapshot, next: Snapshot) {
    && next.databaseId == previous.databaseId && previous.generation <= next.generation
    && |next.dispatches| == |previous.dispatches|
    && forall i :: 0 <= i < |previous.dispatches| ==> SameLogicalFragment(previous.dispatches[i], next.dispatches[i])
  }

  lemma CompatibleIsPreorder(a: Snapshot, b: Snapshot, c: Snapshot)
    ensures Compatible(a, a)
    ensures Compatible(a, b) && Compatible(b, c) ==> Compatible(a, c)
  {
  }

  // ---- Rebinding ----

  /** A replacement: its configuration and the execution handed over with it. */
  datatype Replacement = Replacement(config: Config, handover: Handover)

  /** The execution is the one its snapshot asked for, and it can be run; every execution object is so built. */
  predicate Carries(h: Handover) {
    && |h.execution.slots| == |h.snapshot.dispatches| && Usable(h.execution)
    && forall i :: 0 <= i < |h.execution.slots| ==> h.execution.slots[i].dispatch == h.snapshot.dispatches[i]
  }

  /** An execution in a reachable state, whoever drove it there. */
  ghost predicate Given(h: Handover) {
    Carries(h) && Good(h.execution, h.log)
  }

  /** No attempt is under way. */
  predicate NoneWaiting(e: Execution.State) {
    forall i :: 0 <= i < |e.slots| ==> e.slots[i].sender.phase != Waiting
  }

  /** An execution that may be handed over: reachable, and with no attempt under way. */
  ghost predicate Handed(h: Handover) {
    Given(h) && NoneWaiting(h.execution)
  }

  function Fresh(source: NodeId, snapshot: Snapshot, settings: Settings): Handover
    requires snapshot.dispatches != []
  {
    Handover(snapshot, NewExecution(source, snapshot, settings), [])
  }

  lemma FreshCarries(source: NodeId, snapshot: Snapshot, settings: Settings)
    requires snapshot.dispatches != [] && settings.retry.Valid()
    ensures var h := Fresh(source, snapshot, settings); Carries(h) && NoneWaiting(h.execution)
  {
    InitialSound<seq<Payload>>(settings.retry);
  }

  lemma AdmissibleRetry(encode: Request -> Result<Bytes>, source: NodeId, snapshot: Snapshot, settings: Settings)
    requires Admissible(encode, source, snapshot, settings)
    ensures snapshot.dispatches != [] && settings.retry.Valid()
  {
    assert Acceptable(source, snapshot.dispatches[0], settings.retry);
  }

  /** Executions as creation makes them qualify. */
  lemma CreatedIsHanded(encode: Request -> Result<Bytes>, source: NodeId, snapshot: Snapshot, settings: Settings)
    requires Admissible(encode, source, snapshot, settings)
    ensures Handed(Fresh(source, snapshot, settings))
  {
    AdmissibleRetry(encode, source, snapshot, settings);
    FreshCarries(source, snapshot, settings);
    NewIsSound(encode, source, snapshot, settings);
  }

  /** So does every execution its public interface has led to, once the attempts under way are concluded. */
  lemma DrivenIsGiven(h: Handover, inputs: seq<Input>)
    requires Given(h) && h.log == []
    ensures var (e, log) := Execution.Run(h.execution, inputs); Given(Handover(h.snapshot, e, log))
  {
    RunKeepsDispatches(h.execution, inputs);
    SoundUsable(Execution.Run(h.execution, inputs).0);
  }

  function Rebound(x: Owner, r: Replacement): Owner {
    var m, made := x.metrics, NewState(r.config, r.handover);
    made.(
      metrics := m.(rebindings := m.rebindings + 1, active := 0),
      history := made.history.(origin := x.history.origin, abandoned := x.history.abandoned,
                               startedBefore := m.started, firstsBefore := m.started - m.retries))
  }

  function Rebind(x: Owner, r: Replacement): (StatusCode, Owner) {
    if x.status != HasFailed || !Retryable(x.failure) then (InvalidArgument, x)
    else if x.metrics.rebindings >= x.config.maxRebindings then (ResourceExhausted, x)
    else if r.config.deadline != x.config.deadline || r.config.maxRebindings != x.config.maxRebindings then
      (InvalidArgument, x)
    else if !Compatible(x.snapshot, r.handover.snapshot) then (InvalidArgument, x)
    else if !Creatable(r.config, r.handover.snapshot) then (InvalidArgument, x)
    else (Ok, Rebound(x, r))
  }

  /**
   When a rebinding is taken, written out: the run failed for a reason worth another try, the budget leaves
   room, and the replacement asks the same question under the same limits and can be created. Otherwise
   nothing changes; only a spent budget is reported as exhaustion.
   */
  lemma RebindExactly(x: Owner, r: Replacement)
    ensures
      var failed := x.status == HasFailed && (x.failure == Unavailable || x.failure == ResourceExhausted || x.failure == IoError);
      var fits :=
        && r.config.deadline == x.config.deadline && r.config.maxRebindings == x.config.maxRebindings
        && SameQuery(x.snapshot, r.handover.snapshot) && r.config.wellFormed && r.config.maxRebindings <= 1024
        && forall d :: d in r.handover.snapshot.dispatches ==> d.servingNode in r.config.routes;
      var (code, y) := Rebind(x, r);
      && (code == Ok <==> failed && x.metrics.rebindings < x.config.maxRebindings && fits)
      && (code == ResourceExhausted <==> failed && x.metrics.rebindings >= x.config.maxRebindings)
      && (code == Ok || code == ResourceExhausted || code == InvalidArgument)
      && (code != Ok ==> y == x)
  {
    CompatibleExactly(x.snapshot, r.handover.snapshot);
  }

  /** The same database, no older, and for every tablet in order the same question. */
  ghost predicate SameQuery(a: Snapshot, b: Snapshot) {
    && b.databaseId == a.databaseId && a.generation <= b.generation && |b.dispatches| == |a.dispatches|
    && forall i :: 0 <= i < |a.dispatches| ==> b.dispatches[i] == a.dispatches[i].(
         servingNode := b.dispatches[i].servingNode, snapshotGeneration := b.dispatches[i].snapshotGeneration,
         proof := b.dispatches[i].proof)
  }

  lemma CompatibleExactly(a: Snapshot, b: Snapshot)
    ensures Compatible(a, b) <==> SameQuery(a, b)
  {
    if |b.dispatches| == |a.dispatches| {
      forall i | 0 <= i < |a.dispatches|
        ensures SameLogicalFragment(a.dispatches[i], b.dispatches[i]) <==> b.dispatches[i] == a.dispatches[i].(
          servingNode := b.dispatches[i].servingNode, snapshotGeneration := b.dispatches[i].snapshotGeneration,
          proof := b.dispatches[i].proof)
      {
        SameQuestion(a.dispatches[i], b.dispatches[i]);
      }
    }
  }

  /** Two dispatches ask the same exactly when they differ at most in where, from when and by which proof they are served. */
  lemma SameQuestion(a: Dispatch, b: Dispatch)
    ensures SameLogicalFragment(a, b) <==>
      b == a.(servingNode := b.servingNode, snapshotGeneration := b.snapshotGeneration, proof := b.proof)
  {
  }

  // ---- The invariant of a life ----

  /** Budgets over all bindings, and the logical query it all started from. */
  predicate Bounded(x: Owner) {
    && x.config.maxRebindings <= MAXIMUM_REBINDINGS && x.metrics.rebindings <= x.config.maxRebindings
    && Compatible(x.history.origin, x.snapshot)
    && x.history.startedBefore <= x.metrics.rebindings * (|x.snapshot.dispatches| * 1024)
  }

  ghost predicate Alive(x: Owner) {
    Valid(x) && Bounded(x)
  }

  /** An owner that has just been given its execution. */
  ghost predicate Unstarted(x: Owner, h: Handover) {
    && Carries(h) && x.snapshot == h.snapshot && x.execution == h.execution && x.history.handed == h.execution
    && x.clients == Idled(|h.execution.slots|) && x.history.wire == []
    && x.metrics.active == 0 && x.metrics.started == x.history.startedBefore
    && x.metrics.started == x.metrics.completed + x.metrics.failed + x.history.abandoned
    && x.metrics.started - x.metrics.retries == x.history.firstsBefore >= 0
  }

  lemma UnstartedLedger(x: Owner, h: Handover)
    requires Unstarted(x, h) && Usable(h.execution)
    ensures Ledger(x)
  {
    NoneFlying(|h.execution.slots|);
  }

  /** Just after the hand-over, slots and senders are coupled exactly when no attempt was under way. */
  lemma UnstartedCoupled(x: Owner, h: Handover)
    requires Unstarted(x, h)
    ensures Coupled(x) <==> NoneWaiting(h.execution)
  {
    if Coupled(x) {
      forall i | 0 <= i < |h.execution.slots|
        ensures h.execution.slots[i].sender.phase != Waiting
      {
        assert CoupledAt(x, i);
      }
    }
  }

  lemma UnstartedValid(x: Owner, h: Handover)
    requires Unstarted(x, h) && Handed(h) && x.history.log == h.log && x.status == Running
    ensures Valid(x)
  {
    UnstartedLedger(x, h);
    UnstartedCoupled(x, h);
  }

  lemma AttemptsWithinBudget(e: Execution.State, log: seq<Call>)
    requires Good(e, log)
    ensures Total(Senders(e.slots), Tries) <= |e.slots| * 1024
  {
    forall i | 0 <= i < |e.slots|
      ensures Senders(e.slots)[i].attempts <= 1024
    {
      GoodSender(e, log, i);
    }
    TriesBounded(Senders(e.slots));
  }

  lemma BudgetAdds(started: nat, before: nat, here: nat, rebindings: nat, n: nat)
    requires started <= before + here && before <= rebindings * (n * 1024) && here <= n * 1024
    ensures started <= (rebindings + 1) * (n * 1024)
  {
  }

  /** Over all bindings, at most 1024 attempts per slot and binding. */
  lemma StartedWithinBudget(x: Owner)
    requires Good(x.execution, x.history.log) && Ledger(x) && Bounded(x)
    ensures x.metrics.retries <= x.metrics.started <= (x.metrics.rebindings + 1) * (|x.snapshot.dispatches| * 1024)
  {
    AttemptsWithinBudget(x.execution, x.history.log);
    BudgetAdds(x.metrics.started, x.history.startedBefore, Total(Senders(x.execution.slots), Tries), x.metrics.rebindings,
               |x.snapshot.dispatches|);
  }

  lemma ReboundBounded(x: Owner, r: Replacement)
    requires Bounded(x) && x.metrics.rebindings < x.config.maxRebindings
    requires r.config.maxRebindings == x.config.maxRebindings && Compatible(x.snapshot, r.handover.snapshot)
    requires x.metrics.started <= (x.metrics.rebindings + 1) * (|x.snapshot.dispatches| * 1024)
    ensures Bounded(Rebound(x, r))
  {
  }

  lemma ReboundUnstarted(x: Owner, r: Replacement)
    requires Carries(r.handover) && Conserved(x) && Tallied(x) && x.metrics.active == 0
    ensures Unstarted(Rebound(x, r), r.handover)
  {
  }

  /** What a rebinding may do: nothing, or start the same logical query over from a failed owner. */
  ghost predicate Rebinds(x: Owner, y: Owner, answer: StatusCode) {
    && y.history.origin == x.history.origin && y.history.abandoned == x.history.abandoned
    && (answer != Ok ==> y == x)
    && (answer == Ok ==>
          && x.status == HasFailed && Retryable(x.failure) && y.status == Running && Compatible(x.snapshot, y.snapshot)
          && y.metrics == x.metrics.(rebindings := x.metrics.rebindings + 1)
          && y.config.deadline == x.config.deadline && y.config.maxRebindings == x.config.maxRebindings)
  }

  lemma RebindCases(x: Owner, r: Replacement)
    requires Valid(x)
    ensures Rebinds(x, Rebind(x, r).1, Rebind(x, r).0)
  {
  }

  /**
   Rebinding with any reachable execution: the books stay balanced and every budget holds. The owner
   is sound afterwards exactly when it was refused or no attempt was under way.
   */
  lemma RebindKeepsAlive(x: Owner, r: Replacement)
    requires Alive(x) && Given(r.handover)
    ensures
      var (answer, y) := Rebind(x, r);
      && Rebinds(x, y, answer) && Ledger(y) && Bounded(y)
      && (Alive(y) <==> answer != Ok || NoneWaiting(r.handover.execution))
  {
    RebindCases(x, r);
    if Rebind(x, r).0 == Ok {
      var y, h := Rebound(x, r), r.handover;
      StartedWithinBudget(x);
      ReboundBounded(x, r);
      ReboundUnstarted(x, r);
      UnstartedLedger(y, h);
      UnstartedCoupled(y, h);
      if NoneWaiting(h.execution) {
        UnstartedValid(y, h);
      }
    }
  }

  // ---- Runs ----

  datatype Step = Polled(poll: Poll) | CancelCalled | Replaced(replacement: Replacement)

  predicate Sane(step: Step) {
    step.Replaced? ==> Carries(step.replacement.handover)
  }

  function Advance(x: Owner, step: Step): (y: Owner)
    requires Runnable(x) && Sane(step)
    ensures Runnable(y)
  {
    match step
    case Polled(poll) => PollStaysRunnable(x, poll); PollOnce(x, poll)
    case CancelCalled => Cancel(x)
    case Replaced(r) => Rebind(x, r).1
  }

  /** A life: any polls, cancellations and rebindings, in any order. */
  function Life(x: Owner, steps: seq<Step>): (y: Owner)
    requires Runnable(x) && forall k :: 0 <= k < |steps| ==> Sane(steps[k])
    ensures Runnable(y)
  {
    if steps == [] then x
    else Advance(Life(x, steps[..|steps| - 1]), steps[|steps| - 1])
  }

  lemma LifeGrows(x: Owner, steps: seq<Step>, y: Owner)
    requires Runnable(x) && (forall k :: 0 <= k < |steps| ==> Sane(steps[k])) && steps != []
    requires Life(x, steps[..|steps| - 1]) == y
    ensures Life(x, steps) == Advance(y, steps[|steps| - 1])
  {
  }

  lemma OneStepLife(x: Owner, step: Step)
    requires Runnable(x) && Sane(step)
    ensures Life(x, [step]) == Advance(x, step)
  {
    assert [step][..0] == [];
    assert Life(x, [step][..0]) == x;
  }

  /** Every replacement hands over an execution with no attempt under way. */
  ghost predicate Fair(steps: seq<Step>) {
    forall k :: 0 <= k < |steps| ==> Sane(steps[k]) && (steps[k].Replaced? ==> Handed(steps[k].replacement.handover))
  }

  /** Later in the same life: the same logical query, counters that never fall, endings that last. */
  ghost predicate Descends(x: Owner, y: Owner) {
    && y.history.origin == x.history.origin && Compatible(x.snapshot, y.snapshot)
    && y.config.deadline == x.config.deadline && y.config.maxRebindings == x.config.maxRebindings
    && Grows(x.metrics, y.metrics) && x.history.abandoned <= y.history.abandoned
    && (x.status == AllComplete || x.status == WasCancelled ==> y == x)
  }

  lemma DescendsTrans(x: Owner, y: Owner, z: Owner)
    requires Descends(x, y) && Descends(y, z)
    ensures Descends(x, z)
  {
  }

  lemma DescendsSelf(x: Owner)
    ensures Descends(x, x)
  {
  }

  lemma PollsDescends(x: Owner, y: Owner)
    requires Alive(x) && x.status == Running && Polls(x, y)
    ensures Alive(y) && Descends(x, y)
  {
    CompatibleIsPreorder(x.snapshot, x.snapshot, x.snapshot);
  }

  lemma CancelPolls(x: Owner)
    requires Valid(x) && x.status == Running
    ensures Polls(x, Cancel(x))
  {
    assert After(x, x, true);
    StopPolls(x, x, true, WasCancelled, Cancelled);
  }

  lemma RebindDescends(x: Owner, y: Owner, answer: StatusCode)
    requires Rebinds(x, y, answer)
    ensures Descends(x, y)
  {
    DescendsSelf(x);
  }

  lemma AdvanceKeepsAlive(x: Owner, step: Step)
    requires Alive(x) && Runnable(x) && Sane(step) && (step.Replaced? ==> Handed(step.replacement.handover))
    ensures Alive(Advance(x, step)) && Descends(x, Advance(x, step))
  {
    DescendsSelf(x);
    match step
    case Polled(poll) =>
      PollKeepsValid(x, poll);
      if x.status == Running {
        PollsDescends(x, PollOnce(x, poll));
      }
    case CancelCalled =>
      if x.status == Running {
        CancelPolls(x);
        PollsDescends(x, Cancel(x));
      }
    case Replaced(r) =>
      RebindKeepsAlive(x, r);
      RebindDescends(x, Rebind(x, r).1, Rebind(x, r).0);
  }

  /** What every life keeps: a sound owner of the same logical query, whose counters never fall. */
  lemma {:induction false} LifeKeepsAlive(x: Owner, steps: seq<Step>)
    requires Alive(x) && Runnable(x) && Fair(steps)
    ensures Alive(Life(x, steps)) && Descends(x, Life(x, steps))
  {
    if steps == [] {
      DescendsSelf(x);
    } else {
      var init, last := steps[..|steps| - 1], steps[|steps| - 1];
      LifeKeepsAlive(x, init);
      AdvanceKeepsAlive(Life(x, init), last);
      DescendsTrans(x, Life(x, init), Life(x, steps));
    }
  }

  lemma NewUnstarted(config: Config, h: Handover)
    requires Carries(h)
    ensures Runnable(NewState(config, h)) && Unstarted(NewState(config, h), h)
  {
  }

  lemma NewAlive(config: Config, h: Handover)
    requires Creatable(config, h.snapshot) && Handed(h)
    ensures Runnable(NewState(config, h)) && Alive(NewState(config, h))
  {
    NewUnstarted(config, h);
    UnstartedValid(NewState(config, h), h);
    CompatibleIsPreorder(h.snapshot, h.snapshot, h.snapshot);
  }
}
