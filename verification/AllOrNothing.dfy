/** What every life of a poll owner guarantees. */
module AllOrNothing {
  import opened Common
  import opened ResponseFrames
  import opened FrameReader
  import opened Chunking
  import opened GroupedStreams
  import opened StreamClient
  import opened WirePipe
  import opened Retry
  import opened Execution
  import opened TcpExecution
  import opened TcpInvariant
  import opened TcpPoll
  import opened TcpRuns
  import C = Coordinator
  import M = Moments

  function AllAccepted(tablet: Uuid, ps: seq<Payload>): seq<Call> {
    seq(|ps|, i requires 0 <= i < |ps| => Offered(tablet, ps[i], Ok))
  }

  /** Slot `i`'s tablet holds its sender's whole stream, offered once and in order. */
  predicate HoldsWhole(e: Execution.State, log: seq<Call>, i: nat)
    requires i < |e.slots|
  {
    var tablet, result := e.slots[i].Tablet(), e.slots[i].sender.result;
    && result.Some? && CompleteStream(IdentityAt(e, i), result.value)
    && tablet in e.coordinator.fragments
    && e.coordinator.fragments[tablet].messages == CanonicalAll(result.value)
    && CallsOf(log, tablet) == AllAccepted(tablet, result.value)
  }

  /** All that was read over the connection of slot `i`'s last attempt. */
  function BytesRead(x: Owner, i: nat): Bytes
    requires i < |x.execution.slots|
  {
    Concat(ReadOver(x.history.wire, i, x.execution.slots[i].sender.attempts))
  }

  /** Slot `i`'s stream is exactly what those bytes parse to, and they are its one encoding. */
  ghost predicate IsParsed(x: Owner, i: nat)
    requires i < |x.execution.slots|
  {
    ResponseFormatBounded(x.config.crc);
    var id, result := IdentityAt(x.execution, i), x.execution.slots[i].sender.result;
    var p := Parse(ResponseFormat(x.config.crc), BytesRead(x, i));
    && result.Some? && Judge(id, p.frames) == Delivered(result.value)
    && p.tail == Pending([]) && Sendable(x.config.crc, p.frames)
    && BytesRead(x, i) == Concat(Frames(x.config.crc, p.frames))
  }

  /** Slot `i` had succeeded before the owner was given the execution, and was left as it was. */
  predicate SucceededBefore(x: Owner, i: nat)
    requires i < |x.execution.slots|
  {
    i < |x.history.handed.slots| && x.history.handed.slots[i].sender == x.execution.slots[i].sender
  }

  lemma ReadWholeIsParsed(x: Owner, i: nat)
    requires i < |x.execution.slots| && x.execution.slots[i].sender.result.Some?
    requires ReadWhole(x.config, x.execution, x.history.wire, i)
    ensures IsParsed(x, i)
  {
    var id, chunks := IdentityAt(x.execution, i), ReadOver(x.history.wire, i, x.execution.slots[i].sender.attempts);
    var p := Completed(x.config.crc, id, x.config.maxFrames, chunks);
    ClientCompletesOnExactBytes(x.config.crc, id, x.config.maxFrames, chunks, p.frames);
  }

  lemma CompleteCalls(tablet: Uuid, ps: seq<Payload>, calls: seq<Call>)
    requires OfferedInOrder(tablet, ps, calls, true)
    ensures calls == AllAccepted(tablet, ps)
  {
  }

  /** Once the coordinator finishes, every slot's stream is the one it retains. */
  lemma FinishedSlot(e: Execution.State, log: seq<Call>, i: nat)
    requires Good(e, log) && i < |e.slots| && e.slots[i].sender.phase == Succeeded
    requires e.coordinator.failure == Ok
    ensures HoldsWhole(e, log, i)
  {
    var slot := e.slots[i];
    assert Agrees(e.source, slot, e.coordinator);
    assert Story(slot, CallsOf(log, slot.Tablet()));
    CompleteCalls(slot.Tablet(), slot.sender.result.value, CallsOf(log, slot.Tablet()));
  }

  lemma FinishedMeansNoFailure(e: Execution.State, log: seq<Call>)
    requires Good(e, log)
    ensures forall i :: 0 <= i < |e.coordinator.order| ==> e.coordinator.order[i] in e.coordinator.fragments
    ensures C.Finish(e.coordinator).Success? ==>
      e.coordinator.failure == Ok && C.Totals(e.coordinator, e.coordinator.order, C.Finish(e.coordinator).value)
  {
    C.FinishConservesRows(e.coordinator);
  }

  /** Slot `i` was answered as a whole: before the hand-over, or over the one connection of its last attempt. */
  ghost predicate Answered(x: Owner, i: nat)
    requires i < |x.execution.slots|
  {
    HoldsWhole(x.execution, x.history.log, i) && (SucceededBefore(x, i) || IsParsed(x, i))
  }

  lemma CompleteTablet(x: Owner, i: nat)
    requires Valid(x) && x.status == AllComplete && i < |x.execution.slots|
    ensures Answered(x, i)
  {
    FinishedMeansNoFailure(x.execution, x.history.log);
    FinishedSlot(x.execution, x.history.log, i);
    assert SourcedAt(x, i);
    if !SucceededBefore(x, i) {
      ReadWholeIsParsed(x, i);
    }
  }

  /** If `y` is complete, tablet `i` of the query `origin` asked was answered as a whole. */
  ghost predicate AnsweredWhole(origin: Snapshot, y: Owner, i: nat)
    requires i < |origin.dispatches|
  {
    y.status == AllComplete ==>
      && i < |y.execution.slots| && SameLogicalFragment(origin.dispatches[i], y.execution.slots[i].dispatch)
      && Answered(y, i)
  }

  lemma CompleteIsWhole(y: Owner, i: nat)
    requires Alive(y) && i < |y.history.origin.dispatches|
    ensures AnsweredWhole(y.history.origin, y, i)
  {
    if y.status == AllComplete {
      assert SameLogicalFragment(y.history.origin.dispatches[i], y.snapshot.dispatches[i]);
      CompleteTablet(y, i);
    }
  }

  /**
   All or nothing. However a new owner is polled, cancelled and rebound, and whatever the network does:
   if it completes, then every tablet of the query it was created for contributed exactly one complete
   stream, offered to the coordinator once and in order. Unless the tablet had succeeded before the
   hand-over, that stream is what the bytes read over the connection of its last attempt parse to,
   with none left over and none from any other attempt.
   */
  lemma CompletedLifeIsWhole(config: Config, h: Handover, steps: seq<Step>, i: nat)
    requires Creatable(config, h.snapshot) && Handed(h) && Fair(steps) && i < |h.snapshot.dispatches|
    ensures Runnable(NewState(config, h))
    ensures AnsweredWhole(h.snapshot, Life(NewState(config, h), steps), i)
  {
    NewAlive(config, h);
    LifeKeepsAlive(NewState(config, h), steps);
    CompleteIsWhole(Life(NewState(config, h), steps), i);
  }

  predicate NoneSucceeded(e: Execution.State) {
    forall i :: 0 <= i < |e.slots| ==> e.slots[i].sender.phase != Succeeded
  }

  /** An owner lives on the execution it started with or on one it was rebound to, and on no other. */
  lemma AdvanceKeepsHanded(x: Owner, step: Step)
    requires Alive(x) && Runnable(x) && Sane(step) && NoneSucceeded(x.history.handed)
    requires step.Replaced? ==> NoneSucceeded(step.replacement.handover.execution)
    ensures NoneSucceeded(Advance(x, step).history.handed)
  {
    if step.Polled? {
      PollKeepsValid(x, step.poll);
    }
  }

  lemma {:induction false} LifeKeepsHanded(x: Owner, steps: seq<Step>)
    requires Alive(x) && Runnable(x) && Fair(steps) && NoneSucceeded(x.history.handed)
    requires forall k :: 0 <= k < |steps| && steps[k].Replaced? ==> NoneSucceeded(steps[k].replacement.handover.execution)
    ensures NoneSucceeded(Life(x, steps).history.handed)
  {
    if steps == [] {
    } else {
      var init, last := steps[..|steps| - 1], steps[|steps| - 1];
      LifeKeepsHanded(x, init);
      LifeKeepsAlive(x, init);
      AdvanceKeepsHanded(Life(x, init), last);
    }
  }

  /** If nothing had succeeded at any hand-over, every tablet of a completed life was read off the wire. */
  lemma CompletedLifeIsRead(config: Config, h: Handover, steps: seq<Step>, i: nat)
    requires Creatable(config, h.snapshot) && Handed(h) && Fair(steps) && i < |h.snapshot.dispatches|
    requires NoneSucceeded(h.execution)
    requires forall k :: 0 <= k < |steps| && steps[k].Replaced? ==> NoneSucceeded(steps[k].replacement.handover.execution)
    ensures Runnable(NewState(config, h))
    ensures
      var y := Life(NewState(config, h), steps);
      y.status == AllComplete ==> i < |y.execution.slots| && IsParsed(y, i)
  {
    NewAlive(config, h);
    var x := NewState(config, h);
    LifeKeepsHanded(x, steps);
    LifeKeepsAlive(x, steps);
    var y := Life(x, steps);
    if y.status == AllComplete {
      CompleteTablet(y, i);
    }
  }

  /**
   If `y` is complete, its result counts for `key` exactly the rows of the retained streams of all tablets
   and holds what their partials come to.
   */
  predicate CountsAllRows(y: Owner, key: C.Key) {
    y.status == AllComplete ==>
      var c := y.execution.coordinator;
      && y.result.Some? && (forall i :: 0 <= i < |c.order| ==> c.order[i] in c.fragments)
      && (key in y.result.value <==> C.MentionedBy(c, c.order, key))
      && (key in y.result.value ==>
            && y.result.value[key].count == C.TotalRows(c, c.order, key)
            && y.result.value[key] == M.Whole(c.floats, C.Pieces(c, c.order, key)))
  }

  lemma CompletedLifeConservesRows(x: Owner, steps: seq<Step>, key: C.Key)
    requires Alive(x) && Runnable(x) && Fair(steps)
    ensures CountsAllRows(Life(x, steps), key)
  {
    var y := Life(x, steps);
    LifeKeepsAlive(x, steps);
    if y.status == AllComplete {
      CompleteKey(y, key);
    }
  }

  lemma CompleteKey(y: Owner, key: C.Key)
    requires Alive(y) && y.status == AllComplete
    ensures CountsAllRows(y, key)
  {
    var c := y.execution.coordinator;
    C.FinishedKey(c, y.result.value, key);
  }

  /** Canonical keys count the same rows and hold the same partials, so retained streams hold what arrived. */
  lemma {:induction false} CanonicalRows(ps: seq<Payload>, key: C.Key)
    ensures C.RowsOf(CanonicalAll(ps), key) == C.RowsOf(ps, key)
    ensures C.Partials(CanonicalAll(ps), key) == C.Partials(ps, key)
  {
    if ps != [] {
      var init := ps[..|ps| - 1];
      assert CanonicalAll(ps)[..|ps| - 1] == CanonicalAll(init);
      CanonicalRows(init, key);
    }
  }

  /**
   The books of an owner: the active counter counts the slots that hold a client; every started attempt
   is one of those, completed, failed or abandoned; retries are the attempts beyond each slot's first;
   and the attempt and rebinding budgets hold over all bindings.
   */
  predicate Accounted(y: Owner) {
    && y.metrics.active == Flying(y.clients)
    && y.metrics.started == y.metrics.active + y.metrics.completed + y.metrics.failed + y.history.abandoned
    && Tallied(y)
    && y.metrics.started <= (y.metrics.rebindings + 1) * (|y.history.origin.dispatches| * 1024)
    && y.metrics.rebindings <= y.config.maxRebindings <= MAXIMUM_REBINDINGS
  }

  lemma AliveIsAccounted(y: Owner)
    requires Alive(y)
    ensures Accounted(y)
  {
    StartedWithinBudget(y);
  }

  /**
   No attempt leaves the books: after every life `started` is the sum of the attempts in flight,
   completed, failed and abandoned, where `abandoned` was raised only by an ending, by the clients it
   dropped, and by a connection refused for good, by one.
   */
  lemma AttemptsAreAccountedFor(x: Owner, steps: seq<Step>)
    requires Alive(x) && Runnable(x) && Fair(steps)
    ensures Accounted(Life(x, steps)) && Descends(x, Life(x, steps))
  {
    LifeKeepsAlive(x, steps);
    AliveIsAccounted(Life(x, steps));
  }
}
