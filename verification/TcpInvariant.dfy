/** What every slot step of the poll owner keeps: the ledger of attempts, and slots coupled to their senders. */
module TcpInvariant {
  import opened Common
  import opened ResponseFrames
  import opened GroupedStreams
  import opened WirePipe
  import opened Retry
  import opened Execution
  import opened TcpExecution
  import opened Sums

  type Owner = TcpExecution.State

  function Senders(slots: seq<Slot>): seq<Sender<seq<Payload>>> {
    seq(|slots|, i requires 0 <= i < |slots| => slots[i].sender)
  }

  /** The reads noted for one attempt of one slot, in order. */
  function ReadOver(wire: seq<Receipt>, i: nat, attempt: nat): seq<Bytes> {
    if wire == [] then []
    else
      var before, last := ReadOver(wire[..|wire| - 1], i, attempt), wire[|wire| - 1];
      if last.slot == i && last.attempt == attempt then before + [last.bytes] else before
  }

  lemma ReadOverLast(wire: seq<Receipt>, i: nat, attempt: nat, bytes: Bytes)
    ensures ReadOver(wire + [Receipt(i, attempt, bytes)], i, attempt) == ReadOver(wire, i, attempt) + [bytes]
  {
    assert (wire + [Receipt(i, attempt, bytes)])[..|wire|] == wire;
  }

  /** Reads of other slots or attempts do not count. */
  lemma {:induction false} ReadOverSkips(wire: seq<Receipt>, from: nat, i: nat, attempt: nat)
    requires from <= |wire| && forall k :: from <= k < |wire| ==> wire[k].slot != i || wire[k].attempt != attempt
    ensures ReadOver(wire, i, attempt) == ReadOver(wire[..from], i, attempt)
    decreases |wire|
  {
    if from == |wire| {
      assert wire[..from] == wire;
    } else {
      var init := wire[..|wire| - 1];
      ReadOverSkips(init, from, i, attempt);
      assert init[..from] == wire[..from];
    }
  }

  /** Slot `i`'s result was read whole over the connection of its last attempt, and over nothing else. */
  predicate ReadWhole(config: Config, e: Execution.State, wire: seq<Receipt>, i: nat)
    requires i < |e.slots| && e.slots[i].sender.result.Some?
  {
    var id, s := IdentityAt(e, i), e.slots[i].sender;
    var chunks := ReadOver(wire, i, s.attempts);
    var heard := ReceiveAll(config.crc, id, config.maxFrames, chunks).0;
    && ReadToTheEnd(config.crc, id, config.maxFrames, chunks)
    && heard.Complete? && Judge(id, heard.responses) == Delivered(s.result.value)
  }

  /** A succeeded slot was handed over as such, or owes its result to the bytes of its last attempt. */
  predicate SourcedAt(x: Owner, i: nat)
    requires i < |x.execution.slots|
  {
    x.execution.slots[i].sender.phase == Succeeded ==>
      && x.execution.slots[i].sender.result.Some?
      && (|| (i < |x.history.handed.slots| && x.history.handed.slots[i].sender == x.execution.slots[i].sender)
          || ReadWhole(x.config, x.execution, x.history.wire, i))
  }

  /** No read is noted under an attempt that was not begun. */
  predicate Tidy(e: Execution.State, wire: seq<Receipt>) {
    forall k :: 0 <= k < |wire| ==>
      wire[k].slot < |e.slots| && wire[k].attempt <= e.slots[wire[k].slot].sender.attempts
  }

  /** Every started attempt is in flight, completed, failed or abandoned, and each is counted once. */
  predicate Conserved(x: Owner) {
    && x.metrics.active == Flying(x.clients)
    && x.metrics.started == x.metrics.active + x.metrics.completed + x.metrics.failed + x.history.abandoned
  }

  /** The counters of started and retried attempts are what the senders went through since the hand-over. */
  predicate Tallied(x: Owner) {
    var now, handed := Senders(x.execution.slots), Senders(x.history.handed.slots);
    && x.metrics.started - x.history.startedBefore == Total(now, Tries) - Total(handed, Tries)
    && x.metrics.started - x.metrics.retries - x.history.firstsBefore == Total(now, FirstTry) - Total(handed, FirstTry)
    && x.metrics.retries <= x.metrics.started
  }

  /** The counters and the origin of every result; true in every status. */
  predicate Ledger(x: Owner) {
    && |x.clients| == |x.execution.slots| == |x.snapshot.dispatches| == |x.history.handed.slots|
    && (forall i :: 0 <= i < |x.execution.slots| ==> x.execution.slots[i].dispatch == x.snapshot.dispatches[i])
    && (forall i :: 0 <= i < |x.execution.slots| ==> SourcedAt(x, i))
    && Tidy(x.execution, x.history.wire) && Conserved(x) && Tallied(x)
  }

  /** A slot holds a client exactly while its sender waits; the client has read what came in for its attempt. */
  predicate CoupledAt(x: Owner, i: nat)
    requires i < |x.clients| == |x.execution.slots|
  {
    var s := x.execution.slots[i].sender;
    && (x.clients[i].Some? <==> s.phase == Waiting)
    && (x.clients[i].Some? ==>
          var c := x.clients[i].value;
          && c.attempt == s.attempts && c.chunks == ReadOver(x.history.wire, i, s.attempts)
          && Heard(x, i, c.chunks).Reading?)
  }

  predicate Coupled(x: Owner)
    requires |x.clients| == |x.execution.slots|
  {
    forall i :: 0 <= i < |x.clients| ==> CoupledAt(x, i)
  }

  /** Counters that never fall. */
  predicate Grows(m: Metrics, n: Metrics) {
    && m.started <= n.started && m.retries <= n.retries && m.completed <= n.completed && m.failed <= n.failed
    && m.rebindings <= n.rebindings
  }

  /** What a slot step may touch. */
  ghost predicate Frame(x: Owner, y: Owner, i: nat)
    requires i < |x.clients| == |x.execution.slots|
  {
    && SlotOnly(x.execution, y.execution, i)
    && |y.clients| == |x.clients| && y.clients == x.clients[i := y.clients[i]]
    && y.config == x.config && y.snapshot == x.snapshot && y.status == x.status && y.failure == x.failure
    && y.result == x.result && y.metrics.rebindings == x.metrics.rebindings && Grows(x.metrics, y.metrics)
    && y.history == x.history.(log := y.history.log, wire := y.history.wire, abandoned := y.history.abandoned)
  }

  /** New reads are noted for slot `i`, under attempts it has begun. */
  predicate Notes(x: Owner, y: Owner, i: nat)
    requires i < |x.execution.slots| == |y.execution.slots|
  {
    var before, after := x.history.wire, y.history.wire;
    && x.execution.slots[i].sender.attempts <= y.execution.slots[i].sender.attempts
    && |before| <= |after| && after[..|before|] == before
    && forall k :: |before| <= k < |after| ==>
         after[k].slot == i && after[k].attempt <= y.execution.slots[i].sender.attempts
  }

  /** How the counters follow the sender and the client of the slot that moved. */
  predicate Follows(x: Owner, y: Owner, i: nat)
    requires i < |x.clients| == |y.clients| && i < |x.execution.slots| == |y.execution.slots|
  {
    var s, t, m, n := x.execution.slots[i].sender, y.execution.slots[i].sender, x.metrics, y.metrics;
    && n.started - m.started == t.attempts - s.attempts
    && (n.started - n.retries) - (m.started - m.retries) == One(t.attempts > 0) - One(s.attempts > 0)
    && n.active - m.active == Holding(y.clients[i]) - Holding(x.clients[i])
    && n.started - m.started ==
       (n.active - m.active) + (n.completed - m.completed) + (n.failed - m.failed) + (y.history.abandoned - x.history.abandoned)
  }

  /** A step of slot `i`; `ok` when the poll goes on after it. */
  ghost predicate Moves(x: Owner, y: Owner, i: nat, ok: bool)
    requires i < |x.clients| == |x.execution.slots|
  {
    && Frame(x, y, i) && Notes(x, y, i) && Follows(x, y, i) && SourcedAt(y, i)
    && (ok ==> CoupledAt(y, i) && y.history.abandoned == x.history.abandoned)
  }

  lemma MovesCompose(x: Owner, y: Owner, z: Owner, i: nat, ok: bool)
    requires i < |x.clients| == |x.execution.slots| && Moves(x, y, i, false) && Moves(y, z, i, ok)
    requires y.history.abandoned == x.history.abandoned
    ensures Moves(x, z, i, ok)
  {
  }

  lemma SendersFollow(xs: seq<Slot>, ys: seq<Slot>, i: nat)
    requires i < |xs| == |ys| && forall j :: 0 <= j < |xs| && j != i ==> ys[j] == xs[j]
    ensures Total(Senders(ys), Tries) - Total(Senders(xs), Tries) == ys[i].sender.attempts - xs[i].sender.attempts
    ensures Total(Senders(ys), FirstTry) - Total(Senders(xs), FirstTry)
         == One(ys[i].sender.attempts > 0) - One(xs[i].sender.attempts > 0)
  {
    TriesFollow(Senders(xs), Senders(ys), i);
  }

  lemma SourcedElsewhere(x: Owner, y: Owner, i: nat, j: nat)
    requires i < |x.execution.slots| == |y.execution.slots| && SlotOnly(x.execution, y.execution, i)
    requires j < |x.execution.slots| && j != i && SourcedAt(x, j) && Notes(x, y, i)
    requires y.config == x.config && y.history.handed == x.history.handed
    ensures SourcedAt(y, j)
  {
    ReadOverSkips(y.history.wire, |x.history.wire|, j, x.execution.slots[j].sender.attempts);
  }

  lemma CoupledElsewhere(x: Owner, y: Owner, i: nat, j: nat)
    requires i < |x.clients| == |x.execution.slots| && SlotOnly(x.execution, y.execution, i) && y.config == x.config
    requires |y.clients| == |x.clients| && y.clients == x.clients[i := y.clients[i]] && Notes(x, y, i)
    requires j < |x.execution.slots| && j != i && CoupledAt(x, j)
    ensures CoupledAt(y, j)
  {
    ReadOverSkips(y.history.wire, |x.history.wire|, j, x.execution.slots[j].sender.attempts);
  }

  lemma MovesKeepsTidy(x: Owner, y: Owner, i: nat)
    requires i < |x.execution.slots| && SlotOnly(x.execution, y.execution, i) && Notes(x, y, i)
    requires Tidy(x.execution, x.history.wire)
    ensures Tidy(y.execution, y.history.wire)
  {
    forall k | 0 <= k < |y.history.wire|
      ensures
        var r := y.history.wire[k];
        r.slot < |y.execution.slots| && r.attempt <= y.execution.slots[r.slot].sender.attempts
    {
      if k < |x.history.wire| {
        assert y.history.wire[k] == x.history.wire[k];
      }
    }
  }

  lemma MovesKeepsCounters(x: Owner, y: Owner, i: nat)
    requires Conserved(x) && Tallied(x) && i < |x.clients| == |x.execution.slots|
    requires Frame(x, y, i) && Notes(x, y, i) && Follows(x, y, i)
    ensures Conserved(y) && Tallied(y)
  {
    SendersFollow(x.execution.slots, y.execution.slots, i);
    TotalFollows(x.clients, y.clients, i, Holding);
  }

  lemma MovesKeepsLedger(x: Owner, y: Owner, i: nat, ok: bool)
    requires Ledger(x) && i < |x.clients| && Moves(x, y, i, ok)
    ensures Ledger(y)
  {
    MovesKeepsCounters(x, y, i);
    MovesKeepsTidy(x, y, i);
    forall j | 0 <= j < |y.execution.slots|
      ensures SourcedAt(y, j) && y.execution.slots[j].dispatch == y.snapshot.dispatches[j]
    {
      if j != i {
        SourcedElsewhere(x, y, i, j);
      }
    }
  }

  lemma MovesKeepsCoupled(x: Owner, y: Owner, i: nat)
    requires |x.clients| == |x.execution.slots| && Coupled(x) && i < |x.clients| && Moves(x, y, i, true)
    ensures Coupled(y)
  {
    forall j | 0 <= j < |y.clients|
      ensures CoupledAt(y, j)
    {
      if j != i {
        CoupledElsewhere(x, y, i, j);
      }
    }
  }

  // ---- The steps ----

  /** A due slot can always begin, so the owner never sees a refused begin. */
  lemma DueBegins(s: Sender<seq<Payload>>, now: Time)
    requires Retry.Sound(s) && Due(s, now)
    ensures
      var (r, t) := Begin(s, now);
      r == Success(s.attempts + 1) && t.attempts == s.attempts + 1 && t.phase == Waiting && Retry.Sound(t)
  {
  }

  lemma StayMoves(x: Owner, i: nat)
    requires i < |x.clients| == |x.execution.slots| && SourcedAt(x, i) && CoupledAt(x, i)
    ensures Moves(x, x, i, true)
  {
  }

  /** An execution step that moved slot `i` from waiting on, with the same attempts. */
  predicate LeadsOut(e: Execution.State, i: nat, out: Outcome)
    requires i < |e.slots|
  {
    && SlotOnly(e, out.state, i)
    && out.state.slots[i].sender.attempts == e.slots[i].sender.attempts > 0
  }

  lemma LostOutMoves(x: Owner, i: nat, out: Outcome)
    requires i < |x.clients| == |x.execution.slots| && x.clients[i].Some? && LeadsOut(x.execution, i, out)
    requires out.state.slots[i].sender.phase == Backoff || out.state.slots[i].sender.phase == Exhausted
    ensures Moves(x, LostClient(Released(x, i), out).1, i, true)
  {
  }

  lemma FinishedOutMoves(x: Owner, i: nat, out: Outcome)
    requires i < |x.clients| == |x.execution.slots| && x.clients[i].Some? && LeadsOut(x.execution, i, out)
    requires out.answer == Ok ==> out.state.slots[i].sender.phase != Waiting
    requires out.state.slots[i].sender.phase == Succeeded ==>
      out.state.slots[i].sender.result.Some? && ReadWhole(x.config, out.state, x.history.wire, i)
    ensures Moves(x, Arrived(x, i, out), i, out.answer == Ok)
  {
  }

  /** A waiting slot whose client has just read `chunks`, all that came in for its attempt. */
  predicate JustRead(x: Owner, i: nat, heard: ClientState)
    requires i < |x.clients| == |x.execution.slots|
  {
    var s := x.execution.slots[i].sender;
    && x.clients[i].Some? && s.phase == Waiting && x.clients[i].value.attempt == s.attempts
    && var chunks := x.clients[i].value.chunks;
    && chunks == ReadOver(x.history.wire, i, s.attempts)
    && ReadToTheEnd(x.config.crc, IdentityAt(x.execution, i), x.config.maxFrames, chunks)
    && heard == Heard(x, i, chunks)
  }

  lemma NotedReads(x: Owner, i: nat, bytes: Bytes)
    requires i < |x.clients| == |x.execution.slots| && CoupledAt(x, i) && x.clients[i].Some?
    ensures var y := Noted(x, i, bytes); JustRead(y, i, Heard(y, i, y.clients[i].value.chunks))
  {
    var y, chunks := Noted(x, i, bytes), x.clients[i].value.chunks;
    ReadOverLast(x.history.wire, i, x.execution.slots[i].sender.attempts, bytes);
    assert (chunks + [bytes])[..|chunks|] == chunks;
  }

  lemma NotedMoves(x: Owner, i: nat, bytes: Bytes)
    requires i < |x.clients| == |x.execution.slots| && x.clients[i].Some? && x.execution.slots[i].sender.phase == Waiting
    ensures Moves(x, Noted(x, i, bytes), i, false)
  {
  }

  /** A waiting sender that takes what its client heard owes its result to the bytes of this attempt. */
  lemma CompletedMoves(x: Owner, i: nat, rs: seq<Response>, later: Time)
    requires i < |x.clients| == |x.execution.slots| && Retry.Sound(x.execution.slots[i].sender)
    requires JustRead(x, i, Complete(rs))
    ensures var (answer, y) := FinishSlot(x, i, rs, later); Moves(x, y, i, answer == Ok)
  {
    RespondSlotShape(x.execution, i, rs, later);
    FinishedOutMoves(x, i, RespondSlot(x.execution, i, rs, later));
  }

  lemma BrokenMoves(x: Owner, i: nat, code: StatusCode, later: Time)
    requires i < |x.clients| == |x.execution.slots| && Retry.Sound(x.execution.slots[i].sender) && code != Ok
    requires x.clients[i].Some? && x.execution.slots[i].sender.phase == Waiting
    ensures var (answer, y) := BreakSlot(x, i, code, later); Moves(x, y, i, answer == Ok)
    ensures BreakSlot(x, i, code, later).1.history.abandoned == x.history.abandoned
  {
    if RetryableClient(code) {
      FailSlotShape(x.execution, i, code, later);
      LostOutMoves(x, i, FailSlot(x.execution, i, code, later));
    }
  }

  lemma SettledMoves(x: Owner, i: nat, heard: ClientState, later: Time)
    requires i < |x.clients| == |x.execution.slots| && Retry.Sound(x.execution.slots[i].sender)
    requires JustRead(x, i, heard)
    ensures var (answer, y) := Settled(x, i, heard, later); Moves(x, y, i, answer == Ok)
    ensures Settled(x, i, heard, later).1.history.abandoned == x.history.abandoned
  {
    match heard
    case Reading(_) => StayMoves(x, i);
    case Failed(code) => BrokenMoves(x, i, code, later);
    case Complete(rs) => CompletedMoves(x, i, rs, later);
  }

  lemma ReadMoves(x: Owner, i: nat, bytes: Bytes, later: Time)
    requires i < |x.clients| == |x.execution.slots| && Retry.Sound(x.execution.slots[i].sender)
    requires CoupledAt(x, i) && x.clients[i].Some?
    ensures var (answer, y) := ReadSlot(x, i, bytes, later); Moves(x, y, i, answer == Ok)
    ensures ReadSlot(x, i, bytes, later).1.history.abandoned == x.history.abandoned
  {
    if bytes == [] {
      BrokenMoves(x, i, Unavailable, later);
    } else {
      var y := Noted(x, i, bytes);
      var heard := Heard(y, i, y.clients[i].value.chunks);
      NotedReads(x, i, bytes);
      NotedMoves(x, i, bytes);
      SettledMoves(y, i, heard, later);
      var (answer, z) := Settled(y, i, heard, later);
      MovesCompose(x, y, z, i, answer == Ok);
    }
  }

  /** Driving a slot keeps the books; it never abandons an attempt. */
  lemma DriveMoves(x: Owner, i: nat, later: Time, drive: Drive)
    requires Ledger(x) && Coupled(x) && i < |x.clients| && Retry.Sound(x.execution.slots[i].sender)
    ensures
      var (answer, y) := DriveSlot(x, i, later, drive);
      Moves(x, y, i, answer == Ok) && y.history.abandoned == x.history.abandoned
  {
    assert CoupledAt(x, i);
    StayMoves(x, i);
    if x.clients[i].Some? {
      match drive
      case HungUp => BrokenMoves(x, i, IoError, later);
      case Progress =>
      case Broke(code) => BrokenMoves(x, i, code, later);
      case Received(bytes) => ReadMoves(x, i, bytes, later);
    }
  }

  /** An attempt just begun on slot `i`. */
  predicate Begun(e: Execution.State, f: Execution.State, i: nat)
    requires i < |e.slots|
  {
    SlotOnly(e, f, i) && f.slots[i].sender.attempts == e.slots[i].sender.attempts + 1 && f.slots[i].sender.phase == Waiting
  }

  /** A new attempt starts with a connection over which nothing has been read. */
  lemma LaunchMoves(x: Owner, i: nat, f: Execution.State)
    requires i < |x.clients| == |x.execution.slots| && x.clients[i].None? && Begun(x.execution, f, i)
    requires Tidy(x.execution, x.history.wire)
    ensures
      var n := x.execution.slots[i].sender.attempts + 1;
      var y := Counted(x, (Success(n), f));
      Moves(x, Forsaken(y), i, false) && Moves(x, Opened(y, i, n), i, true)
  {
    ReadOverSkips(x.history.wire, 0, i, x.execution.slots[i].sender.attempts + 1);
  }

  lemma LaunchLostMoves(x: Owner, i: nat, f: Execution.State, out: Outcome)
    requires i < |x.clients| == |x.execution.slots| && x.clients[i].None? && Begun(x.execution, f, i)
    requires LeadsOut(f, i, out)
    requires out.state.slots[i].sender.phase == Backoff || out.state.slots[i].sender.phase == Exhausted
    ensures Moves(x, LostClient(Counted(x, (Success(x.execution.slots[i].sender.attempts + 1), f)), out).1, i, true)
  {
  }

  lemma LaunchSlotMoves(x: Owner, i: nat, now: Time, connect: Connect)
    requires i < |x.clients| == |x.execution.slots| && x.clients[i].None? && Tidy(x.execution, x.history.wire)
    requires Retry.Sound(x.execution.slots[i].sender) && Due(x.execution.slots[i].sender, now)
    ensures
      var (answer, y) := LaunchSlot(x, i, now, connect);
      && Moves(x, y, i, answer == Ok) && y.execution.slots[i].sender.phase != Phase.Ready
      && y.history.abandoned - x.history.abandoned == One(connect.Refused? && !RetryableClient(connect.code))
  {
    DueBegins(x.execution.slots[i].sender, now);
    AttachedMoves(x, i, BeginSlot(x.execution, i, now).1, now, connect);
  }

  lemma AttachedMoves(x: Owner, i: nat, f: Execution.State, now: Time, connect: Connect)
    requires i < |x.clients| == |x.execution.slots| && x.clients[i].None? && Tidy(x.execution, x.history.wire)
    requires Begun(x.execution, f, i) && Retry.Sound(f.slots[i].sender)
    ensures
      var n := x.execution.slots[i].sender.attempts + 1;
      var (answer, y) := Attached(Counted(x, (Success(n), f)), i, n, now, connect);
      && Moves(x, y, i, answer == Ok) && y.execution.slots[i].sender.phase != Phase.Ready
      && y.history.abandoned - x.history.abandoned == One(connect.Refused? && !RetryableClient(connect.code))
  {
    LaunchMoves(x, i, f);
    if connect.Refused? && RetryableClient(connect.code) {
      FailSlotShape(f, i, connect.code, now);
      LaunchLostMoves(x, i, f, FailSlot(f, i, connect.code, now));
    }
  }

  /** Starting a slot keeps the books; the one attempt it can abandon is one whose connection is refused for good. */
  lemma StartMoves(x: Owner, i: nat, now: Time, connect: Connect)
    requires Ledger(x) && Coupled(x) && i < |x.clients| && Retry.Sound(x.execution.slots[i].sender)
    ensures
      var (answer, y) := StartSlot(x, i, now, connect);
      && Moves(x, y, i, answer == Ok) && y.execution.slots[i].sender.phase != Phase.Ready
      && y.history.abandoned - x.history.abandoned ==
         One(x.clients[i].None? && Due(x.execution.slots[i].sender, now) && connect.Refused? && !RetryableClient(connect.code))
  {
    assert CoupledAt(x, i) && SourcedAt(x, i);
    if x.clients[i].None? && Due(x.execution.slots[i].sender, now) {
      LaunchSlotMoves(x, i, now, connect);
    } else {
      StayMoves(x, i);
    }
  }

  // ---- The execution underneath ----

  /** The execution is sound and the log tells every tablet's story. */
  ghost predicate Good(e: Execution.State, log: seq<Call>) {
    Execution.Sound(e) && Stories(e, log)
  }

  lemma GoodSender(e: Execution.State, log: seq<Call>, i: nat)
    requires Good(e, log) && i < |e.slots|
    ensures Retry.Sound(e.slots[i].sender)
  {
  }

  lemma FailGood(e: Execution.State, log: seq<Call>, i: nat, code: StatusCode, now: Time)
    requires Good(e, log) && i < |e.slots| && Retry.Sound(e.slots[i].sender)
    ensures var out := FailSlot(e, i, code, now); Good(out.state, log + out.calls)
  {
    FailKeepsStories(e, log, i, code, now);
  }

  lemma RespondGood(e: Execution.State, log: seq<Call>, i: nat, rs: seq<Response>, now: Time)
    requires Good(e, log) && i < |e.slots| && Retry.Sound(e.slots[i].sender)
    ensures var out := RespondSlot(e, i, rs, now); Good(out.state, log + out.calls)
  {
    RespondKeepsStories(e, log, i, rs, now);
  }

  lemma BeginGood(e: Execution.State, log: seq<Call>, i: nat, now: Time)
    requires Good(e, log) && i < |e.slots| && Retry.Sound(e.slots[i].sender)
    ensures Good(BeginSlot(e, i, now).1, log)
  {
    BeginKeepsStories(e, log, i, now);
  }

  lemma BreakGood(x: Owner, i: nat, code: StatusCode, later: Time)
    requires i < |x.clients| == |x.execution.slots| && Retry.Sound(x.execution.slots[i].sender)
    requires Good(x.execution, x.history.log)
    ensures var y := BreakSlot(x, i, code, later).1; Good(y.execution, y.history.log)
  {
    FailGood(x.execution, x.history.log, i, code, later);
  }

  lemma SettledGood(x: Owner, i: nat, heard: ClientState, later: Time)
    requires i < |x.clients| == |x.execution.slots| && Retry.Sound(x.execution.slots[i].sender)
    requires Good(x.execution, x.history.log)
    ensures var y := Settled(x, i, heard, later).1; Good(y.execution, y.history.log)
  {
    match heard
    case Reading(_) =>
    case Failed(code) => BreakGood(x, i, code, later);
    case Complete(rs) => RespondGood(x.execution, x.history.log, i, rs, later);
  }

  lemma DriveGood(x: Owner, i: nat, later: Time, drive: Drive)
    requires i < |x.clients| == |x.execution.slots| && Retry.Sound(x.execution.slots[i].sender)
    requires Good(x.execution, x.history.log)
    ensures var y := DriveSlot(x, i, later, drive).1; Good(y.execution, y.history.log)
  {
    if x.clients[i].Some? {
      match drive
      case HungUp => BreakGood(x, i, IoError, later);
      case Progress =>
      case Broke(code) => BreakGood(x, i, code, later);
      case Received(bytes) => ReadGood(x, i, bytes, later);
    }
  }

  lemma ReadGood(x: Owner, i: nat, bytes: Bytes, later: Time)
    requires i < |x.clients| == |x.execution.slots| && Retry.Sound(x.execution.slots[i].sender) && x.clients[i].Some?
    requires Good(x.execution, x.history.log)
    ensures var y := ReadSlot(x, i, bytes, later).1; Good(y.execution, y.history.log)
  {
    if bytes == [] {
      BreakGood(x, i, Unavailable, later);
    } else {
      var y := Noted(x, i, bytes);
      SettledGood(y, i, Heard(y, i, y.clients[i].value.chunks), later);
    }
  }

  lemma StartGood(x: Owner, i: nat, now: Time, connect: Connect)
    requires i < |x.clients| == |x.execution.slots| && Retry.Sound(x.execution.slots[i].sender)
    requires Good(x.execution, x.history.log)
    ensures var y := StartSlot(x, i, now, connect).1; Good(y.execution, y.history.log)
  {
    BeginGood(x.execution, x.history.log, i, now);
    var f := BeginSlot(x.execution, i, now).1;
    GoodSender(f, x.history.log, i);
    if connect.Refused? {
      FailGood(f, x.history.log, i, connect.code, now);
    }
  }
}
