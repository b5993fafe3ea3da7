/** From a worker's messages to the coordinator's groups, through every layer between them. */
module EndToEnd {
  import opened Common
  import opened Layout
  import opened ExchangeFrames
  import opened ResponseFrames
  import opened RequestFrames
  import opened Chunking
  import opened GroupedStreams
  import opened ResponseWriter
  import opened WirePipe
  import opened Receiver
  import opened Retry
  import opened Execution
  import opened TcpExecution
  import opened TcpInvariant
  import opened TcpRuns
  import opened AllOrNothing
  import C = Coordinator

  function AsPayloads(ms: seq<PartialMessage>): seq<Payload> {
    seq(|ms|, i requires 0 <= i < |ms| => Partial(Canonicalize(ms[i])))
  }

  lemma CanonicalTwice(ms: seq<PartialMessage>)
    ensures CanonicalAll(AsPayloads(ms)) == AsPayloads(ms)
  {
  }

  /** Rows of a worker's messages under one group key. */
  function WorkerRows(ms: seq<PartialMessage>, key: C.Key): nat {
    if ms == [] then 0
    else WorkerRows(ms[..|ms| - 1], key)
         + if CanonicalKey(ms[|ms| - 1].groupKey) == key then ms[|ms| - 1].partial.count else 0
  }

  lemma {:induction false} PayloadRows(ms: seq<PartialMessage>, key: C.Key)
    ensures C.RowsOf(AsPayloads(ms), key) == WorkerRows(ms, key)
  {
    if ms != [] {
      var init := ms[..|ms| - 1];
      assert AsPayloads(ms)[..|ms| - 1] == AsPayloads(init);
      PayloadRows(init, key);
    }
  }

  /** What a tablet should retain, said from its worker's result alone. */
  function WorkerPayloads(result: WorkerResult): seq<Payload> {
    match result
    case Messages(ms) => AsPayloads(ms)
    case EmptyResult(t) => [EmptyTerminal(t)]
  }

  function WorkerCount(result: WorkerResult, key: C.Key): nat {
    match result
    case Messages(ms) => WorkerRows(ms, key)
    case EmptyResult(_) => 0
  }

  /** The rows of what a tablet retains are the rows its worker sent. */
  lemma RetainedRows(result: WorkerResult, key: C.Key)
    ensures CanonicalAll(WorkerPayloads(result)) == WorkerPayloads(result)
    ensures C.RowsOf(WorkerPayloads(result), key) == WorkerCount(result, key)
  {
    match result
    case Messages(ms) =>
      CanonicalTwice(ms);
      PayloadRows(ms, key);
    case EmptyResult(t) =>
      assert [EmptyTerminal(t)][..0] == [];
      assert C.RowsOf([EmptyTerminal(t)][..0], key) == 0;
  }

  /** A server that was asked `q` has written `written`, in whatever pieces, of its answer to the worker's result. */
  ghost predicate Wrote(
    crc: Checksum, maxFrames: nat, q: Request, result: Result<WorkerResult>,
    leader: Option<Result<Option<LeaderHint>>>, schedule: seq<nat>, written: Bytes)
  {
    var answer := Answer(maxFrames, q, result, leader);
    && maxFrames <= HARD_MESSAGE_LIMIT && answer.Success? && Sendable(crc, answer.value)
    && var run := WriteAll(ResponseWriter.Fresh(Frames(crc, answer.value)), schedule);
    run.Some? && Concat(run.value.0) == written
  }

  lemma WroteIsPrefix(
    crc: Checksum, maxFrames: nat, q: Request, result: Result<WorkerResult>,
    leader: Option<Result<Option<LeaderHint>>>, schedule: seq<nat>, written: Bytes)
    requires Wrote(crc, maxFrames, q, result, leader, schedule, written)
    ensures written <= Concat(Frames(crc, Answer(maxFrames, q, result, leader).value))
  {
    var frames := Frames(crc, Answer(maxFrames, q, result, leader).value);
    WriteAllConserves(ResponseWriter.Fresh(frames), schedule);
    FreshOwesEverything(frames);
  }

  /** A slot that was read whole off bytes a server wrote holds exactly what its worker said. */
  lemma ReadFromWorker(
    x: Owner, i: nat, maxFrames: nat, q: Request, result: Result<WorkerResult>,
    leader: Option<Result<Option<LeaderHint>>>, schedule: seq<nat>, written: Bytes)
    requires i < |x.execution.slots| && x.execution.slots[i].sender.result.Some?
    requires ReadWhole(x.config, x.execution, x.history.wire, i) && IdentityOf(q) == IdentityAt(x.execution, i)
    requires Wrote(x.config.crc, maxFrames, q, result, leader, schedule, written) && BytesRead(x, i) <= written
    ensures result.Success? && x.execution.slots[i].sender.result.value == WorkerPayloads(result.value)
  {
    var crc, id, rs := x.config.crc, IdentityOf(q), Answer(maxFrames, q, result, leader).value;
    var chunks := ReadOver(x.history.wire, i, x.execution.slots[i].sender.attempts);
    AnswerIsClientStream(maxFrames, q, result, leader, |rs|);
    WroteIsPrefix(crc, maxFrames, q, result, leader, schedule, written);
    CompletedPrefixIsWhole(crc, id, |rs|, x.config.maxFrames, rs, chunks);
    SendableHint(crc, rs[0]);
    AnswerIsJudged(maxFrames, q, result, leader, rs);
  }

  lemma CompleteIsRead(x: Owner, i: nat)
    requires Alive(x) && x.status == AllComplete && i < |x.execution.slots|
    requires i < |x.history.handed.slots| ==> x.history.handed.slots[i].sender.phase != Succeeded
    ensures HoldsWhole(x.execution, x.history.log, i) && ReadWhole(x.config, x.execution, x.history.wire, i)
  {
    CompleteTablet(x, i);
    assert SourcedAt(x, i);
  }

  /**
   From workers to groups, over every life. Suppose an owner completes, and what it read over the
   connection of slot `i`'s last attempt is some of what a server has written, in any pieces, of its
   answer to a worker's result. Then the worker succeeded, everything was written and read, and the
   coordinator retains exactly the worker's messages in canonical form and counts exactly their rows.
   */
  lemma CompletedLifeHoldsWorkerResult(
    x: Owner, steps: seq<Step>, i: nat, maxFrames: nat, q: Request, result: Result<WorkerResult>,
    leader: Option<Result<Option<LeaderHint>>>, schedule: seq<nat>, written: Bytes, key: C.Key)
    requires Alive(x) && Runnable(x) && Fair(steps)
    requires
      var y := Life(x, steps);
      && y.status == AllComplete && i < |y.execution.slots| && IdentityOf(q) == IdentityAt(y.execution, i)
      && (i < |y.history.handed.slots| ==> y.history.handed.slots[i].sender.phase != Succeeded)
      && Wrote(y.config.crc, maxFrames, q, result, leader, schedule, written) && BytesRead(y, i) <= written
    ensures
      var y := Life(x, steps);
      var tablet := y.execution.slots[i].Tablet();
      && result.Success? && tablet in y.execution.coordinator.fragments
      && var messages := y.execution.coordinator.fragments[tablet].messages;
      messages == WorkerPayloads(result.value) && C.RowsOf(messages, key) == WorkerCount(result.value, key)
  {
    var y := Life(x, steps);
    LifeKeepsAlive(x, steps);
    CompleteIsRead(y, i);
    ReadFromWorker(y, i, maxFrames, q, result, leader, schedule, written);
    RetainedRows(result.value, key);
  }
}
