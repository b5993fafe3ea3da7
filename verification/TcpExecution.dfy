/** The poll owner of a grouped execution: clients per slot, metrics, deadlines, rebinding. */
module TcpExecution {
  import opened Common
  import Layout
  import opened ResponseFrames
  import opened GroupedStreams
  import opened WirePipe
  import opened Retry
  import opened Execution
  import opened Sums
  import C = Coordinator

  const MAXIMUM_REBINDINGS := 1024

  /**
   `wellFormed` stands for the limits and collaborators that only `create` looks at, `routes` for the
   routed nodes; `crc` is the checksum of every frame and `maxFrames` the carrier's response limit.
   */
  datatype Config = Config(
    wellFormed: bool, routes: set<NodeId>, deadline: Option<Time>, maxRebindings: nat, crc: Layout.Checksum, maxFrames: nat)

  datatype Metrics = Metrics(started: nat, retries: nat, completed: nat, failed: nat, rebindings: nat, active: int)

  datatype Status = Running | AllComplete | HasFailed | WasCancelled

  /** The client of one attempt, as far as it has read. */
  datatype Connection = Connection(attempt: nat, chunks: seq<Bytes>)

  /** Bytes that a socket gave to slot `slot` while its sender was on attempt `attempt`. */
  datatype Receipt = Receipt(slot: nat, attempt: nat, bytes: Bytes)

  /** An execution as it is handed to an owner, with what its coordinator has been told so far. */
  datatype Handover = Handover(snapshot: Snapshot, execution: Execution.State, log: seq<Call>)

  /**
   What a run leaves behind that the object itself forgets: the query it was created for, the execution
   as handed over, the coordinator's log, every byte received since, the attempts whose client was
   dropped or never opened, and the counters at the hand-over.
   */
  datatype History = History(
    origin: Snapshot, handed: Execution.State, log: seq<Call>, wire: seq<Receipt>, abandoned: nat,
    startedBefore: nat, firstsBefore: int)

  datatype State = Owner(
    config: Config, snapshot: Snapshot, execution: Execution.State, clients: seq<Option<Connection>>,
    metrics: Metrics, status: Status, failure: StatusCode, result: Option<C.Groups>, history: History)

  /** What the world does during one poll. */
  datatype Connect = Connected | Refused(code: FailureCode)

  /** What driving one client comes to; a read that yields nothing counts as an unavailable peer. */
  datatype Drive =
    | HungUp
    | Progress
    | Broke(code: FailureCode)
    | Received(bytes: Bytes)

  datatype Poll = Poll(now: Time, connects: nat -> Connect, pollFails: bool, later: Time, drives: nat -> Drive)

  predicate RetryableClient(code: StatusCode) {
    code == Unavailable || code == IoError
  }

  function Holding(client: Option<Connection>): nat {
    One(client.Some?)
  }

  /** How many slots hold a client. */
  function Flying(clients: seq<Option<Connection>>): nat {
    Total(clients, Holding)
  }

  // ---- Creation ----

  predicate Creatable(config: Config, snapshot: Snapshot) {
    && config.wellFormed && config.maxRebindings <= MAXIMUM_REBINDINGS
    && forall i :: 0 <= i < |snapshot.dispatches| ==> snapshot.dispatches[i].servingNode in config.routes
  }

  function Idled(n: nat): seq<Option<Connection>> {
    seq(n, _ => None)
  }

  function NewState(config: Config, h: Handover): State {
    Owner(config, h.snapshot, h.execution, Idled(|h.execution.slots|), Metrics(0, 0, 0, 0, 0, 0), Running, Internal, None,
          History(h.snapshot, h.execution, h.log, [], 0, 0, 0))
  }

  // ---- Ending ----

  function Stop(x: State, status: Status, code: StatusCode): State {
    x.(clients := Idled(|x.clients|), metrics := x.metrics.(active := 0), failure := code, status := status,
       history := x.history.(abandoned := x.history.abandoned + Flying(x.clients)))
  }

  function Fail(x: State, code: StatusCode): State {
    if x.status == Running then Stop(x, HasFailed, code) else x
  }

  function Cancel(x: State): State {
    if x.status == Running then Stop(x, WasCancelled, Cancelled) else x
  }

  /** What a call reports once it has left the object in this state. */
  function Report(x: State): StatusCode {
    if x.status == HasFailed || x.status == WasCancelled then x.failure else Ok
  }

  // ---- One slot at a time ----

  /** What the operations below need to run at all. */
  predicate Runnable(x: State) {
    && |x.clients| == |x.execution.slots|
    && forall i :: 0 <= i < |x.execution.slots| ==> Retry.Sound(x.execution.slots[i].sender)
  }

  function Recorded(x: State, out: Outcome): State {
    x.(execution := out.state, history := x.history.(log := x.history.log + out.calls))
  }

  /** Whether a slot without a client is due to start at `now`. */
  predicate Due(sender: Sender<seq<Payload>>, now: Time)
    requires Retry.Sound(sender)
  {
    sender.phase == Phase.Ready || (sender.phase == Backoff && sender.notBefore.value != TIME_MAX && sender.notBefore.value <= now)
  }

  /** The attempt that was just begun, before its client is known. */
  function Counted(x: State, begun: (Result<nat>, Execution.State)): State {
    x.(execution := begun.1,
       metrics := x.metrics.(started := x.metrics.started + 1,
                             retries := x.metrics.retries + One(begun.0.Success? && begun.0.value > 1)))
  }

  /** Begins an attempt on a due slot and opens its client, or learns that none can be opened. */
  function LaunchSlot(x: State, i: nat, now: Time, connect: Connect): (StatusCode, State)
    requires i < |x.clients| == |x.execution.slots| && Retry.Sound(x.execution.slots[i].sender)
  {
    var begun := BeginSlot(x.execution, i, now);
    BeginStaysLive(x.execution.slots[i].sender, now);
    if begun.0.Failure? then (begun.0.code, x) else Attached(Counted(x, begun), i, begun.0.value, now, connect)
  }

  /** The client of an attempt that was just begun, or what follows from not getting one. */
  function Attached(x: State, i: nat, attempt: nat, now: Time, connect: Connect): (StatusCode, State)
    requires i < |x.clients| == |x.execution.slots| && Retry.Sound(x.execution.slots[i].sender)
  {
    match connect
    case Connected => (Ok, Opened(x, i, attempt))
    case Refused(code) =>
      if !RetryableClient(code) then (code, Forsaken(x)) else LostClient(x, FailSlot(x.execution, i, code, now))
  }

  function Opened(x: State, i: nat, attempt: nat): State
    requires i < |x.clients|
  {
    x.(clients := x.clients[i := Some(Connection(attempt, []))], metrics := x.metrics.(active := x.metrics.active + 1))
  }

  /** A begun attempt for which no client was opened and that nobody will conclude. */
  function Forsaken(x: State): State {
    x.(history := x.history.(abandoned := x.history.abandoned + 1))
  }

  function LostClient(x: State, out: Outcome): (StatusCode, State) {
    (out.answer, Recorded(x.(metrics := x.metrics.(failed := x.metrics.failed + 1)), out))
  }

  function StartSlot(x: State, i: nat, now: Time, connect: Connect): (StatusCode, State)
    requires i < |x.clients| == |x.execution.slots| && Retry.Sound(x.execution.slots[i].sender)
  {
    if x.clients[i].Some? || !Due(x.execution.slots[i].sender, now) then (Ok, x) else LaunchSlot(x, i, now, connect)
  }

  function Released(x: State, i: nat): State
    requires i < |x.clients|
  {
    x.(clients := x.clients[i := None], metrics := x.metrics.(active := x.metrics.active - 1))
  }

  function LoseSlot(x: State, i: nat, code: StatusCode, later: Time): (StatusCode, State)
    requires i < |x.clients| == |x.execution.slots| && Retry.Sound(x.execution.slots[i].sender)
  {
    LostClient(Released(x, i), FailSlot(x.execution, i, code, later))
  }

  /** A client failure: a retryable one costs the attempt, any other the whole execution. */
  function BreakSlot(x: State, i: nat, code: StatusCode, later: Time): (StatusCode, State)
    requires i < |x.clients| == |x.execution.slots| && Retry.Sound(x.execution.slots[i].sender)
  {
    if RetryableClient(code) then LoseSlot(x, i, code, later) else (code, x)
  }

  function FinishSlot(x: State, i: nat, rs: seq<Response>, later: Time): (StatusCode, State)
    requires i < |x.clients| == |x.execution.slots| && Retry.Sound(x.execution.slots[i].sender)
  {
    var out := RespondSlot(x.execution, i, rs, later);
    (out.answer, Arrived(x, i, out))
  }

  function Arrived(x: State, i: nat, out: Outcome): State
    requires i < |x.clients|
  {
    var y := Released(x, i);
    Recorded(y.(metrics := y.metrics.(completed := y.metrics.completed + 1)), out)
  }

  /** One more read, kept by the client and noted under the attempt its sender is on. */
  function Noted(x: State, i: nat, bytes: Bytes): State
    requires i < |x.clients| == |x.execution.slots| && x.clients[i].Some?
  {
    var c := x.clients[i].value;
    x.(clients := x.clients[i := Some(c.(chunks := c.chunks + [bytes]))],
       history := x.history.(wire := x.history.wire + [Receipt(i, x.execution.slots[i].sender.attempts, bytes)]))
  }

  /** What the client of slot `i` makes of these reads. */
  function Heard(x: State, i: nat, chunks: seq<Bytes>): ClientState
    requires i < |x.execution.slots|
  {
    ReceiveAll(x.config.crc, IdentityAt(x.execution, i), x.config.maxFrames, chunks).0
  }

  /** What follows from the state a client is in after a read. */
  function Settled(x: State, i: nat, heard: ClientState, later: Time): (StatusCode, State)
    requires i < |x.clients| == |x.execution.slots| && Retry.Sound(x.execution.slots[i].sender)
  {
    match heard
    case Reading(_) => (Ok, x)
    case Failed(code) => BreakSlot(x, i, code, later)
    case Complete(rs) => FinishSlot(x, i, rs, later)
  }

  function ReadSlot(x: State, i: nat, bytes: Bytes, later: Time): (StatusCode, State)
    requires i < |x.clients| == |x.execution.slots| && Retry.Sound(x.execution.slots[i].sender) && x.clients[i].Some?
  {
    if bytes == [] then LoseSlot(x, i, Unavailable, later)
    else
      var y := Noted(x, i, bytes);
      Settled(y, i, Heard(y, i, y.clients[i].value.chunks), later)
  }

  function DriveSlot(x: State, i: nat, later: Time, drive: Drive): (StatusCode, State)
    requires i < |x.clients| == |x.execution.slots| && Retry.Sound(x.execution.slots[i].sender)
  {
    if x.clients[i].None? then (Ok, x)
    else match drive
      case HungUp => LoseSlot(x, i, IoError, later)
      case Progress => (Ok, x)
      case Broke(code) => BreakSlot(x, i, code, later)
      case Received(bytes) => ReadSlot(x, i, bytes, later)
  }

  // ---- Publishing ----

  function PublishIfTerminal(x: State): State {
    var slots, finished := x.execution.slots, C.Finish(x.execution.coordinator);
    if exists i :: 0 <= i < |slots| && slots[i].sender.phase == Exhausted then
      Fail(x, if finished.Success? then Internal else finished.code)
    else if exists i :: 0 <= i < |slots| && slots[i].sender.phase != Succeeded then x
    else match finished
      case Failure(code) => Fail(x, code)
      case Success(groups) => x.(result := Some(groups), status := AllComplete)
  }

  // ---- Steps touch one slot ----

  /** Only slot `i` may have changed, and its sender is as reachable as before. */
  ghost predicate OnlyHere(x: State, y: State, i: nat)
    requires i < |x.clients| == |x.execution.slots|
  {
    && SlotOnly(x.execution, y.execution, i) && Retry.Sound(y.execution.slots[i].sender)
    && |y.clients| == |x.clients| && y.clients == x.clients[i := y.clients[i]]
    && y.status == x.status && y.config == x.config && y.metrics.rebindings == x.metrics.rebindings
  }

  lemma OnlyHereRunnable(x: State, y: State, i: nat)
    requires Runnable(x) && i < |x.clients| && OnlyHere(x, y, i)
    ensures Runnable(y)
  {
  }

  lemma FailSlotSound(e: Execution.State, i: nat, code: StatusCode, now: Time)
    requires i < |e.slots| && Retry.Sound(e.slots[i].sender)
    ensures
      var out := FailSlot(e, i, code, now);
      SlotOnly(e, out.state, i) && Retry.Sound(out.state.slots[i].sender)
  {
    ApplyKeepsSound(e.slots[i].sender, FailAt(code, now));
    SettleShape(e, i, TransportFailed(e.slots[i].sender, code, now));
  }

  lemma RespondSlotSound(e: Execution.State, i: nat, rs: seq<Response>, now: Time)
    requires i < |e.slots| && Retry.Sound(e.slots[i].sender)
    ensures
      var out := RespondSlot(e, i, rs, now);
      SlotOnly(e, out.state, i) && Retry.Sound(out.state.slots[i].sender)
  {
    ApplyKeepsSound(e.slots[i].sender, ResolveAt(Judge(IdentityAt(e, i), rs), now));
    SettleShape(e, i, Resolve(e.slots[i].sender, Judge(IdentityAt(e, i), rs), now));
  }

  lemma StartsHere(x: State, i: nat, now: Time, connect: Connect)
    requires i < |x.clients| == |x.execution.slots| && Retry.Sound(x.execution.slots[i].sender)
    ensures OnlyHere(x, StartSlot(x, i, now, connect).1, i)
  {
    BeginStaysLive(x.execution.slots[i].sender, now);
    var begun := BeginSlot(x.execution, i, now);
    if begun.0.Success? {
      AttachesHere(Counted(x, begun), i, begun.0.value, now, connect);
    }
  }

  lemma AttachesHere(x: State, i: nat, attempt: nat, now: Time, connect: Connect)
    requires i < |x.clients| == |x.execution.slots| && Retry.Sound(x.execution.slots[i].sender)
    ensures OnlyHere(x, Attached(x, i, attempt, now, connect).1, i)
  {
    if connect.Refused? {
      FailSlotSound(x.execution, i, connect.code, now);
    }
  }

  lemma SettlesHere(x: State, i: nat, heard: ClientState, later: Time)
    requires i < |x.clients| == |x.execution.slots| && Retry.Sound(x.execution.slots[i].sender)
    ensures OnlyHere(x, Settled(x, i, heard, later).1, i)
  {
    match heard
    case Reading(_) =>
    case Failed(code) => FailSlotSound(x.execution, i, code, later);
    case Complete(rs) => RespondSlotSound(x.execution, i, rs, later);
  }

  lemma DrivesHere(x: State, i: nat, later: Time, drive: Drive)
    requires i < |x.clients| == |x.execution.slots| && Retry.Sound(x.execution.slots[i].sender)
    ensures OnlyHere(x, DriveSlot(x, i, later, drive).1, i)
  {
    if x.clients[i].Some? {
      match drive
      case HungUp => FailSlotSound(x.execution, i, IoError, later);
      case Progress =>
      case Broke(code) => FailSlotSound(x.execution, i, code, later);
      case Received(bytes) => ReadsHere(x, i, bytes, later);
    }
  }

  lemma ReadsHere(x: State, i: nat, bytes: Bytes, later: Time)
    requires i < |x.clients| == |x.execution.slots| && Retry.Sound(x.execution.slots[i].sender) && x.clients[i].Some?
    ensures OnlyHere(x, ReadSlot(x, i, bytes, later).1, i)
  {
    FailSlotSound(x.execution, i, Unavailable, later);
    var y := Noted(x, i, bytes);
    SettlesHere(y, i, Heard(y, i, y.clients[i].value.chunks), later);
  }

  // ---- The poll ----

  /** Starts every due attempt from slot `i` on, up to the first error. */
  function StartAll(x: State, now: Time, connects: nat -> Connect, i: nat): (r: (StatusCode, State))
    requires Runnable(x) && i <= |x.clients|
    ensures Runnable(r.1) && |r.1.clients| == |x.clients|
    ensures r.1.status == x.status && r.1.config == x.config && r.1.metrics.rebindings == x.metrics.rebindings
    decreases |x.clients| - i
  {
    if i == |x.clients| then (Ok, x)
    else
      StartsHere(x, i, now, connects(i));
      var step := StartSlot(x, i, now, connects(i));
      OnlyHereRunnable(x, step.1, i);
      if step.0 != Ok then step else StartAll(step.1, now, connects, i + 1)
  }

  /** Drives every slot that holds a client from slot `i` on, up to the first error. */
  function DriveAll(x: State, later: Time, drives: nat -> Drive, i: nat): (r: (StatusCode, State))
    requires Runnable(x) && i <= |x.clients|
    ensures Runnable(r.1) && |r.1.clients| == |x.clients|
    ensures r.1.status == x.status && r.1.config == x.config && r.1.metrics.rebindings == x.metrics.rebindings
    decreases |x.clients| - i
  {
    if i == |x.clients| then (Ok, x)
    else
      DrivesHere(x, i, later, drives(i));
      var step := DriveSlot(x, i, later, drives(i));
      OnlyHereRunnable(x, step.1, i);
      if step.0 != Ok then step else DriveAll(step.1, later, drives, i + 1)
  }

  predicate Expired(config: Config, now: Time) {
    config.deadline.Some? && config.deadline.value <= now
  }

  /** A step that went wrong fails the owner; one that went well may have made it terminal. */
  function Conclude(step: (StatusCode, State)): State {
    if step.0 != Ok then Fail(step.1, step.0) else PublishIfTerminal(step.1)
  }

  /** Once the attempts are started and nothing is terminal: wait, then drive whatever is ready. */
  function WaitAndDrive(x: State, p: Poll): State
    requires Runnable(x)
  {
    if p.pollFails then Fail(x, IoError)
    else if Expired(x.config, p.later) then Cancel(x)
    else Conclude(DriveAll(x, p.later, p.drives, 0))
  }

  function PollOnce(x: State, p: Poll): State
    requires Runnable(x)
  {
    if x.status != Running then x
    else if Expired(x.config, p.now) then Cancel(x)
    else
      var y := Conclude(StartAll(x, p.now, p.connects, 0));
      if y.status == Running then WaitAndDrive(y, p) else y
  }

  /** Publishing and ending leave the execution and the number of clients alone. */
  lemma ConcludeKeeps(step: (StatusCode, State))
    ensures
      var y := Conclude(step);
      && y.execution == step.1.execution && |y.clients| == |step.1.clients|
      && (y.clients == step.1.clients || y.clients == Idled(|step.1.clients|))
      && (y.status == AllComplete && step.1.status == Running ==>
            forall i :: 0 <= i < |y.execution.slots| ==> y.execution.slots[i].sender.phase == Succeeded)
  {
  }

  lemma WaitStaysRunnable(x: State, p: Poll)
    requires Runnable(x)
    ensures Runnable(WaitAndDrive(x, p))
  {
    ConcludeKeeps(DriveAll(x, p.later, p.drives, 0));
  }

  lemma PollStaysRunnable(x: State, p: Poll)
    requires Runnable(x)
    ensures Runnable(PollOnce(x, p))
  {
    var step := StartAll(x, p.now, p.connects, 0);
    ConcludeKeeps(step);
    WaitStaysRunnable(Conclude(step), p);
  }
}
