/**
 The poll owner of the mutable execution, where a slot is either remote, driven through a client, or
 local, run in place. Its life is any sequence of its slot steps, publications, cancellations and
 rebindings: every order in which polls can take them is one such sequence.
 */
module MutableOwner {
  import opened Common
  import opened GroupedStreams
  import opened Retry
  import opened Sums
  import opened TcpExecution
  import M = MutableExecution

  datatype Counters = Counters(
    started: nat, retries: nat, completed: nat, failed: nat, localCompleted: nat, localFailed: nat,
    rebindings: nat, active: int)

  /**
   What a rebinding may not change: the deadline, the form of publication, the tablets in order, and in
   `rest`, by value, everything else that is compared (plan, definitions, limits, projection, local worker).
   */
  datatype Authority = Authority(deadline: Option<Time>, sources: bool, tablets: seq<Uuid>, rest: Bytes)

  /**
   `abandoned` counts the attempts whose client was dropped or never opened; the last four are the
   counters of attempts and of first attempts at the hand-over, and what its senders had gone through.
   */
  datatype State<+R> = State(
    authority: Authority, local: seq<bool>, execution: M.State<R>, clients: seq<bool>, counters: Counters, status: Status,
    failure: StatusCode, maxRebindings: nat, abandoned: nat,
    startedBefore: nat, firstsBefore: int, triesAtHand: nat, firstsAtHand: nat)

  /** What a local worker run comes to. */
  datatype LocalRun<+R> = WorkerFailed(code: FailureCode) | WorkerAnswered(verdict: Verdict<seq<R>>)

  datatype RemoteDrive<+R> =
    | HungUp
    | Progress
    | Broke(code: FailureCode)
    | Unreadable(code: FailureCode)
    | Finished(verdict: Verdict<seq<R>>)

  // ---- Slot steps ----

  function Idled(n: nat): seq<bool> {
    seq(n, _ => false)
  }

  function Stopped<R>(x: State<R>, status: Status, code: StatusCode): State<R> {
    x.(clients := Idled(|x.clients|), counters := x.counters.(active := 0), status := status, failure := code,
       abandoned := x.abandoned + Total(x.clients, One))
  }

  /** A step that reports an error fails the owner. */
  function Settled<R>(step: (StatusCode, State<R>)): State<R> {
    if step.0 == Ok then step.1 else Stopped(step.1, HasFailed, step.0)
  }

  predicate DueNow<R>(s: Sender<R>, now: Time)
    requires Retry.Sound(s)
  {
    s.phase == Phase.Ready || (s.phase == Backoff && s.notBefore.value <= now)
  }

  predicate Runnable<R>(x: State<R>) {
    && |x.clients| == |x.local| == |x.execution.slots|
    && forall i :: 0 <= i < |x.execution.slots| ==> M.Usable(x.execution.slots[i], x.execution.sourcesTaken)
  }

  function CountStart<R>(x: State<R>, i: nat, e: M.State<R>): State<R>
    requires i < |x.execution.slots|
  {
    var c := x.counters;
    x.(execution := e,
       counters := c.(started := c.started + 1,
                      retries := c.retries + One(x.execution.slots[i].sender.attempts > 0)))
  }

  function LocalStep<R>(e: M.State<R>, i: nat, run: LocalRun<R>, now: Time, answers: M.Answers): (StatusCode, M.State<R>)
    requires i < |e.slots| && M.Usable(e.slots[i], e.sourcesTaken)
  {
    match run
    case WorkerFailed(code) => M.FailSlot(e, i, code, now, answers)
    case WorkerAnswered(verdict) => M.RespondSlot(e, i, verdict, now, answers)
  }

  function CountLocal<R>(x: State<R>, i: nat, e: M.State<R>): State<R>
    requires i < |e.slots|
  {
    var c := x.counters;
    x.(execution := e,
       counters := if e.slots[i].sender.phase == Succeeded then c.(localCompleted := c.localCompleted + 1)
                   else c.(localFailed := c.localFailed + 1))
  }

  function Opened<R>(x: State<R>, i: nat): State<R>
    requires i < |x.clients|
  {
    x.(clients := x.clients[i := true], counters := x.counters.(active := x.counters.active + 1))
  }

  function LostClient<R>(x: State<R>, e: M.State<R>): State<R> {
    x.(execution := e, counters := x.counters.(failed := x.counters.failed + 1))
  }

  function Released<R>(x: State<R>, i: nat): State<R>
    requires i < |x.clients|
  {
    x.(clients := x.clients[i := false], counters := x.counters.(active := x.counters.active - 1))
  }

  function Completed<R>(x: State<R>, e: M.State<R>): State<R> {
    x.(execution := e, counters := x.counters.(completed := x.counters.completed + 1))
  }

  /** An attempt that was just begun: run in place, or given a client. */
  function Launch<R>(x: State<R>, i: nat, now: Time, connect: Connect, run: LocalRun<R>, answers: M.Answers)
    : (StatusCode, State<R>)
    requires i < |x.clients| == |x.local| == |x.execution.slots|
    requires M.Usable(x.execution.slots[i], x.execution.sourcesTaken)
  {
    if x.local[i] then
      var (code, e) := LocalStep(x.execution, i, run, now, answers);
      SlotsStay(x.execution, i, run, now, answers);
      (code, CountLocal(x, i, e))
    else match connect
      case Connected => (Ok, Opened(x, i))
      case Refused(code) =>
        if !RetryableClient(code) then (code, x.(abandoned := x.abandoned + 1))
        else
          var (answer, e) := M.FailSlot(x.execution, i, code, now, answers);
          (answer, LostClient(x, e))
  }

  lemma SlotsStay<R>(e: M.State<R>, i: nat, run: LocalRun<R>, now: Time, answers: M.Answers)
    requires i < |e.slots| && M.Usable(e.slots[i], e.sourcesTaken)
    ensures |LocalStep(e, i, run, now, answers).1.slots| == |e.slots|
  {
  }

  function StartSlot<R>(x: State<R>, i: nat, now: Time, connect: Connect, run: LocalRun<R>, answers: M.Answers)
    : (StatusCode, State<R>)
    requires Runnable(x) && i < |x.clients| && !x.execution.sourcesTaken
  {
    if x.clients[i] || !DueNow(x.execution.slots[i].sender, now) then (Ok, x)
    else
      var (code, e) := M.BeginSlot(x.execution, i, now);
      BegunUsable(x.execution, i, now);
      if code != Ok then (code, x) else Launch(CountStart(x, i, e), i, now, connect, run, answers)
  }

  lemma BegunUsable<R>(e: M.State<R>, i: nat, now: Time)
    requires i < |e.slots| && Retry.Sound(e.slots[i].sender) && !e.sourcesTaken
    ensures
      var f := M.BeginSlot(e, i, now).1;
      |f.slots| == |e.slots| && !f.sourcesTaken && M.Usable(f.slots[i], false)
  {
  }

  function DriveSlot<R>(x: State<R>, i: nat, later: Time, drive: RemoteDrive<R>, answers: M.Answers): (StatusCode, State<R>)
    requires Runnable(x) && i < |x.clients|
  {
    if !x.clients[i] then (Ok, x)
    else match drive
      case HungUp => LoseSlot(x, i, IoError, later, answers)
      case Progress => (Ok, x)
      case Broke(code) => if RetryableClient(code) then LoseSlot(x, i, code, later, answers) else (code, x)
      case Unreadable(code) => (code, x)
      case Finished(verdict) =>
        var (answer, e) := M.RespondSlot(x.execution, i, verdict, later, answers);
        (answer, Completed(Released(x, i), e))
  }

  function LoseSlot<R>(x: State<R>, i: nat, code: StatusCode, later: Time, answers: M.Answers): (StatusCode, State<R>)
    requires Runnable(x) && i < |x.clients|
  {
    var (answer, e) := M.FailSlot(x.execution, i, code, later, answers);
    (answer, LostClient(Released(x, i), e))
  }

  // ---- The books ----

  function Senders<R>(slots: seq<M.Slot<R>>): seq<Sender<seq<R>>> {
    seq(|slots|, i requires 0 <= i < |slots| => slots[i].sender)
  }

  /** Every started attempt, remote or local, is in flight, ended in one counter, or abandoned. */
  predicate Conserved<R>(x: State<R>) {
    var c := x.counters;
    && c.active == Total(x.clients, One)
    && c.started == c.active + c.completed + c.failed + c.localCompleted + c.localFailed + x.abandoned
  }

  /** The counters of started and retried attempts are what the senders went through since the hand-over. */
  predicate Tallied<R>(x: State<R>) {
    var c, now := x.counters, Senders(x.execution.slots);
    && c.started - x.startedBefore == Total(now, Tries) - x.triesAtHand
    && c.started - c.retries - x.firstsBefore == Total(now, FirstTry) - x.firstsAtHand
    && c.retries <= c.started
  }

  predicate Ledger<R>(x: State<R>) {
    && |x.clients| == |x.local| == |x.execution.slots| && Conserved(x) && Tallied(x)
  }

  predicate CoupledAt<R>(x: State<R>, i: nat)
    requires i < |x.clients| == |x.local| == |x.execution.slots|
  {
    (x.clients[i] <==> x.execution.slots[i].sender.phase == Waiting) && (x.clients[i] ==> !x.local[i])
  }

  predicate Coupled<R>(x: State<R>)
    requires |x.clients| == |x.local| == |x.execution.slots|
  {
    forall i :: 0 <= i < |x.clients| ==> CoupledAt(x, i)
  }

  /** Counters that never fall. */
  predicate Grows(c: Counters, d: Counters) {
    && c.started <= d.started && c.retries <= d.retries && c.completed <= d.completed && c.failed <= d.failed
    && c.localCompleted <= d.localCompleted && c.localFailed <= d.localFailed && c.rebindings <= d.rebindings
  }

  /** What a step of slot `i` may touch. */
  predicate Frame<R(==)>(x: State<R>, y: State<R>, i: nat, ok: bool)
    requires i < |x.clients| == |x.local| == |x.execution.slots|
  {
    && M.SlotOnly(x.execution, y.execution, i, if ok then Ok else Internal)
    && |y.clients| == |x.clients| && y.clients == x.clients[i := y.clients[i]]
    && y == x.(execution := y.execution, clients := y.clients, counters := y.counters, abandoned := y.abandoned)
    && y.counters.rebindings == x.counters.rebindings && Grows(x.counters, y.counters)
  }

  /** How the counters follow the sender and the client of the slot that moved. */
  predicate Follows<R>(x: State<R>, y: State<R>, i: nat)
    requires i < |x.clients| == |y.clients| && i < |x.execution.slots| == |y.execution.slots|
  {
    var s, t, c, d := x.execution.slots[i].sender, y.execution.slots[i].sender, x.counters, y.counters;
    && s.attempts <= t.attempts && d.started - c.started == t.attempts - s.attempts
    && (d.started - d.retries) - (c.started - c.retries) == One(t.attempts > 0) - One(s.attempts > 0)
    && d.active - c.active == One(y.clients[i]) - One(x.clients[i])
    && d.started - c.started ==
       (d.active - c.active) + (d.completed - c.completed) + (d.failed - c.failed)
       + (d.localCompleted - c.localCompleted) + (d.localFailed - c.localFailed) + (y.abandoned - x.abandoned)
  }

  /** A step of slot `i`; `ok` when the owner goes on after it. */
  predicate Moves<R(==)>(x: State<R>, y: State<R>, i: nat, ok: bool)
    requires i < |x.clients| == |x.local| == |x.execution.slots|
  {
    Frame(x, y, i, ok) && Follows(x, y, i) && (ok ==> CoupledAt(y, i) && y.abandoned == x.abandoned)
  }

  lemma MovesKeepsLedger<R>(x: State<R>, y: State<R>, i: nat, ok: bool)
    requires Ledger(x) && i < |x.clients| && Moves(x, y, i, ok)
    ensures Ledger(y)
  {
    TriesFollow(Senders(x.execution.slots), Senders(y.execution.slots), i);
    TotalFollows(x.clients, y.clients, i, One);
  }

  lemma MovesKeepsCoupled<R>(x: State<R>, y: State<R>, i: nat)
    requires |x.clients| == |x.local| == |x.execution.slots| && Coupled(x) && i < |x.clients| && Moves(x, y, i, true)
    ensures Coupled(y)
  {
    forall j | 0 <= j < |y.clients|
      ensures CoupledAt(y, j)
    {
      assert CoupledAt(x, j);
    }
  }

  // ---- The steps move the books ----

  predicate Open<R>(e: M.State<R>) {
    !M.Sealed(e) && !e.sourcesTaken
  }

  /** An execution step that leaves the attempts of slot `i` and, if it went well, ended its wait. */
  predicate LeadsOut<R(==)>(e: M.State<R>, f: M.State<R>, i: nat, code: StatusCode)
    requires i < |e.slots|
  {
    && M.SlotOnly(e, f, i, code) && f.slots[i].sender.attempts == e.slots[i].sender.attempts
    && (code == Ok ==> f.slots[i].sender.phase != Waiting)
  }

  lemma EndMoves<R>(x: State<R>, i: nat, f: M.State<R>, code: StatusCode)
    requires i < |x.clients| == |x.local| == |x.execution.slots| && x.clients[i] && LeadsOut(x.execution, f, i, code)
    ensures Moves(x, LostClient(Released(x, i), f), i, code == Ok)
    ensures Moves(x, Completed(Released(x, i), f), i, code == Ok)
  {
  }

  lemma StayMoves<R>(x: State<R>, i: nat)
    requires i < |x.clients| == |x.local| == |x.execution.slots| && CoupledAt(x, i)
    ensures Moves(x, x, i, true)
  {
  }

  lemma DriveMoves<R>(x: State<R>, i: nat, later: Time, drive: RemoteDrive<R>, answers: M.Answers)
    requires Runnable(x) && Coupled(x) && i < |x.clients| && Open(x.execution)
    ensures
      var (code, y) := DriveSlot(x, i, later, drive, answers);
      Moves(x, y, i, code == Ok) && y.abandoned == x.abandoned
  {
    assert CoupledAt(x, i);
    StayMoves(x, i);
    if x.clients[i] {
      match drive
      case HungUp =>
        M.FailShape(x.execution, i, IoError, later, answers);
        var (code, f) := M.FailSlot(x.execution, i, IoError, later, answers);
        EndMoves(x, i, f, code);
      case Broke(cause) =>
        M.FailShape(x.execution, i, cause, later, answers);
        var (code, f) := M.FailSlot(x.execution, i, cause, later, answers);
        EndMoves(x, i, f, code);
      case Finished(verdict) =>
        M.RespondShape(x.execution, i, verdict, later, answers);
        var (code, f) := M.RespondSlot(x.execution, i, verdict, later, answers);
        EndMoves(x, i, f, code);
      case _ =>
    }
  }

  /** An attempt just begun on slot `i`. */
  predicate Begun<R(==)>(e: M.State<R>, f: M.State<R>, i: nat)
    requires i < |e.slots|
  {
    && M.SlotOnly(e, f, i, Ok)
    && f.slots[i].sender.attempts == e.slots[i].sender.attempts + 1 && f.slots[i].sender.phase == Waiting
  }

  lemma LaunchMoves<R>(x: State<R>, i: nat, f: M.State<R>, g: M.State<R>, code: StatusCode)
    requires i < |x.clients| == |x.local| == |x.execution.slots| && !x.clients[i]
    requires Begun(x.execution, f, i) && LeadsOut(f, g, i, code)
    ensures
      var y := CountStart(x, i, f);
      && Moves(x, y.(abandoned := y.abandoned + 1), i, false) && (!x.local[i] ==> Moves(x, Opened(y, i), i, true))
      && Moves(x, LostClient(y, g), i, code == Ok) && Moves(x, CountLocal(y, i, g), i, code == Ok)
  {
  }

  /** A due slot of an open execution always begins. */
  lemma DueBegins<R>(e: M.State<R>, i: nat, now: Time)
    requires i < |e.slots| && Open(e) && Retry.Sound(e.slots[i].sender) && DueNow(e.slots[i].sender, now)
    ensures M.BeginSlot(e, i, now).0 == Ok && Begun(e, M.BeginSlot(e, i, now).1, i)
    ensures Open(M.BeginSlot(e, i, now).1) && M.Usable(M.BeginSlot(e, i, now).1.slots[i], false)
  {
  }

  lemma LocalShape<R>(e: M.State<R>, i: nat, run: LocalRun<R>, now: Time, answers: M.Answers)
    requires i < |e.slots| && Open(e) && M.Usable(e.slots[i], false) && e.slots[i].sender.phase == Waiting
    ensures
      var (code, f) := LocalStep(e, i, run, now, answers);
      LeadsOut(e, f, i, code)
  {
    match run
    case WorkerFailed(code) => M.FailShape(e, i, code, now, answers);
    case WorkerAnswered(verdict) => M.RespondShape(e, i, verdict, now, answers);
  }

  lemma StartMoves<R>(x: State<R>, i: nat, now: Time, connect: Connect, run: LocalRun<R>, answers: M.Answers)
    requires Runnable(x) && Coupled(x) && i < |x.clients| && Open(x.execution)
    ensures
      var (code, y) := StartSlot(x, i, now, connect, run, answers);
      && Moves(x, y, i, code == Ok)
      && y.abandoned - x.abandoned ==
         One(!x.clients[i] && DueNow(x.execution.slots[i].sender, now) && RefusedForGood(x.local[i], connect))
  {
    assert CoupledAt(x, i);
    StayMoves(x, i);
    if !x.clients[i] && DueNow(x.execution.slots[i].sender, now) {
      DueBegins(x.execution, i, now);
      var f := M.BeginSlot(x.execution, i, now).1;
      LaunchStepMoves(x, i, f, now, connect, run, answers);
    }
  }

  /** A remote attempt gets no client, and no retry of it would help. */
  predicate RefusedForGood(local: bool, connect: Connect) {
    !local && connect.Refused? && !RetryableClient(connect.code)
  }

  lemma LaunchStepMoves<R>(
    x: State<R>, i: nat, f: M.State<R>, now: Time, connect: Connect, run: LocalRun<R>, answers: M.Answers)
    requires i < |x.clients| == |x.local| == |x.execution.slots| && !x.clients[i]
    requires Begun(x.execution, f, i) && Open(f) && M.Usable(f.slots[i], false)
    ensures
      var (code, y) := Launch(CountStart(x, i, f), i, now, connect, run, answers);
      Moves(x, y, i, code == Ok) && y.abandoned - x.abandoned == One(RefusedForGood(x.local[i], connect))
  {
    if x.local[i] {
      LocalShape(f, i, run, now, answers);
      var (code, g) := LocalStep(f, i, run, now, answers);
      LaunchMoves(x, i, f, g, code);
    } else if connect.Refused? {
      M.FailShape(f, i, connect.code, now, answers);
      var (code, g) := M.FailSlot(f, i, connect.code, now, answers);
      LaunchMoves(x, i, f, g, code);
    } else {
      LaunchMoves(x, i, f, f, Internal);
    }
  }

  // ---- The execution underneath stays latched ----

  lemma LocalLatched<R>(e: M.State<R>, i: nat, run: LocalRun<R>, now: Time, answers: M.Answers)
    requires M.Latched(e) && i < |e.slots| && M.Usable(e.slots[i], e.sourcesTaken)
    ensures M.Latched(LocalStep(e, i, run, now, answers).1)
  {
    match run
    case WorkerFailed(code) => M.FailKeepsLatched(e, i, code, now, answers);
    case WorkerAnswered(verdict) => M.RespondKeepsLatched(e, i, verdict, now, answers);
  }


  lemma DriveLatched<R>(x: State<R>, i: nat, later: Time, drive: RemoteDrive<R>, answers: M.Answers)
    requires Runnable(x) && i < |x.clients| && M.Latched(x.execution)
    ensures M.Latched(DriveSlot(x, i, later, drive, answers).1.execution)
  {
    match drive
    case HungUp => M.FailKeepsLatched(x.execution, i, IoError, later, answers);
    case Broke(code) => M.FailKeepsLatched(x.execution, i, code, later, answers);
    case Finished(verdict) => M.RespondKeepsLatched(x.execution, i, verdict, later, answers);
    case _ =>
  }

  lemma LaunchLatched<R>(x: State<R>, i: nat, now: Time, connect: Connect, run: LocalRun<R>, answers: M.Answers)
    requires i < |x.clients| == |x.local| == |x.execution.slots| && M.Latched(x.execution)
    requires M.Usable(x.execution.slots[i], x.execution.sourcesTaken)
    ensures M.Latched(Launch(x, i, now, connect, run, answers).1.execution)
  {
    if x.local[i] {
      LocalLatched(x.execution, i, run, now, answers);
    } else if connect.Refused? {
      M.FailKeepsLatched(x.execution, i, connect.code, now, answers);
    }
  }

  lemma StartLatched<R>(x: State<R>, i: nat, now: Time, connect: Connect, run: LocalRun<R>, answers: M.Answers)
    requires Runnable(x) && i < |x.clients| && Open(x.execution) && M.Latched(x.execution)
    ensures M.Latched(StartSlot(x, i, now, connect, run, answers).1.execution)
  {
    if !x.clients[i] && DueNow(x.execution.slots[i].sender, now) {
      M.BeginKeepsLatched(x.execution, i, now);
      BegunUsable(x.execution, i, now);
      var (code, f) := M.BeginSlot(x.execution, i, now);
      if code == Ok {
        LaunchLatched(CountStart(x, i, f), i, now, connect, run, answers);
      }
    }
  }

  // ---- Publication and rebinding ----

  /** What the coordinator and the finalizer answer to a publication. */
  datatype Publication = Publication(finish: StatusCode, finalize: StatusCode)

  function PublishNow<R>(x: State<R>, p: Publication): State<R> {
    var slots := x.execution.slots;
    if exists i :: 0 <= i < |slots| && slots[i].sender.phase == Exhausted then
      var (code, e) := M.Finish(x.execution, p.finish);
      Stopped(x.(execution := e), HasFailed, if code == Ok then Internal else code)
    else if exists i :: 0 <= i < |slots| && slots[i].sender.phase != Succeeded then x
    else if x.authority.sources then
      var (taken, e) := M.TakeSources(x.execution);
      if taken.Failure? then Stopped(x, HasFailed, taken.code) else x.(execution := e, status := AllComplete)
    else
      var (code, e) := M.Finish(x.execution, p.finish);
      if code != Ok then Stopped(x, HasFailed, code)
      else if p.finalize != Ok then Stopped(x.(execution := e), HasFailed, p.finalize)
      else x.(execution := e, status := AllComplete)
  }

  /** An execution handed over in place of a failed one; `creatable` stands for the other checks of creation. */
  datatype Replacement<+R> = Replacement(
    authority: Authority, maxRebindings: nat, creatable: bool, local: seq<bool>, execution: M.State<R>)

  /** The slots are the tablets the authority names, in order. */
  predicate Named<R>(authority: Authority, e: M.State<R>) {
    |e.slots| == |authority.tablets| && forall i :: 0 <= i < |e.slots| ==> e.slots[i].tablet == authority.tablets[i]
  }

  /** A reachable execution that is open and has no attempt under way. */
  predicate Handed<R(==)>(r: Replacement<R>) {
    && M.Latched(r.execution) && Open(r.execution) && |r.local| == |r.execution.slots| && Named(r.authority, r.execution)
    && forall i :: 0 <= i < |r.execution.slots| ==> r.execution.slots[i].sender.phase != Waiting
  }

  function Rebound<R>(x: State<R>, r: Replacement<R>): State<R> {
    var c, senders := x.counters, Senders(r.execution.slots);
    x.(local := r.local, execution := r.execution, clients := Idled(|r.local|),
       counters := c.(rebindings := c.rebindings + 1, active := 0), status := Running, failure := Internal,
       startedBefore := c.started, firstsBefore := c.started - c.retries,
       triesAtHand := Total(senders, Tries), firstsAtHand := Total(senders, FirstTry))
  }

  function Rebind<R>(x: State<R>, r: Replacement<R>): (StatusCode, State<R>) {
    if x.status != HasFailed || !Retryable(x.failure) then (InvalidArgument, x)
    else if x.counters.rebindings >= x.maxRebindings then (ResourceExhausted, x)
    else if r.authority != x.authority || r.maxRebindings != x.maxRebindings then (InvalidArgument, x)
    else if !r.creatable then (InvalidArgument, x)
    else (Ok, Rebound(x, r))
  }

  /** When a rebinding is taken, written out, and what is answered when it is not. */
  lemma RebindExactly<R>(x: State<R>, r: Replacement<R>)
    ensures
      var failed := x.status == HasFailed && (x.failure == Unavailable || x.failure == ResourceExhausted || x.failure == IoError);
      var fits := r.authority == x.authority && r.maxRebindings == x.maxRebindings && r.creatable;
      var (code, y) := Rebind(x, r);
      && (code == Ok <==> failed && x.counters.rebindings < x.maxRebindings && fits)
      && (code == ResourceExhausted <==> failed && x.counters.rebindings >= x.maxRebindings)
      && (code == Ok || code == ResourceExhausted || code == InvalidArgument)
      && (code != Ok ==> y == x)
  {
  }

  // ---- Lives ----

  predicate Bounded<R>(x: State<R>) {
    && x.counters.rebindings <= x.maxRebindings <= MAXIMUM_REBINDINGS
    && x.startedBefore <= x.counters.rebindings * (|x.execution.slots| * 1024)
  }

  predicate Valid<R(==)>(x: State<R>) {
    && M.Latched(x.execution) && Ledger(x) && Bounded(x) && Named(x.authority, x.execution)
    && (x.status == Running || x.status == AllComplete ==> Coupled(x))
    && (x.status == Running ==> Open(x.execution))
    && (x.status == AllComplete ==> x.execution.ready || x.execution.sourcesTaken)
    && (x.status == HasFailed || x.status == WasCancelled ==>
          && x.counters.active == 0 && !x.execution.sourcesTaken
          && forall i :: 0 <= i < |x.clients| ==> !x.clients[i])
  }

  lemma ValidRunnable<R>(x: State<R>)
    requires M.Latched(x.execution) && |x.clients| == |x.local| == |x.execution.slots|
    ensures Runnable(x)
  {
  }

  lemma NoneFlying(n: nat)
    ensures Total(Idled(n), One) == 0
  {
    TotalBounded(Idled(n), 0, One);
  }

  /** Later in the same life: the same authority, counters that never fall, endings that last. */
  predicate Descends<R(==)>(x: State<R>, y: State<R>) {
    && y.authority == x.authority && y.maxRebindings == x.maxRebindings
    && Grows(x.counters, y.counters) && x.abandoned <= y.abandoned
    && (x.status == AllComplete || x.status == WasCancelled ==> y == x)
  }

  /** Ending a run abandons exactly the attempts in flight. */
  lemma StoppedIsValid<R>(x: State<R>, status: Status, code: StatusCode)
    requires M.Latched(x.execution) && Ledger(x) && Bounded(x) && Named(x.authority, x.execution)
    requires (status == HasFailed || status == WasCancelled) && !x.execution.sourcesTaken
    ensures
      var y := Stopped(x, status, code);
      && Valid(y) && y.abandoned == x.abandoned + x.counters.active && y.counters == x.counters.(active := 0)
      && y.authority == x.authority && y.maxRebindings == x.maxRebindings
  {
    NoneFlying(|x.clients|);
  }

  lemma MovesKeepsNames<R>(x: State<R>, y: State<R>, i: nat, ok: bool)
    requires i < |x.clients| == |x.local| == |x.execution.slots| && Frame(x, y, i, ok) && Named(x.authority, x.execution)
    ensures Named(y.authority, y.execution) && (Bounded(x) ==> Bounded(y))
  {
  }

  /** A slot step of a running owner, settled. */
  lemma MovedIsValid<R>(x: State<R>, step: (StatusCode, State<R>), i: nat)
    requires Valid(x) && x.status == Running && i < |x.clients| && Moves(x, step.1, i, step.0 == Ok)
    requires M.Latched(step.1.execution) && x.abandoned <= step.1.abandoned
    ensures Valid(Settled(step)) && Descends(x, Settled(step))
    ensures Settled(step).status == Running ==> Settled(step).abandoned == x.abandoned
    ensures Settled(step).status != AllComplete
  {
    MovesKeepsLedger(x, step.1, i, step.0 == Ok);
    MovesKeepsNames(x, step.1, i, step.0 == Ok);
    if step.0 != Ok {
      StoppedIsValid(step.1, HasFailed, step.0);
    } else {
      MovesKeepsCoupled(x, step.1, i);
    }
  }

  datatype Step<+R> =
    | Start(i: nat, now: Time, connect: Connect, run: LocalRun<R>, answers: M.Answers)
    | Drive(i: nat, later: Time, drive: RemoteDrive<R>, answers: M.Answers)
    | Publish(publication: Publication)
    | End(status: Status, code: FailureCode)
    | Replace(replacement: Replacement<R>)

  /** A poll error or a passed deadline ends the run; replacements have no attempt under way. */
  predicate Fair<R(==)>(step: Step<R>) {
    match step
    case End(status, _) => status == HasFailed || status == WasCancelled
    case Replace(r) => Handed(r)
    case _ => true
  }

  function Advance<R(==)>(x: State<R>, step: Step<R>): State<R>
    requires Valid(x) && Fair(step)
  {
    ValidRunnable(x);
    match step
    case Start(i, now, connect, run, answers) =>
      if x.status == Running && i < |x.clients| then Settled(StartSlot(x, i, now, connect, run, answers)) else x
    case Drive(i, later, drive, answers) =>
      if x.status == Running && i < |x.clients| then Settled(DriveSlot(x, i, later, drive, answers)) else x
    case Publish(p) => if x.status == Running then PublishNow(x, p) else x
    case End(status, code) => if x.status == Running then Stopped(x, status, code) else x
    case Replace(r) => Rebind(x, r).1
  }

  /** A finished or transferred execution keeps its tablets, its phases and its attempts. */
  predicate SamePhases<R>(e: M.State<R>, f: M.State<R>) {
    && |f.slots| == |e.slots|
    && forall i :: 0 <= i < |e.slots| ==>
      && f.slots[i].tablet == e.slots[i].tablet && f.slots[i].sender.attempts == e.slots[i].sender.attempts
      && f.slots[i].sender.phase == e.slots[i].sender.phase
  }

  lemma {:induction false} SameTries<R>(ss: seq<Sender<R>>, ts: seq<Sender<R>>)
    requires |ts| == |ss| && forall i :: 0 <= i < |ss| ==> ts[i].attempts == ss[i].attempts
    ensures Total(ts, Tries) == Total(ss, Tries) && Total(ts, FirstTry) == Total(ss, FirstTry)
  {
    if ss == [] {
    } else {
      SameTries(ss[..|ss| - 1], ts[..|ts| - 1]);
    }
  }

  lemma FinishedBooks<R>(x: State<R>, f: M.State<R>, status: Status)
    requires Ledger(x) && Coupled(x) && Named(x.authority, x.execution) && SamePhases(x.execution, f)
    ensures var y := x.(execution := f, status := status); Ledger(y) && Coupled(y) && Named(y.authority, y.execution)
  {
    var y := x.(execution := f, status := status);
    SameTries(Senders(x.execution.slots), Senders(f.slots));
    forall i | 0 <= i < |y.clients|
      ensures CoupledAt(y, i)
    {
      assert CoupledAt(x, i);
    }
  }

  lemma PublishedFailure<R>(x: State<R>, f: M.State<R>, code: StatusCode)
    requires Valid(x) && x.status == Running && M.Latched(f) && !f.sourcesTaken && SamePhases(x.execution, f)
    ensures var y := Stopped(x.(execution := f), HasFailed, code); Valid(y) && Descends(x, y)
  {
    FinishedBooks(x, f, Running);
    StoppedIsValid(x.(execution := f), HasFailed, code);
  }

  lemma PublishedSuccess<R>(x: State<R>, f: M.State<R>)
    requires Valid(x) && x.status == Running && M.Latched(f) && SamePhases(x.execution, f)
    requires f.ready || f.sourcesTaken
    ensures var y := x.(execution := f, status := AllComplete); Valid(y) && Descends(x, y)
  {
    FinishedBooks(x, f, AllComplete);
  }

  predicate AllSucceeded<R>(e: M.State<R>) {
    forall i :: 0 <= i < |e.slots| ==> e.slots[i].sender.phase == Succeeded
  }

  /** Which way a publication goes when nobody gave up. */
  lemma PublishCases<R>(x: State<R>, p: Publication)
    requires forall i :: 0 <= i < |x.execution.slots| ==> x.execution.slots[i].sender.phase != Exhausted
    ensures
      var y, e := PublishNow(x, p), x.execution;
      var (taken, t), (code, f) := M.TakeSources(e), M.Finish(e, p.finish);
      if !AllSucceeded(e) then y == x
      else if x.authority.sources then
        y == if taken.Failure? then Stopped(x, HasFailed, taken.code) else x.(execution := t, status := AllComplete)
      else if code != Ok then y == Stopped(x, HasFailed, code)
      else if p.finalize != Ok then y == Stopped(x.(execution := f), HasFailed, p.finalize)
      else y == x.(execution := f, status := AllComplete)
  {
  }

  /** Publication of an open, running owner: nothing, completion over a complete execution, or a failure. */
  lemma PublishIsValid<R>(x: State<R>, p: Publication)
    requires Valid(x) && x.status == Running
    ensures Valid(PublishNow(x, p)) && Descends(x, PublishNow(x, p))
    ensures PublishNow(x, p).status != HasFailed ==>
      PublishNow(x, p).counters == x.counters && PublishNow(x, p).abandoned == x.abandoned
  {
    NobodyGaveUp(x.execution);
    PublishCases(x, p);
    if AllSucceeded(x.execution) && x.authority.sources {
      TransferIsValid(x);
    } else if AllSucceeded(x.execution) {
      FinishIsValid(x, p);
    }
  }

  lemma TransferIsValid<R>(x: State<R>)
    requires Valid(x) && x.status == Running
    ensures
      var (taken, t) := M.TakeSources(x.execution);
      var y := if taken.Failure? then Stopped(x, HasFailed, taken.code) else x.(execution := t, status := AllComplete);
      Valid(y) && Descends(x, y)
  {
    M.TransferMeansComplete(x.execution);
    var (taken, t) := M.TakeSources(x.execution);
    if taken.Failure? {
      StoppedIsValid(x, HasFailed, taken.code);
    } else {
      PublishedSuccess(x, t);
    }
  }

  lemma FinishIsValid<R>(x: State<R>, p: Publication)
    requires Valid(x) && x.status == Running
    ensures
      var (code, f) := M.Finish(x.execution, p.finish);
      var y := if code != Ok then Stopped(x, HasFailed, code)
               else if p.finalize != Ok then Stopped(x.(execution := f), HasFailed, p.finalize)
               else x.(execution := f, status := AllComplete);
      Valid(y) && Descends(x, y)
  {
    M.FinishMeansComplete(x.execution, p.finish);
    var (code, f) := M.Finish(x.execution, p.finish);
    if code != Ok {
      StoppedIsValid(x, HasFailed, code);
    } else if p.finalize != Ok {
      PublishedFailure(x, f, p.finalize);
    } else {
      PublishedSuccess(x, f);
    }
  }

  /** While no failure is latched no sender has given up, so a running owner never publishes one. */
  lemma NobodyGaveUp<R>(e: M.State<R>)
    requires M.Latched(e) && e.failure.None?
    ensures forall i :: 0 <= i < |e.slots| ==> e.slots[i].sender.phase != Exhausted
  {
  }

  lemma AttemptsWithinBudget<R>(e: M.State<R>)
    requires M.Latched(e)
    ensures Total(Senders(e.slots), Tries) <= |e.slots| * 1024
  {
    forall i | 0 <= i < |e.slots|
      ensures Senders(e.slots)[i].attempts <= 1024
    {
      assert M.Flagged(e.slots[i], e.sourcesTaken);
    }
    TriesBounded(Senders(e.slots));
  }

  lemma BudgetAdds(started: nat, before: nat, here: nat, rebindings: nat, n: nat)
    requires started <= before + here && before <= rebindings * (n * 1024) && here <= n * 1024
    ensures started <= (rebindings + 1) * (n * 1024)
  {
  }

  /** Over all bindings at most 1024 attempts are started per slot and binding, however the owner ended. */
  lemma StartedWithinBudget<R>(x: State<R>)
    requires M.Latched(x.execution) && Ledger(x) && Bounded(x)
    ensures x.counters.started <= (x.counters.rebindings + 1) * (|x.execution.slots| * 1024)
  {
    AttemptsWithinBudget(x.execution);
    BudgetAdds(x.counters.started, x.startedBefore, Total(Senders(x.execution.slots), Tries), x.counters.rebindings,
               |x.execution.slots|);
  }

  lemma ReboundBooks<R>(x: State<R>, r: Replacement<R>)
    requires Handed(r) && Ledger(x) && x.counters.active == 0
    ensures Ledger(Rebound(x, r)) && Coupled(Rebound(x, r))
  {
    NoneFlying(|r.local|);
  }

  lemma ReboundIsValid<R>(x: State<R>, r: Replacement<R>)
    requires Handed(r) && Ledger(x) && x.counters.active == 0 && r.authority == x.authority
    requires x.counters.rebindings < x.maxRebindings <= MAXIMUM_REBINDINGS && Named(x.authority, x.execution)
    requires x.counters.started <= (x.counters.rebindings + 1) * (|x.execution.slots| * 1024)
    ensures Valid(Rebound(x, r))
  {
    ReboundBooks(x, r);
  }

  /** Rebinding carries the counters and the authority over; a refused one changes nothing. */
  lemma RebindIsValid<R>(x: State<R>, r: Replacement<R>)
    requires Valid(x) && Handed(r)
    ensures
      var (code, y) := Rebind(x, r);
      && Valid(y) && Descends(x, y) && y.abandoned == x.abandoned && (code != Ok ==> y == x)
      && (code == Ok ==>
            && x.status == HasFailed && Retryable(x.failure) && y.status == Running && r.authority == x.authority
            && y.counters == x.counters.(rebindings := x.counters.rebindings + 1))
  {
    if Rebind(x, r).0 == Ok {
      StartedWithinBudget(x);
      ReboundIsValid(x, r);
    }
  }

  lemma StartedIsValid<R>(x: State<R>, i: nat, now: Time, connect: Connect, run: LocalRun<R>, answers: M.Answers)
    requires Valid(x) && x.status == Running && Runnable(x) && i < |x.clients|
    ensures
      var y := Settled(StartSlot(x, i, now, connect, run, answers));
      Valid(y) && Descends(x, y) && (y.status == Running ==> y.abandoned == x.abandoned) && y.status != AllComplete
  {
    StartMoves(x, i, now, connect, run, answers);
    StartLatched(x, i, now, connect, run, answers);
    MovedIsValid(x, StartSlot(x, i, now, connect, run, answers), i);
  }

  lemma DrivenIsValid<R>(x: State<R>, i: nat, later: Time, drive: RemoteDrive<R>, answers: M.Answers)
    requires Valid(x) && x.status == Running && Runnable(x) && i < |x.clients|
    ensures
      var y := Settled(DriveSlot(x, i, later, drive, answers));
      Valid(y) && Descends(x, y) && (y.status == Running ==> y.abandoned == x.abandoned) && y.status != AllComplete
  {
    DriveMoves(x, i, later, drive, answers);
    DriveLatched(x, i, later, drive, answers);
    MovedIsValid(x, DriveSlot(x, i, later, drive, answers), i);
  }

  lemma AdvanceKeepsValid<R>(x: State<R>, step: Step<R>)
    requires Valid(x) && Fair(step)
    ensures Valid(Advance(x, step)) && Descends(x, Advance(x, step))
    ensures x.status == Running && (Advance(x, step).status == Running || Advance(x, step).status == AllComplete) ==>
      Advance(x, step).abandoned == x.abandoned
  {
    ValidRunnable(x);
    match step
    case Start(i, now, connect, run, answers) =>
      if x.status == Running && i < |x.clients| { StartedIsValid(x, i, now, connect, run, answers); }
    case Drive(i, later, drive, answers) =>
      if x.status == Running && i < |x.clients| { DrivenIsValid(x, i, later, drive, answers); }
    case Publish(p) => if x.status == Running { PublishIsValid(x, p); }
    case End(status, code) => if x.status == Running { StoppedIsValid(x, status, code); }
    case Replace(r) => RebindIsValid(x, r);
  }

  predicate FairRun<R(==)>(steps: seq<Step<R>>) {
    forall k :: 0 <= k < |steps| ==> Fair(steps[k])
  }

  function Life<R(==)>(x: State<R>, steps: seq<Step<R>>): (y: State<R>)
    requires Valid(x) && FairRun(steps)
    ensures Valid(y)
    decreases |steps|
  {
    if steps == [] then x
    else
      AdvanceKeepsValid(x, steps[0]);
      Life(Advance(x, steps[0]), steps[1..])
  }

  /**
   No step, and no sequence of steps, loses an attempt or moves an ended owner: `started` is always the
   sum of the attempts in flight, completed, failed, run locally either way, and abandoned.
   */
  lemma {:induction false} LifeConserves<R>(x: State<R>, steps: seq<Step<R>>)
    requires Valid(x) && FairRun(steps)
    ensures
      var y := Life(x, steps);
      && Descends(x, y) && y.counters.active == Total(y.clients, One)
      && y.counters.started ==
         y.counters.active + y.counters.completed + y.counters.failed + y.counters.localCompleted + y.counters.localFailed
         + y.abandoned
    decreases |steps|
  {
    if steps == [] {
    } else {
      AdvanceKeepsValid(x, steps[0]);
      LifeConserves(Advance(x, steps[0]), steps[1..]);
    }
  }

  /**
   At the end of every life: slots hold clients exactly while remote senders wait; retries are the
   attempts beyond each slot's first; and a complete owner has every tablet's whole result merged.
   */
  lemma LifeIsSound<R>(x: State<R>, steps: seq<Step<R>>, i: nat)
    requires Valid(x) && FairRun(steps) && i < |Life(x, steps).execution.slots|
    ensures
      var y := Life(x, steps);
      && |y.clients| == |y.local| == |y.execution.slots| && Tallied(y)
      && y.execution.slots[i].tablet == y.authority.tablets[i]
      && (y.status == Running ==>
            && (y.clients[i] <==> y.execution.slots[i].sender.phase == Waiting) && (y.clients[i] ==> !y.local[i])
            && y.execution.slots[i].sender.phase != Exhausted)
      && (y.status == AllComplete ==>
            && y.execution.slots[i].resultDelivered
            && M.Original(y.execution.slots[i], y.execution.sourcesTaken).result == Some(y.execution.slots[i].merged))
  {
    var y := Life(x, steps);
    if y.status == Running {
      assert CoupledAt(y, i);
      NobodyGaveUp(y.execution);
    }
    assert M.Flagged(y.execution.slots[i], y.execution.sourcesTaken);
  }
}
