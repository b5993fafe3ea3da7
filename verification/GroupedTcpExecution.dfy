/** The poll owner as an object: slots, clients, metrics and status updated in place. */
module GroupedTcpExecution {
  import opened Common
  import opened ResponseFrames
  import opened WirePipe
  import opened Retry
  import opened Execution
  import opened TcpExecution
  import opened TcpInvariant
  import opened TcpRuns
  import C = Coordinator

  const INT_MAX := 0x7FFF_FFFF

  method CompatibleRebinding(previous: Snapshot, next: Snapshot) returns (ok: bool)
    ensures ok <==> Compatible(previous, next)
  {
    if previous.databaseId != next.databaseId || next.generation < previous.generation {
      return false;
    }
    if |previous.dispatches| != |next.dispatches| {
      return false;
    }
    var i := 0;
    while i < |previous.dispatches|
      invariant i <= |previous.dispatches|
      invariant forall k :: 0 <= k < i ==> SameLogicalFragment(previous.dispatches[k], next.dispatches[k])
    {
      if !SameLogicalFragment(previous.dispatches[i], next.dispatches[i]) {
        return false;
      }
      i := i + 1;
    }
    return true;
  }

  class GroupedQueryTcpExecution {
    var config: Config
    var snapshot: Snapshot
    var execution: Execution.State
    var clients: seq<Option<Connection>>
    var metrics: Metrics
    var status: Status
    var failure: StatusCode
    var result: Option<C.Groups>
    ghost var history: History

    ghost function View(): Owner
      reads this
    {
      Owner.Owner(config, snapshot, execution, clients, metrics, status, failure, result, history)
    }

    constructor (x: Owner)
      ensures View() == x
    {
      config, snapshot, execution, clients := x.config, x.snapshot, x.execution, x.clients;
      metrics, status, failure, result, history := x.metrics, x.status, x.failure, x.result, x.history;
    }

    /** Drops every client and records how the run ended; an ended run stays as it is. */
    method End(ending: Status, code: StatusCode)
      requires ending != Running
      modifies this
      ensures View() == if old(status) == Running then Stop(old(View()), ending, code) else old(View())
    {
      if status == Running {
        var i := 0;
        while i < |clients|
          modifies `clients
          invariant i <= |clients| == |old(clients)|
          invariant forall k :: 0 <= k < i ==> clients[k].None?
        {
          clients := clients[i := None];
          i := i + 1;
        }
        assert clients == Idled(|old(clients)|);
        history := history.(abandoned := history.abandoned + Flying(old(clients)));
        metrics := metrics.(active := 0);
        failure := code;
        status := ending;
      }
    }

    method StartOne(i: nat, now: Time, connect: Connect) returns (answer: StatusCode)
      requires i < |clients| == |execution.slots| && Retry.Sound(execution.slots[i].sender)
      modifies this
      ensures (answer, View()) == StartSlot(old(View()), i, now, connect)
    {
      if clients[i].Some? {
        return Ok;
      }
      var sender := execution.slots[i].sender;
      if sender.phase != Phase.Ready && sender.phase != Backoff {
        return Ok;
      }
      if sender.phase == Backoff && (sender.notBefore.value == TIME_MAX || now < sender.notBefore.value) {
        return Ok;
      }
      answer := Launch(i, now, connect);
    }

    method Launch(i: nat, now: Time, connect: Connect) returns (answer: StatusCode)
      requires i < |clients| == |execution.slots| && Retry.Sound(execution.slots[i].sender)
      modifies this
      ensures (answer, View()) == LaunchSlot(old(View()), i, now, connect)
    {
      BeginStaysLive(execution.slots[i].sender, now);
      var (begun, next) := BeginSlot(execution, i, now);
      if begun.Failure? {
        return begun.code;
      }
      execution := next;
      metrics := metrics.(started := metrics.started + 1, retries := metrics.retries + if begun.value > 1 then 1 else 0);
      assert View() == Counted(old(View()), (begun, next));
      answer := Attach(i, begun.value, now, connect);
    }

    method Attach(i: nat, attempt: nat, now: Time, connect: Connect) returns (answer: StatusCode)
      requires i < |clients| == |execution.slots| && Retry.Sound(execution.slots[i].sender)
      modifies this
      ensures (answer, View()) == Attached(old(View()), i, attempt, now, connect)
    {
      if connect.Connected? {
        clients := clients[i := Some(Connection(attempt, []))];
        metrics := metrics.(active := metrics.active + 1);
        return Ok;
      }
      if !RetryableClient(connect.code) {
        history := history.(abandoned := history.abandoned + 1);
        return connect.code;
      }
      answer := RecordFailure(i, connect.code, now);
    }

    /** Counts a failed attempt and tells the execution. */
    method RecordFailure(i: nat, code: StatusCode, now: Time) returns (answer: StatusCode)
      requires i < |execution.slots| && Retry.Sound(execution.slots[i].sender)
      modifies this
      ensures (answer, View()) == LostClient(old(View()), FailSlot(old(execution), i, code, now))
    {
      var out := FailSlot(execution, i, code, now);
      metrics := metrics.(failed := metrics.failed + 1);
      execution, history := out.state, history.(log := history.log + out.calls);
      assert View() == LostClient(old(View()), out).1;
      return out.answer;
    }

    method Lose(i: nat, code: StatusCode, later: Time) returns (answer: StatusCode)
      requires i < |clients| == |execution.slots| && Retry.Sound(execution.slots[i].sender)
      modifies this
      ensures (answer, View()) == LoseSlot(old(View()), i, code, later)
    {
      clients := clients[i := None];
      metrics := metrics.(active := metrics.active - 1);
      assert View() == Released(old(View()), i);
      answer := RecordFailure(i, code, later);
    }

    /** A client failure: a retryable one costs the attempt, any other the whole execution. */
    method Break(i: nat, code: StatusCode, later: Time) returns (answer: StatusCode)
      requires i < |clients| == |execution.slots| && Retry.Sound(execution.slots[i].sender)
      modifies this
      ensures (answer, View()) == BreakSlot(old(View()), i, code, later)
    {
      if !RetryableClient(code) {
        return code;
      }
      answer := Lose(i, code, later);
    }

    /** One read: the client keeps it, and is done with once it has failed or heard a whole stream. */
    method Read(i: nat, bytes: Bytes, later: Time) returns (answer: StatusCode)
      requires i < |clients| == |execution.slots| && Retry.Sound(execution.slots[i].sender) && clients[i].Some?
      modifies this
      ensures (answer, View()) == ReadSlot(old(View()), i, bytes, later)
    {
      if bytes == [] {
        answer := Lose(i, Unavailable, later);
        return;
      }
      var client := clients[i].value;
      client := client.(chunks := client.chunks + [bytes]);
      clients := clients[i := Some(client)];
      history := history.(wire := history.wire + [Receipt(i, execution.slots[i].sender.attempts, bytes)]);
      var heard := ReceiveAll(config.crc, IdentityAt(execution, i), config.maxFrames, client.chunks).0;
      match heard
      case Reading(_) =>
        answer := Ok;
      case Failed(code) =>
        answer := Break(i, code, later);
      case Complete(responses) =>
        answer := Finish(i, responses, later);
    }

    method Finish(i: nat, responses: seq<Response>, later: Time) returns (answer: StatusCode)
      requires i < |clients| == |execution.slots| && Retry.Sound(execution.slots[i].sender)
      modifies this
      ensures (answer, View()) == FinishSlot(old(View()), i, responses, later)
    {
      var out := RespondSlot(execution, i, responses, later);
      execution, clients := out.state, clients[i := None];
      metrics := metrics.(active := metrics.active - 1, completed := metrics.completed + 1);
      history := history.(log := history.log + out.calls);
      answer := out.answer;
    }

    method DriveOne(i: nat, later: Time, drive: Drive) returns (answer: StatusCode)
      requires i < |clients| == |execution.slots| && Retry.Sound(execution.slots[i].sender)
      modifies this
      ensures (answer, View()) == DriveSlot(old(View()), i, later, drive)
    {
      if clients[i].None? {
        return Ok;
      }
      match drive
      case HungUp =>
        answer := Lose(i, IoError, later);
      case Progress =>
        answer := Ok;
      case Broke(code) =>
        answer := Break(i, code, later);
      case Received(bytes) =>
        answer := Read(i, bytes, later);
    }

    method StartDueAttempts(now: Time, connects: nat -> Connect) returns (answer: StatusCode)
      requires Runnable(View())
      modifies this
      ensures (answer, View()) == StartAll(old(View()), now, connects, 0)
    {
      ghost var whole := StartAll(View(), now, connects, 0);
      var i := 0;
      while i < |clients|
        invariant i <= |clients| && Runnable(View()) && whole == StartAll(View(), now, connects, i)
        decreases |clients| - i
      {
        ghost var x := View();
        StartsHere(x, i, now, connects(i));
        answer := StartOne(i, now, connects(i));
        OnlyHereRunnable(x, View(), i);
        if answer != Ok {
          return;
        }
        i := i + 1;
      }
      return Ok;
    }

    /** The slots that hold a client, in ascending order. */
    method Descriptors() returns (indexes: seq<nat>)
      ensures Lists(indexes, clients, 0)
    {
      indexes := [];
      var i := 0;
      while i < |clients|
        invariant i <= |clients|
        invariant forall k :: 0 <= k < |indexes| ==> indexes[k] < i && clients[indexes[k]].Some?
        invariant forall j, k :: 0 <= j < k < |indexes| ==> indexes[j] < indexes[k]
        invariant forall k :: 0 <= k < i && clients[k].Some? ==> k in indexes
      {
        if clients[i].Some? {
          indexes := indexes + [i];
        }
        i := i + 1;
      }
    }

    /** Drives the next listed slot. */
    method DriveNext(i: nat, later: Time, drives: nat -> Drive, ghost from: nat, ghost rest: seq<nat>,
                     ghost whole: (StatusCode, Owner)) returns (answer: StatusCode)
      requires Driving(View(), later, drives, from, rest, whole) && rest != [] && i == rest[0]
      modifies this
      ensures answer != Ok ==> (answer, View()) == whole
      ensures answer == Ok ==> Driving(View(), later, drives, i + 1, rest[1..], whole)
    {
      ghost var x := View();
      answer := DriveOne(i, later, drives(i));
      DriveListed(x, later, drives, from, rest, whole, (answer, View()));
    }

    /** Drives the listed slots in turn; the others have no client to drive. */
    method DriveReady(indexes: seq<nat>, later: Time, drives: nat -> Drive) returns (answer: StatusCode)
      requires Runnable(View()) && Lists(indexes, clients, 0)
      modifies this
      ensures (answer, View()) == DriveAll(old(View()), later, drives, 0)
    {
      ghost var whole, from: nat := DriveAll(View(), later, drives, 0), 0;
      var d := 0;
      assert indexes[0..] == indexes;
      while d < |indexes|
        invariant d <= |indexes| && Driving(View(), later, drives, from, indexes[d..], whole)
      {
        var i := indexes[d];
        assert i == indexes[d..][0] && indexes[d..][1..] == indexes[d + 1..];
        answer := DriveNext(i, later, drives, from, indexes[d..], whole);
        if answer != Ok {
          return;
        }
        d, from := d + 1, i + 1;
      }
      SkipToEnd(View(), later, drives, from);
      return Ok;
    }

    method PublishTerminal()
      modifies this
      ensures View() == PublishIfTerminal(old(View()))
    {
      var slots := execution.slots;
      var allSucceeded := true;
      var i := 0;
      while i < |slots|
        invariant i <= |slots| && View() == old(View()) && slots == execution.slots
        invariant forall k :: 0 <= k < i ==> slots[k].sender.phase != Exhausted
        invariant allSucceeded <==> forall k :: 0 <= k < i ==> slots[k].sender.phase == Succeeded
      {
        if slots[i].sender.phase == Exhausted {
          var finished := C.Finish(execution.coordinator);
          End(HasFailed, if finished.Success? then Internal else finished.code);
          return;
        }
        allSucceeded := allSucceeded && slots[i].sender.phase == Succeeded;
        i := i + 1;
      }
      if !allSucceeded {
        return;
      }
      var finished := C.Finish(execution.coordinator);
      if finished.Failure? {
        End(HasFailed, finished.code);
        return;
      }
      result, status := Some(finished.value), AllComplete;
    }

    method Poll(maximumWait: int, p: Poll) returns (answer: StatusCode)
      requires Runnable(View())
      modifies this
      ensures maximumWait < 0 || maximumWait > INT_MAX ==> answer == InvalidArgument && View() == old(View())
      ensures 0 <= maximumWait <= INT_MAX ==> View() == PollOnce(old(View()), p) && answer == Report(View())
    {
      if maximumWait < 0 || maximumWait > INT_MAX {
        return InvalidArgument;
      }
      if status == HasFailed || status == WasCancelled {
        return failure;
      }
      if status == AllComplete {
        return Ok;
      }
      if Expired(config, p.now) {
        End(WasCancelled, Cancelled);
        return failure;
      }
      var started := StartDueAttempts(p.now, p.connects);
      if started != Ok {
        End(HasFailed, started);
        return if status == HasFailed || status == WasCancelled then failure else Ok;
      }
      PublishTerminal();
      if status == Running {
        WaitThenDrive(p);
      }
      return if status == HasFailed || status == WasCancelled then failure else Ok;
    }

    method CancelNow() returns (answer: StatusCode)
      modifies this
      ensures View() == Cancel(old(View())) && answer == Report(View())
    {
      if status == AllComplete {
        return Ok;
      }
      End(WasCancelled, Cancelled);
      return failure;
    }

    /** Replaces a failed run by a compatible new one, carrying the counters over; any refusal changes nothing. */
    method RebindTo(r: Replacement) returns (answer: StatusCode)
      modifies this
      ensures (answer, View()) == Rebind(old(View()), r)
    {
      if status != HasFailed || !Retryable(failure) {
        return InvalidArgument;
      }
      if metrics.rebindings >= config.maxRebindings {
        return ResourceExhausted;
      }
      if r.config.deadline != config.deadline || r.config.maxRebindings != config.maxRebindings {
        return InvalidArgument;
      }
      var compatible := CompatibleRebinding(snapshot, r.handover.snapshot);
      if !compatible || !Creatable(r.config, r.handover.snapshot) {
        return InvalidArgument;
      }
      Adopt(r);
      return Ok;
    }

    method Adopt(r: Replacement)
      modifies this
      ensures View() == Rebound(old(View()), r)
    {
      var x := NewState(r.config, r.handover);
      history := x.history.(origin := history.origin, abandoned := history.abandoned,
                            startedBefore := metrics.started, firstsBefore := metrics.started - metrics.retries);
      metrics := metrics.(rebindings := metrics.rebindings + 1, active := 0);
      config, snapshot, execution, clients := x.config, x.snapshot, x.execution, x.clients;
      status, failure, result := x.status, x.failure, x.result;
    }

    method WaitThenDrive(p: Poll)
      requires Runnable(View()) && status == Running
      modifies this
      ensures View() == WaitAndDrive(old(View()), p)
    {
      var indexes := Descriptors();
      if p.pollFails {
        End(HasFailed, IoError);
        return;
      }
      if Expired(config, p.later) {
        End(WasCancelled, Cancelled);
        return;
      }
      var driven := DriveReady(indexes, p.later, p.drives);
      if driven != Ok {
        End(HasFailed, driven);
        return;
      }
      PublishTerminal();
    }
  }

  /** Wraps an execution, however far it has been driven, once every target node has a route. */
  method Create(config: Config, h: Handover) returns (r: Result<GroupedQueryTcpExecution>)
    ensures r.Success? <==> Creatable(config, h.snapshot)
    ensures r.Success? ==> fresh(r.value) && r.value.View() == NewState(config, h)
    ensures r.Failure? ==> r.code == InvalidArgument
  {
    var snapshot := h.snapshot;
    if !config.wellFormed || config.maxRebindings > MAXIMUM_REBINDINGS {
      return Failure(InvalidArgument);
    }
    var i := 0;
    while i < |snapshot.dispatches|
      invariant i <= |snapshot.dispatches|
      invariant forall k :: 0 <= k < i ==> snapshot.dispatches[k].servingNode in config.routes
    {
      if snapshot.dispatches[i].servingNode !in config.routes {
        return Failure(InvalidArgument);
      }
      i := i + 1;
    }
    var execution := new GroupedQueryTcpExecution(NewState(config, h));
    return Success(execution);
  }

  /** `indexes` lists, in ascending order, exactly the slots from `from` on that hold a client. */
  ghost predicate Lists(indexes: seq<nat>, clients: seq<Option<Connection>>, from: nat) {
    && (forall k :: 0 <= k < |indexes| ==> from <= indexes[k] < |clients| && clients[indexes[k]].Some?)
    && (forall j, k :: 0 <= j < k < |indexes| ==> indexes[j] < indexes[k])
    && (forall i :: from <= i < |clients| && clients[i].Some? ==> i in indexes)
  }

  lemma ListsRest(indexes: seq<nat>, clients: seq<Option<Connection>>, from: nat, after: seq<Option<Connection>>)
    requires Lists(indexes, clients, from) && indexes != [] && |after| == |clients|
    requires forall j :: 0 <= j < |clients| && j != indexes[0] ==> after[j] == clients[j]
    ensures Lists(indexes[1..], after, indexes[0] + 1)
  {
  }

  lemma DriveTouchesOne(x: Owner, i: nat, later: Time, drive: Drive)
    requires i < |x.clients| == |x.execution.slots| && Retry.Sound(x.execution.slots[i].sender)
    ensures
      var after := DriveSlot(x, i, later, drive).1.clients;
      |after| == |x.clients| && forall j :: 0 <= j < |x.clients| && j != i ==> after[j] == x.clients[j]
  {
    DrivesHere(x, i, later, drive);
  }

  /** Slots without a client are passed over. */
  lemma {:induction false} SkipEmpty(x: Owner, later: Time, drives: nat -> Drive, from: nat, to: nat)
    requires Runnable(x) && from <= to <= |x.clients| && forall j :: from <= j < to ==> x.clients[j].None?
    ensures DriveAll(x, later, drives, from) == DriveAll(x, later, drives, to)
    decreases |x.clients| - from
  {
    if from == to {
    } else {
      assert DriveSlot(x, from, later, drives(from)) == (Ok, x);
      SkipEmpty(x, later, drives, from + 1, to);
    }
  }

  lemma NotListed(indexes: seq<nat>, j: nat)
    requires indexes != [] && j < indexes[0]
    requires forall a, b :: 0 <= a < b < |indexes| ==> indexes[a] < indexes[b]
    ensures j !in indexes
  {
  }

  lemma SkipToListed(x: Owner, later: Time, drives: nat -> Drive, from: nat, indexes: seq<nat>)
    requires Runnable(x) && from <= |x.clients| && Lists(indexes, x.clients, from) && indexes != []
    ensures DriveAll(x, later, drives, from) == DriveAll(x, later, drives, indexes[0])
  {
    forall j | from <= j < indexes[0]
      ensures x.clients[j].None?
    {
      NotListed(indexes, j);
    }
    SkipEmpty(x, later, drives, from, indexes[0]);
  }

  /** Where a drive over the listed slots stands: what is left of it leads to `whole`. */
  ghost predicate Driving(
    x: Owner, later: Time, drives: nat -> Drive, from: nat, indexes: seq<nat>, whole: (StatusCode, Owner))
  {
    && from <= |x.clients| && Runnable(x) && Lists(indexes, x.clients, from)
    && whole == DriveAll(x, later, drives, from)
  }

  /** The next listed slot is the next one that `DriveAll` drives. */
  lemma DriveListed(x: Owner, later: Time, drives: nat -> Drive, from: nat, indexes: seq<nat>,
                    whole: (StatusCode, Owner), step: (StatusCode, Owner))
    requires Driving(x, later, drives, from, indexes, whole) && indexes != []
    requires step == DriveSlot(x, indexes[0], later, drives(indexes[0]))
    ensures step.0 != Ok ==> whole == step
    ensures step.0 == Ok ==> Driving(step.1, later, drives, indexes[0] + 1, indexes[1..], whole)
  {
    var i := indexes[0];
    SkipToListed(x, later, drives, from, indexes);
    DrivesHere(x, i, later, drives(i));
    OnlyHereRunnable(x, step.1, i);
    DriveTouchesOne(x, i, later, drives(i));
    ListsRest(indexes, x.clients, from, step.1.clients);
  }

  lemma SkipToEnd(x: Owner, later: Time, drives: nat -> Drive, from: nat)
    requires Runnable(x) && from <= |x.clients| && Lists([], x.clients, from)
    ensures DriveAll(x, later, drives, from) == (Ok, x)
  {
    SkipEmpty(x, later, drives, from, |x.clients|);
  }
}
