/** Completion is reachable: one tablet, one attempt, one empty stream, one poll; and so is a rebinding before it. */
module Reachable {
  import opened Common
  import opened Layout
  import opened ExchangeFrames
  import opened ResponseFrames
  import opened RequestFrames
  import opened GroupedStreams
  import opened WirePipe
  import opened Retry
  import opened Execution
  import opened TcpExecution
  import opened TcpInvariant
  import opened TcpRuns
  import C = Coordinator
  import M = Moments

  const DISPATCH := Dispatch(1, 0, 3, 5, 6, 4, 7, [], [], 0, None, 2, 9, [])
  const SNAPSHOT := Snapshot(5, 9, [DISPATCH])
  const CLOSING := EmptyTerminal(TerminalMessage(3, 4, 1))
  const ID := Identity(1, 2, 3, 4)
  const RESPONSE := Response(2, 1, 3, 4, Ok, Some(CLOSING), None)

  function SomeSettings(floats: M.Floats): Settings {
    Settings(Limits(1, 1, 1), 1, 1, floats)
  }

  function SomeConfig(crc: Checksum): Config {
    Config(true, {2}, None, 1, crc, 1)
  }

  lemma Encodes(crc: Checksum)
    ensures Sendable(crc, [RESPONSE]) && Canonical([RESPONSE]) == [RESPONSE]
  {
  }

  function Wire(crc: Checksum): (b: Bytes)
    ensures b != [] && Sendable(crc, [RESPONSE]) && Frames(crc, [RESPONSE]) == [b]
  {
    Encodes(crc);
    EncodeResponse(crc, RESPONSE).value
  }

  /** Every socket connects, and every client reads the one response. */
  function OnePoll(crc: Checksum): Poll {
    Poll(0, _ => Connected, false, 0, _ => TcpExecution.Received(Wire(crc)))
  }

  function First(crc: Checksum, floats: M.Floats): Owner {
    NewState(SomeConfig(crc), Fresh(1, SNAPSHOT, SomeSettings(floats)))
  }

  lemma Admitted(crc: Checksum, floats: M.Floats)
    ensures Admissible(_ => Success([]), 1, SNAPSHOT, SomeSettings(floats)) && Creatable(SomeConfig(crc), SNAPSHOT)
  {
    assert Tablets([DISPATCH]) == [4];
  }

  lemma Starts(crc: Checksum, floats: M.Floats)
    ensures Creatable(SomeConfig(crc), SNAPSHOT) && Handed(Fresh(1, SNAPSHOT, SomeSettings(floats)))
    ensures Alive(First(crc, floats)) && Runnable(First(crc, floats))
  {
    Admitted(crc, floats);
    CreatedIsHanded(_ => Success([]), 1, SNAPSHOT, SomeSettings(floats));
    NewAlive(SomeConfig(crc), Fresh(1, SNAPSHOT, SomeSettings(floats)));
  }

  lemma Judged()
    ensures Judge(ID, [RESPONSE]) == Delivered([CLOSING]) && ClientStream(ID, 1, [RESPONSE])
  {
    assert SuccessFrame(ID, [RESPONSE][0], 0, 1);
    assert Payloads([RESPONSE]) == [CLOSING];
  }

  /** The client that reads the response off the wire hears it. */
  lemma Hears(crc: Checksum)
    ensures ReceiveAll(crc, ID, 1, [Wire(crc)]).0 == Complete([RESPONSE])
  {
    Judged();
    Encodes(crc);
    BytesDeliver(crc, ID, 1, [RESPONSE], [Wire(crc)]);
  }

  /** The first slot, its attempt begun and its client open; nothing else has happened. */
  predicate Waits(crc: Checksum, floats: M.Floats, x: Owner) {
    && Runnable(x) && |x.clients| == 1 && x.clients[0].Some? && x.clients[0].value.chunks == []
    && x.execution.slots[0].sender.phase == Waiting && x.execution.slots[0].dispatch == DISPATCH
    && !x.execution.slots[0].resultDelivered && x.execution.source == 1
    && x.status == Running && x.config.deadline == None && x.config.maxFrames == 1
  }

  /** An owner about to start the one attempt, in whatever binding. */
  ghost predicate AboutToStart(crc: Checksum, floats: M.Floats, x: Owner) {
    && Runnable(x) && x.status == Running && x.config == SomeConfig(crc) && x.snapshot == SNAPSHOT
    && x.execution == First(crc, floats).execution && x.clients == Idled(1)
  }

  /** The poll starts the one attempt and opens its client. */
  lemma Launches(crc: Checksum, floats: M.Floats, x: Owner, connects: nat -> Connect)
    requires AboutToStart(crc, floats, x) && connects(0) == Connected
    ensures
      var (code, y) := StartAll(x, 0, connects, 0);
      && code == Ok && Waits(crc, floats, y) && y.config.crc == crc && Bookkeeping(x, y)
      && y.execution.coordinator == First(crc, floats).execution.coordinator
  {
    StartsHere(x, 0, 0, Connected);
    var step := StartSlot(x, 0, 0, Connected);
    OnlyHereRunnable(x, step.1, 0);
    assert x.execution.slots[0] == Slot(DISPATCH, Initial(Limits(1, 1, 1)), false, false);
    assert step.0 == Ok;
    assert StartAll(step.1, 0, connects, 1) == (Ok, step.1);
  }

  predicate Bookkeeping(x: Owner, y: Owner) {
    && y.snapshot == x.snapshot && y.metrics.rebindings == x.metrics.rebindings
    && y.config.deadline == x.config.deadline && y.config.maxRebindings == x.config.maxRebindings
  }

  /** The coordinator accepts the closing message of its one tablet, and finishes. */
  lemma Closes(crc: Checksum, floats: M.Floats)
    ensures
      var c := First(crc, floats).execution.coordinator;
      var d := Deliver(c, 4, [CLOSING]);
      d.answer == Ok && d.coordinator == C.Offer(c, CLOSING).1 && C.Finish(d.coordinator).Success?
  {
    var c := First(crc, floats).execution.coordinator;
    assert Tablets([DISPATCH]) == [4];
    assert C.Ascending([4]) == [4];
    assert c.order == [4] && 4 in c.fragments && c.fragments[4] == C.Progress([], map[], false);
    var (code, next) := C.Offer(c, CLOSING);
    assert code == Ok && next.fragments[4].terminal;
    assert [CLOSING][1..] == [];
    assert [4][..0] == [];
    assert C.MergeFragments(next, [4][..0]) == Success(map[]);
  }

  /** The response stream ends the wait and is delivered whole. */
  lemma Responds(crc: Checksum, floats: M.Floats, e: Execution.State)
    requires |e.slots| == 1 && Retry.Sound(e.slots[0].sender) && e.slots[0].sender.phase == Waiting
    requires e.source == 1 && e.slots[0].dispatch == DISPATCH && !e.slots[0].resultDelivered
    requires e.coordinator == First(crc, floats).execution.coordinator
    ensures
      var out := RespondSlot(e, 0, [RESPONSE], 0);
      && out.answer == Ok && |out.state.slots| == 1 && out.state.slots[0].sender.phase == Succeeded
      && C.Finish(out.state.coordinator).Success?
  {
    Judged();
    Closes(crc, floats);
    ApplyKeepsSound(e.slots[0].sender, ResolveAt(Delivered([CLOSING]), 0));
  }

  lemma ReadIsFinish(x: Owner, bytes: Bytes, rs: seq<Response>)
    requires Runnable(x) && |x.clients| == 1 && x.clients[0].Some? && bytes != []
    requires Heard(x, 0, x.clients[0].value.chunks + [bytes]) == Complete(rs)
    ensures ReadSlot(x, 0, bytes, 0) == FinishSlot(Noted(x, 0, bytes), 0, rs, 0)
  {
  }

  /** The one read completes the client, so the slot is finished with what it heard. */
  lemma Reads(crc: Checksum, floats: M.Floats, x: Owner)
    requires Waits(crc, floats, x) && x.config.crc == crc
    ensures
      var y := Noted(x, 0, Wire(crc));
      ReadSlot(x, 0, Wire(crc), 0) == FinishSlot(y, 0, [RESPONSE], 0) && y.execution == x.execution && y.status == Running
  {
    Hears(crc);
    assert [] + [Wire(crc)] == [Wire(crc)];
    ReadIsFinish(x, Wire(crc), [RESPONSE]);
  }

  /** A finished slot, once its sender has succeeded. */
  lemma Finishes(x: Owner, out: Outcome)
    requires |x.clients| == 1 && out.answer == Ok && x.status == Running
    requires |out.state.slots| == 1 && Retry.Sound(out.state.slots[0].sender)
    ensures var y := Arrived(x, 0, out); Runnable(y) && y.execution == out.state && |y.clients| == 1 && y.status == Running
  {
  }

  lemma Drives(crc: Checksum, floats: M.Floats, x: Owner) returns (y: Owner)
    requires Waits(crc, floats, x) && x.config.crc == crc
    requires x.execution.coordinator == First(crc, floats).execution.coordinator
    ensures ReadSlot(x, 0, Wire(crc), 0) == (Ok, y) && Runnable(y) && |y.clients| == 1 && y.status == Running
    ensures y.execution.slots[0].sender.phase == Succeeded && C.Finish(y.execution.coordinator).Success?
  {
    var out := RespondSlot(x.execution, 0, [RESPONSE], 0);
    RespondSlotSound(x.execution, 0, [RESPONSE], 0);
    Responds(crc, floats, x.execution);
    Reads(crc, floats, x);
    y := Arrived(Noted(x, 0, Wire(crc)), 0, out);
    Finishes(Noted(x, 0, Wire(crc)), out);
  }

  /** With one slot, a poll whose one drive succeeds completes. */
  lemma Completes(x: Owner, p: Poll, y: Owner)
    requires Runnable(x) && |x.clients| == 1 && !p.pollFails && x.config.deadline.None?
    requires DriveSlot(x, 0, p.later, p.drives(0)) == (Ok, y) && Runnable(y) && |y.clients| == 1 && y.status == Running
    requires y.execution.slots[0].sender.phase == Succeeded && C.Finish(y.execution.coordinator).Success?
    ensures WaitAndDrive(x, p).status == AllComplete
  {
    assert DriveAll(y, p.later, p.drives, 1) == (Ok, y);
    assert DriveAll(x, p.later, p.drives, 0) == (Ok, y);
  }

  /** A slot that waits keeps its owner from publishing. */
  lemma NothingToPublish(x: Owner)
    requires |x.execution.slots| == 1 && x.execution.slots[0].sender.phase == Waiting
    ensures PublishIfTerminal(x) == x
  {
  }

  /** A poll that started its attempts and has nothing to publish goes on to wait. */
  lemma GoesOn(x: Owner, p: Poll, y: Owner)
    requires Runnable(x) && Runnable(y) && x.status == Running && y.status == Running && x.config.deadline.None?
    requires StartAll(x, p.now, p.connects, 0) == (Ok, y) && PublishIfTerminal(y) == y
    ensures PollOnce(x, p) == WaitAndDrive(y, p)
  {
  }

  lemma DriveReads(x: Owner, bytes: Bytes)
    requires Runnable(x) && |x.clients| == 1 && x.clients[0].Some?
    ensures DriveSlot(x, 0, 0, TcpExecution.Received(bytes)) == ReadSlot(x, 0, bytes, 0)
  {
  }

  /** The poll in which every socket connects and every client reads the one response. */
  predicate IsOnePoll(crc: Checksum, p: Poll) {
    && p.now == 0 && p.later == 0 && !p.pollFails
    && p.connects(0) == Connected && p.drives(0) == TcpExecution.Received(Wire(crc))
  }

  lemma WaitCompletes(crc: Checksum, floats: M.Floats, x: Owner, p: Poll)
    requires Waits(crc, floats, x) && x.config.crc == crc && IsOnePoll(crc, p)
    requires x.execution.coordinator == First(crc, floats).execution.coordinator
    ensures WaitAndDrive(x, p).status == AllComplete
  {
    var y := Drives(crc, floats, x);
    DriveReads(x, Wire(crc));
    Completes(x, p, y);
  }

  lemma PollCompletes(crc: Checksum, floats: M.Floats, x: Owner, p: Poll)
    requires AboutToStart(crc, floats, x) && IsOnePoll(crc, p)
    ensures PollOnce(x, p).status == AllComplete
  {
    Launches(crc, floats, x, p.connects);
    var y := StartAll(x, 0, p.connects, 0).1;
    NothingToPublish(y);
    GoesOn(x, p, y);
    WaitCompletes(crc, floats, y, p);
  }

  lemma FirstCompletes(crc: Checksum, floats: M.Floats) returns (x: Owner)
    ensures Alive(x) && Runnable(x) && x.status == Running && x.snapshot == SNAPSHOT
    ensures PollOnce(x, OnePoll(crc)).status == AllComplete
  {
    x := First(crc, floats);
    Starts(crc, floats);
    PollCompletes(crc, floats, x, OnePoll(crc));
  }

  lemma PolledOnce(x: Owner, poll: Poll)
    requires Runnable(x)
    ensures Fair([Polled(poll)]) && Life(x, [Polled(poll)]) == PollOnce(x, poll)
  {
    OneStepLife(x, Polled(poll));
  }

  /** There is a sound owner that is still running, and a life of it that completes. */
  lemma SomeLifeCompletes(crc: Checksum, floats: M.Floats) returns (x: Owner, steps: seq<Step>)
    ensures Alive(x) && Runnable(x) && x.status == Running && x.snapshot == SNAPSHOT
    ensures Fair(steps) && Life(x, steps).status == AllComplete
  {
    x := FirstCompletes(crc, floats);
    steps := [Polled(OnePoll(crc))];
    PolledOnce(x, OnePoll(crc));
  }

  // ---- A rebinding ----

  /** The socket connects, and waiting for it fails. */
  function FailingPoll(): Poll {
    Poll(0, _ => Connected, true, 0, _ => HungUp)
  }

  function Again(crc: Checksum, floats: M.Floats): Replacement {
    Replacement(SomeConfig(crc), Fresh(1, SNAPSHOT, SomeSettings(floats)))
  }

  lemma PollFails(crc: Checksum, floats: M.Floats, x: Owner, p: Poll)
    requires AboutToStart(crc, floats, x) && p.now == 0 && p.connects(0) == Connected && p.pollFails
    ensures var y := PollOnce(x, p); y.status == HasFailed && y.failure == IoError && Bookkeeping(x, y)
  {
    Launches(crc, floats, x, p.connects);
    var y := StartAll(x, 0, p.connects, 0).1;
    NothingToPublish(y);
    GoesOn(x, p, y);
  }

  /** A failed owner within its budget is bound to the same query again and may start over. */
  lemma IsReboundOnce(crc: Checksum, floats: M.Floats, x: Owner)
    requires x.status == HasFailed && x.failure == IoError && x.snapshot == SNAPSHOT && x.metrics.rebindings == 0
    requires x.config.deadline.None? && x.config.maxRebindings == 1
    ensures
      var (code, y) := Rebind(x, Again(crc, floats));
      code == Ok && AboutToStart(crc, floats, y) && y.metrics.rebindings == 1
  {
    Admitted(crc, floats);
    Starts(crc, floats);
    RebindExactly(x, Again(crc, floats));
  }

  /** With one rebinding allowed, the second one is refused. */
  lemma NotReboundTwice(crc: Checksum, floats: M.Floats, x: Owner)
    requires AboutToStart(crc, floats, x) && x.metrics.rebindings == 1
    ensures Rebind(PollOnce(x, FailingPoll()), Again(crc, floats)).0 == ResourceExhausted
  {
    PollFails(crc, floats, x, FailingPoll());
    RebindExactly(PollOnce(x, FailingPoll()), Again(crc, floats));
  }

  lemma FailsOnce(crc: Checksum, floats: M.Floats, x: Owner) returns (steps: seq<Step>, y: Owner)
    requires AboutToStart(crc, floats, x) && Alive(x)
    ensures Fair(steps) && Life(x, steps) == y && Alive(y)
    ensures y.status == HasFailed && y.failure == IoError && Bookkeeping(x, y)
  {
    steps, y := [Polled(FailingPoll())], PollOnce(x, FailingPoll());
    PollFails(crc, floats, x, FailingPoll());
    PolledOnce(x, FailingPoll());
    LifeKeepsAlive(x, steps);
  }

  lemma RebindStep(crc: Checksum, floats: M.Floats, y: Owner) returns (step: Step, z: Owner)
    requires Runnable(y) && Alive(y) && y.status == HasFailed && y.failure == IoError && y.snapshot == SNAPSHOT
    requires y.metrics.rebindings == 0 && y.config.deadline.None? && y.config.maxRebindings == 1
    ensures Fair([step]) && Sane(step) && Advance(y, step) == z
    ensures Alive(z) && AboutToStart(crc, floats, z) && z.metrics.rebindings == 1
  {
    Starts(crc, floats);
    IsReboundOnce(crc, floats, y);
    RebindKeepsAlive(y, Again(crc, floats));
    step, z := Replaced(Again(crc, floats)), Rebind(y, Again(crc, floats)).1;
  }

  lemma PollKeepsRebindings(y: Owner, p: Poll)
    requires Runnable(y)
    ensures PollOnce(y, p).metrics.rebindings == y.metrics.rebindings
  {
  }

  lemma PollStep(y: Owner, p: Poll)
    requires Runnable(y)
    ensures Fair([Polled(p)]) && Advance(y, Polled(p)) == PollOnce(y, p)
  {
  }

  lemma CompletingStep(crc: Checksum, floats: M.Floats, y: Owner, p: Poll) returns (step: Step, z: Owner)
    requires AboutToStart(crc, floats, y) && IsOnePoll(crc, p)
    ensures Fair([step]) && Sane(step) && Advance(y, step) == z
    ensures z.status == AllComplete && z.metrics.rebindings == y.metrics.rebindings
  {
    PollCompletes(crc, floats, y, p);
    PollKeepsRebindings(y, p);
    PollStep(y, p);
    step, z := Polled(p), PollOnce(y, p);
  }

  lemma FairGrows(steps: seq<Step>, step: Step)
    requires Fair(steps) && Fair([step])
    ensures Fair(steps + [step])
  {
    assert [step][0] == step;
  }

  /** There is a life that fails, is rebound once, which is all it is allowed, and then completes. */
  lemma SomeLifeIsRebound(crc: Checksum, floats: M.Floats) returns (x: Owner, steps: seq<Step>)
    ensures Alive(x) && Runnable(x) && x.status == Running && x.config.maxRebindings == 1
    ensures Fair(steps) && Life(x, steps).status == AllComplete && Life(x, steps).metrics.rebindings == 1
  {
    Starts(crc, floats);
    x := First(crc, floats);
    var failed, y := FailsOnce(crc, floats, x);
    var rebind, z := RebindStep(crc, floats, y);
    FairGrows(failed, rebind);
    var again := failed + [rebind];
    assert again[..|again| - 1] == failed;
    LifeGrows(x, again, y);
    var complete, last := CompletingStep(crc, floats, z, OnePoll(crc));
    FairGrows(again, complete);
    steps := again + [complete];
    assert steps[..|steps| - 1] == again;
    LifeGrows(x, steps, z);
  }
}
