/** One sender per tablet around one coordinator: every terminal outcome is published at most once. */
module Execution {
  import opened Common
  import opened ResponseFrames
  import opened RequestFrames
  import opened GroupedStreams
  import opened Retry
  import opened GroupedSender
  import C = Coordinator
  import M = Moments

  datatype Slot = Slot(dispatch: Dispatch, sender: Sender<seq<Payload>>, resultDelivered: bool, failureDelivered: bool) {
    function Tablet(): Uuid {
      dispatch.tabletId
    }
  }

  datatype State = State(source: NodeId, slots: seq<Slot>, coordinator: C.State)

  /** What the coordinator was told, and what it answered. */
  datatype Call =
    | Offered(tablet: Uuid, payload: Payload, answer: StatusCode)
    | GaveUp(tablet: Uuid, code: StatusCode, answer: StatusCode)

  // ---- Publishing a terminal sender ----

  datatype Delivery = Delivery(answer: StatusCode, coordinator: C.State, calls: seq<Call>)

  function Deliver(c: C.State, tablet: Uuid, ps: seq<Payload>): Delivery
    decreases |ps|
  {
    if ps == [] then Delivery(Ok, c, [])
    else
      var (answer, next) := C.Offer(c, ps[0]);
      var call := Offered(tablet, ps[0], answer);
      if answer == Ok then
        var rest := Deliver(next, tablet, ps[1..]);
        rest.(calls := [call] + rest.calls)
      else
        var (reply, failed) := C.WorkerFailed(next, tablet, answer);
        Delivery(answer, failed, [call, GaveUp(tablet, answer, reply)])
  }

  datatype Published = Published(answer: StatusCode, slot: Slot, coordinator: C.State, calls: seq<Call>)

  function Publish(slot: Slot, c: C.State): Published
    requires Retry.Sound(slot.sender)
  {
    if slot.sender.phase == Succeeded && !slot.resultDelivered then
      var d := Deliver(c, slot.Tablet(), slot.sender.result.value);
      Published(d.answer, if d.answer == Ok then slot.(resultDelivered := true) else slot.(failureDelivered := true),
                d.coordinator, d.calls)
    else if slot.sender.phase == Exhausted && !slot.failureDelivered then
      var code := slot.sender.lastStatus.GetOr(Internal);
      var (answer, next) := C.WorkerFailed(c, slot.Tablet(), code);
      Published(answer, if answer == Ok then slot.(failureDelivered := true) else slot, next,
                [GaveUp(slot.Tablet(), code, answer)])
    else Published(Ok, slot, c, [])
  }

  // ---- The three operations, on a slot index ----

  datatype Outcome = Outcome(answer: StatusCode, state: State, calls: seq<Call>)

  function IdentityAt(x: State, i: nat): Identity
    requires i < |x.slots|
  {
    SenderIdentity(x.source, x.slots[i].dispatch)
  }

  function WithSender(x: State, i: nat, sender: Sender<seq<Payload>>): State
    requires i < |x.slots|
  {
    x.(slots := x.slots[i := x.slots[i].(sender := sender)])
  }

  function BeginSlot(x: State, i: nat, now: Time): (Result<nat>, State)
    requires i < |x.slots| && Retry.Sound(x.slots[i].sender)
  {
    var (r, sender) := Begin(x.slots[i].sender, now);
    (r, WithSender(x, i, sender))
  }

  /** After a sender took an event: an error goes straight back, otherwise its terminal state is published. */
  function Settle(x: State, i: nat, taken: (StatusCode, Sender<seq<Payload>>)): Outcome
    requires i < |x.slots| && Retry.Sound(taken.1)
  {
    if taken.0 != Ok then Outcome(taken.0, WithSender(x, i, taken.1), [])
    else
      var p := Publish(x.slots[i].(sender := taken.1), x.coordinator);
      Outcome(p.answer, x.(slots := x.slots[i := p.slot], coordinator := p.coordinator), p.calls)
  }

  function RespondSlot(x: State, i: nat, rs: seq<Response>, now: Time): Outcome
    requires i < |x.slots| && Retry.Sound(x.slots[i].sender)
  {
    ApplyKeepsSound(x.slots[i].sender, ResolveAt(Judge(IdentityAt(x, i), rs), now));
    Settle(x, i, Resolve(x.slots[i].sender, Judge(IdentityAt(x, i), rs), now))
  }

  function FailSlot(x: State, i: nat, code: StatusCode, now: Time): Outcome
    requires i < |x.slots| && Retry.Sound(x.slots[i].sender)
  {
    ApplyKeepsSound(x.slots[i].sender, FailAt(code, now));
    Settle(x, i, TransportFailed(x.slots[i].sender, code, now))
  }

  // ---- The invariant ----

  function CanonicalAll(ps: seq<Payload>): seq<Payload> {
    seq(|ps|, i requires 0 <= i < |ps| => CanonicalPayload(ps[i]))
  }

  /** What one slot and the coordinator know of each other. */
  predicate Agrees(source: NodeId, slot: Slot, c: C.State) {
    && Retry.Sound(slot.sender) && slot.Tablet() in c.fragments && slot.dispatch.queryId == c.queryId
    && (slot.sender.result.Some? ==>
          CompleteStream(SenderIdentity(source, slot.dispatch), slot.sender.result.value))
    && var pr := c.fragments[slot.Tablet()];
    && (slot.resultDelivered ==>
          slot.sender.phase == Succeeded && pr.messages == CanonicalAll(slot.sender.result.value) && pr.terminal)
    && (!slot.resultDelivered && !Live(slot.sender.phase) ==> c.failure != Ok && !pr.terminal)
    && (Live(slot.sender.phase) ==> !slot.failureDelivered && pr.messages == [] && !pr.terminal)
    && (slot.sender.phase == Exhausted ==> pr.messages == [])
  }

  ghost predicate Sound(x: State) {
    && C.Sound(x.coordinator)
    && (forall i, j :: 0 <= i < j < |x.slots| ==> x.slots[i].Tablet() != x.slots[j].Tablet())
    && (forall i :: 0 <= i < |x.slots| ==> Agrees(x.source, x.slots[i], x.coordinator))
  }

  // ---- What a delivery does ----

  /** `calls` offers `ps` in order: all accepted, or an accepted prefix, one refusal and the report of it. */
  predicate OfferedInOrder(tablet: Uuid, ps: seq<Payload>, calls: seq<Call>, complete: bool) {
    exists k :: 0 <= k <= |ps| && OfferedUpTo(tablet, ps, calls, complete, k)
  }

  predicate OfferedUpTo(tablet: Uuid, ps: seq<Payload>, calls: seq<Call>, complete: bool, k: nat)
    requires k <= |ps|
  {
    && |calls| == (if complete then k else k + 2)
    && (complete <==> k == |ps|)
    && (forall j :: 0 <= j < k ==> calls[j] == Offered(tablet, ps[j], Ok))
    && (!complete ==>
          && calls[k].Offered? && calls[k].tablet == tablet && calls[k].payload == ps[k] && calls[k].answer != Ok
          && calls[k + 1].GaveUp? && calls[k + 1].tablet == tablet && calls[k + 1].code == calls[k].answer)
  }

  lemma {:induction false} DeliverOffersInOrder(c: C.State, tablet: Uuid, ps: seq<Payload>)
    ensures
      var d := Deliver(c, tablet, ps);
      OfferedInOrder(tablet, ps, d.calls, d.answer == Ok)
    decreases |ps|
  {
    var d := Deliver(c, tablet, ps);
    if ps == [] {
      assert OfferedUpTo(tablet, ps, d.calls, true, 0);
    } else {
      var (answer, next) := C.Offer(c, ps[0]);
      if answer != Ok {
        assert OfferedUpTo(tablet, ps, d.calls, false, 0);
      } else {
        DeliverOffersInOrder(next, tablet, ps[1..]);
        var rest := Deliver(next, tablet, ps[1..]);
        var k :| 0 <= k <= |ps[1..]| && OfferedUpTo(tablet, ps[1..], rest.calls, rest.answer == Ok, k);
        assert OfferedUpTo(tablet, ps, d.calls, d.answer == Ok, k + 1);
      }
    }
  }

  /** From `c` to `d` nothing changed but one tablet's fragment, and a latched failure stayed latched. */
  ghost predicate OnlyAt(c: C.State, d: C.State, tablet: Uuid) {
    && d.queryId == c.queryId && d.order == c.order && d.fragments.Keys == c.fragments.Keys
    && (forall t :: t in c.fragments && t != tablet ==> d.fragments[t] == c.fragments[t])
    && (c.failure != Ok ==> d.failure == c.failure)
    && C.Sound(d)
  }

  lemma OfferOnlyAt(c: C.State, p: Payload)
    requires C.Sound(c)
    ensures OnlyAt(c, C.Offer(c, p).1, p.TabletId())
  {
    C.OfferKeepsSound(c, p);
  }

  lemma ReportLatches(c: C.State, tablet: Uuid, code: StatusCode)
    requires C.Sound(c) && tablet in c.fragments && !c.fragments[tablet].terminal && code != Ok
    ensures
      var d := C.WorkerFailed(c, tablet, code).1;
      OnlyAt(c, d, tablet) && d.failure != Ok && d.fragments == c.fragments
  {
  }

  /** `k` messages of the complete stream `all` are retained. */
  ghost predicate Holds(c: C.State, id: Identity, all: seq<Payload>, k: nat) {
    && C.Sound(c) && id.tabletId in c.fragments && k <= |all|
    && c.fragments[id.tabletId].messages == CanonicalAll(all[..k])
    && (c.fragments[id.tabletId].terminal <==> k == |all|)
  }

  lemma HoldsOneMore(c: C.State, next: C.State, id: Identity, all: seq<Payload>, k: nat)
    requires Holds(c, id, all, k) && k < |all| && InPlace(id, all[k], k, |all|)
    requires C.Sound(next) && id.tabletId in next.fragments
    requires next.fragments[id.tabletId].messages == c.fragments[id.tabletId].messages + [CanonicalPayload(all[k])]
    requires next.fragments[id.tabletId].terminal == all[k].Closes()
    ensures Holds(next, id, all, k + 1)
  {
  }

  lemma OfferHolds(c: C.State, id: Identity, all: seq<Payload>, k: nat)
    requires k < |all| && InPlace(id, all[k], k, |all|) && Holds(c, id, all, k)
    ensures
      var (answer, next) := C.Offer(c, all[k]);
      && OnlyAt(c, next, id.tabletId)
      && (answer == Ok ==> next.failure == c.failure && Holds(next, id, all, k + 1))
      && (answer != Ok ==> next == c)
  {
    var p := all[k];
    OfferOnlyAt(c, p);
    C.OfferKeepsSound(c, p);
    C.OfferRetains(c, p);
    if C.Offer(c, p).0 == Ok {
      HoldsOneMore(c, C.Offer(c, p).1, id, all, k);
    }
  }

  /** What a delivery leaves behind. */
  ghost predicate Delivers(c: C.State, id: Identity, all: seq<Payload>, d: Delivery) {
    && OnlyAt(c, d.coordinator, id.tabletId) && id.tabletId in d.coordinator.fragments
    && (d.answer == Ok ==> d.coordinator.failure == c.failure && Holds(d.coordinator, id, all, |all|))
    && (d.answer != Ok ==> d.coordinator.failure != Ok && !d.coordinator.fragments[id.tabletId].terminal)
  }

  lemma DeliversAfter(c: C.State, next: C.State, id: Identity, all: seq<Payload>, d: Delivery, calls: seq<Call>)
    requires OnlyAt(c, next, id.tabletId) && next.failure == c.failure && Delivers(next, id, all, d)
    ensures Delivers(c, id, all, d.(calls := calls))
  {
  }

  /** The rest of a complete stream, offered to a fragment that holds its beginning. */
  lemma {:induction false} DeliverRest(c: C.State, id: Identity, all: seq<Payload>, k: nat)
    requires CompleteStream(id, all) && Holds(c, id, all, k)
    ensures Delivers(c, id, all, Deliver(c, id.tabletId, all[k..]))
    decreases |all| - k
  {
    if k < |all| {
      var rest := all[k..];
      assert rest[0] == all[k] && rest[1..] == all[k + 1..];
      assert InPlace(id, all[k], k, |all|);
      OfferHolds(c, id, all, k);
      var (answer, next) := C.Offer(c, all[k]);
      if answer == Ok {
        DeliverRest(next, id, all, k + 1);
        DeliversAfter(c, next, id, all, Deliver(next, id.tabletId, all[k + 1..]), Deliver(c, id.tabletId, rest).calls);
      } else {
        ReportLatches(next, id.tabletId, answer);
      }
    }
  }

  /** Publishing keeps the slot and the coordinator in agreement and touches no other tablet. */
  lemma PublishAgrees(source: NodeId, slot: Slot, c: C.State)
    requires C.Sound(c) && slot.Tablet() in c.fragments && slot.dispatch.queryId == c.queryId
    requires Retry.Sound(slot.sender) && !slot.resultDelivered && !slot.failureDelivered
    requires slot.sender.result.Some? ==> CompleteStream(SenderIdentity(source, slot.dispatch), slot.sender.result.value)
    requires c.fragments[slot.Tablet()].messages == [] && !c.fragments[slot.Tablet()].terminal
    ensures
      var p := Publish(slot, c);
      && OnlyAt(c, p.coordinator, slot.Tablet())
      && Agrees(source, p.slot, p.coordinator)
      && p.slot.dispatch == slot.dispatch && p.slot.sender == slot.sender
  {
    if slot.sender.phase == Succeeded {
      var id, ps := SenderIdentity(source, slot.dispatch), slot.sender.result.value;
      assert ps[..0] == [] && ps[0..] == ps && ps[..|ps|] == ps;
      DeliverRest(c, id, ps, 0);
    } else if slot.sender.phase == Exhausted {
      ReportLatches(c, slot.Tablet(), slot.sender.lastStatus.value);
    }
  }

  /** Only slot `i` and its fragment changed. */
  ghost predicate OnlySlot(x: State, y: State, i: nat)
    requires i < |x.slots|
  {
    && y.source == x.source && |y.slots| == |x.slots| && y.slots[i].dispatch == x.slots[i].dispatch
    && (forall j :: 0 <= j < |x.slots| && j != i ==> y.slots[j] == x.slots[j])
    && OnlyAt(x.coordinator, y.coordinator, x.slots[i].Tablet())
  }

  lemma OnlySlotKeepsSound(x: State, y: State, i: nat)
    requires Sound(x) && i < |x.slots| && OnlySlot(x, y, i) && Agrees(y.source, y.slots[i], y.coordinator)
    ensures Sound(y)
  {
    forall j | 0 <= j < |y.slots|
      ensures Agrees(y.source, y.slots[j], y.coordinator) && y.slots[j].Tablet() == x.slots[j].Tablet()
    {
      assert Agrees(x.source, x.slots[j], x.coordinator);
      assert j < i || j == i || i < j;
    }
  }

  /** Beginning an attempt moves a live sender to waiting, or changes nothing. */
  lemma BeginStaysLive<R>(s: Sender<R>, now: Time)
    requires Retry.Sound(s)
    ensures Retry.Sound(Begin(s, now).1) && Begin(s, now).1.result == s.result
    ensures Begin(s, now).0.Failure? ==> Begin(s, now).1 == s
    ensures Begin(s, now).0.Success? ==> Live(s.phase) && Begin(s, now).1.phase == Waiting
  {
  }

  lemma LiveSenderAgrees(source: NodeId, slot: Slot, c: C.State, sender: Sender<seq<Payload>>)
    requires Agrees(source, slot, c) && Live(slot.sender.phase)
    requires Retry.Sound(sender) && Live(sender.phase)
    ensures Agrees(source, slot.(sender := sender), c)
  {
  }

  lemma BeginKeepsSound(x: State, i: nat, now: Time)
    requires Sound(x) && i < |x.slots|
    ensures Sound(BeginSlot(x, i, now).1) && OnlySlot(x, BeginSlot(x, i, now).1, i)
  {
    assert Agrees(x.source, x.slots[i], x.coordinator);
    BeginStaysLive(x.slots[i].sender, now);
    if Begin(x.slots[i].sender, now).0.Success? {
      LiveSenderAgrees(x.source, x.slots[i], x.coordinator, Begin(x.slots[i].sender, now).1);
    }
    OnlySlotKeepsSound(x, BeginSlot(x, i, now).1, i);
  }

  /** An event a sender may take: refused without effect, or taken out of the waiting phase. */
  predicate Takes(x: State, i: nat, taken: (StatusCode, Sender<seq<Payload>>))
    requires i < |x.slots|
  {
    && Retry.Sound(taken.1)
    && (taken.0 != Ok ==> taken.1 == x.slots[i].sender)
    && (taken.0 == Ok ==> x.slots[i].sender.phase == Waiting && taken.1.phase != Waiting && taken.1.phase != Ready)
    && (taken.1.result.Some? ==> CompleteStream(IdentityAt(x, i), taken.1.result.value))
  }

  lemma RespondTakes(x: State, i: nat, rs: seq<Response>, now: Time)
    requires Sound(x) && i < |x.slots|
    ensures Takes(x, i, Resolve(x.slots[i].sender, Judge(IdentityAt(x, i), rs), now))
  {
    assert Agrees(x.source, x.slots[i], x.coordinator);
    var verdict := Judge(IdentityAt(x, i), rs);
    ApplySteps(x.slots[i].sender, ResolveAt(verdict, now));
    if verdict.Delivered? {
      DeliveredIsComplete(IdentityAt(x, i), rs);
    }
  }

  lemma FailTakes(x: State, i: nat, code: StatusCode, now: Time)
    requires Sound(x) && i < |x.slots|
    ensures Takes(x, i, TransportFailed(x.slots[i].sender, code, now))
  {
    assert Agrees(x.source, x.slots[i], x.coordinator);
    ApplySteps(x.slots[i].sender, FailAt(code, now));
  }

  lemma SettleKeepsSound(x: State, i: nat, taken: (StatusCode, Sender<seq<Payload>>))
    requires Sound(x) && i < |x.slots| && Takes(x, i, taken)
    ensures
      var out := Settle(x, i, taken);
      && Sound(out.state) && OnlySlot(x, out.state, i)
      && out.state.slots[i].sender == taken.1
  {
    assert Agrees(x.source, x.slots[i], x.coordinator);
    var out := Settle(x, i, taken);
    if taken.0 == Ok {
      PublishAgrees(x.source, x.slots[i].(sender := taken.1), x.coordinator);
    }
    OnlySlotKeepsSound(x, out.state, i);
  }

  // ---- The coordinator's log ----

  function CallsOf(log: seq<Call>, tablet: Uuid): seq<Call> {
    if log == [] then []
    else
      var rest := CallsOf(log[..|log| - 1], tablet);
      if log[|log| - 1].tablet == tablet then rest + [log[|log| - 1]] else rest
  }

  lemma {:induction false} CallsOfAppend(log: seq<Call>, more: seq<Call>, tablet: Uuid)
    ensures CallsOf(log + more, tablet) == CallsOf(log, tablet) + CallsOf(more, tablet)
  {
    if more == [] {
      assert log + more == log;
    } else {
      var all, init := log + more, more[..|more| - 1];
      assert all[..|all| - 1] == log + init;
      assert all[|all| - 1] == more[|more| - 1];
      CallsOfAppend(log, init, tablet);
    }
  }

  lemma {:induction false} CallsOfOne(calls: seq<Call>, own: Uuid, tablet: Uuid)
    requires forall k :: 0 <= k < |calls| ==> calls[k].tablet == own
    ensures CallsOf(calls, tablet) == if tablet == own then calls else []
  {
    if calls != [] {
      var init := calls[..|calls| - 1];
      CallsOfOne(init, own, tablet);
      assert init + [calls[|calls| - 1]] == calls;
    }
  }

  /**
   The whole story of one tablet: silence while its sender lives; its stream offered in order, to the
   end or to the first refusal; or one report of a sender that gave up.
   */
  predicate Story(slot: Slot, calls: seq<Call>)
    requires slot.sender.phase == Succeeded ==> slot.sender.result.Some?
    requires slot.sender.phase == Exhausted ==> slot.sender.lastStatus.Some?
  {
    match slot.sender.phase
    case Succeeded => OfferedInOrder(slot.Tablet(), slot.sender.result.value, calls, slot.resultDelivered)
    case Exhausted =>
      && |calls| == 1 && calls[0].GaveUp? && calls[0].tablet == slot.Tablet()
      && calls[0].code == slot.sender.lastStatus.value
    case _ => calls == []
  }

  ghost predicate Stories(x: State, log: seq<Call>)
    requires Sound(x)
  {
    forall i :: 0 <= i < |x.slots| ==>
      Agrees(x.source, x.slots[i], x.coordinator) && Story(x.slots[i], CallsOf(log, x.slots[i].Tablet()))
  }

  lemma PublishTellsStory(slot: Slot, c: C.State)
    requires Retry.Sound(slot.sender) && !slot.resultDelivered && !slot.failureDelivered
    requires slot.sender.phase != Waiting
    ensures
      var p := Publish(slot, c);
      && p.slot.sender == slot.sender && Story(p.slot, p.calls)
      && forall k :: 0 <= k < |p.calls| ==> p.calls[k].tablet == slot.Tablet()
  {
    if slot.sender.phase == Succeeded {
      var d := Deliver(c, slot.Tablet(), slot.sender.result.value);
      DeliverOffersInOrder(c, slot.Tablet(), slot.sender.result.value);
      OfferedToOne(slot.Tablet(), slot.sender.result.value, d.calls, d.answer == Ok);
    }
  }

  /** The calls one event adds: none if refused, otherwise the whole story of its slot so far. */
  lemma SettleTellsStory(x: State, i: nat, taken: (StatusCode, Sender<seq<Payload>>))
    requires Sound(x) && i < |x.slots| && Takes(x, i, taken)
    ensures
      var out := Settle(x, i, taken);
      && (forall k :: 0 <= k < |out.calls| ==> out.calls[k].tablet == x.slots[i].Tablet())
      && (taken.0 != Ok ==> out.calls == [] && out.state.slots[i] == x.slots[i])
      && (taken.0 == Ok ==> out.state.slots[i].sender == taken.1 && Story(out.state.slots[i], out.calls))
  {
    assert Agrees(x.source, x.slots[i], x.coordinator);
    if taken.0 == Ok {
      PublishTellsStory(x.slots[i].(sender := taken.1), x.coordinator);
    }
  }

  lemma OfferedToOne(tablet: Uuid, ps: seq<Payload>, calls: seq<Call>, complete: bool)
    requires OfferedInOrder(tablet, ps, calls, complete)
    ensures forall k :: 0 <= k < |calls| ==> calls[k].tablet == tablet
  {
  }

  /** How the log of one tablet grows by calls that all belong to tablet `own`. */
  lemma LogGrows(log: seq<Call>, calls: seq<Call>, own: Uuid, tablet: Uuid)
    requires forall k :: 0 <= k < |calls| ==> calls[k].tablet == own
    ensures tablet != own ==> CallsOf(log + calls, tablet) == CallsOf(log, tablet)
    ensures tablet == own && CallsOf(log, own) == [] ==> CallsOf(log + calls, tablet) == calls
    ensures calls == [] ==> CallsOf(log + calls, tablet) == CallsOf(log, tablet)
  {
    CallsOfAppend(log, calls, tablet);
    CallsOfOne(calls, own, tablet);
    assert CallsOf(log, tablet) + [] == CallsOf(log, tablet) && [] + calls == calls;
  }

  lemma StoriesGrow(x: State, y: State, i: nat, log: seq<Call>, calls: seq<Call>)
    requires Sound(x) && Stories(x, log) && i < |x.slots| && Sound(y) && OnlySlot(x, y, i)
    requires forall k :: 0 <= k < |calls| ==> calls[k].tablet == x.slots[i].Tablet()
    requires
      || (calls == [] && y.slots[i] == x.slots[i])
      || (Live(x.slots[i].sender.phase) && Agrees(y.source, y.slots[i], y.coordinator) && Story(y.slots[i], calls))
    ensures Stories(y, log + calls)
  {
    forall j | 0 <= j < |y.slots|
      ensures Agrees(y.source, y.slots[j], y.coordinator)
      ensures Story(y.slots[j], CallsOf(log + calls, y.slots[j].Tablet()))
    {
      assert Agrees(y.source, y.slots[j], y.coordinator);
      assert Story(x.slots[j], CallsOf(log, x.slots[j].Tablet()));
      LogGrows(log, calls, x.slots[i].Tablet(), x.slots[j].Tablet());
      assert j < i || j == i || i < j;
    }
  }

  lemma SettleKeepsStories(x: State, log: seq<Call>, i: nat, taken: (StatusCode, Sender<seq<Payload>>))
    requires Sound(x) && i < |x.slots| && Takes(x, i, taken) && Stories(x, log)
    ensures
      var out := Settle(x, i, taken);
      Sound(out.state) && Stories(out.state, log + out.calls)
  {
    var out := Settle(x, i, taken);
    SettleKeepsSound(x, i, taken);
    SettleTellsStory(x, i, taken);
    StoriesGrow(x, out.state, i, log, out.calls);
  }

  // ---- Runs ----

  datatype Input =
    | Start(tablet: Uuid, now: Time)
    | Answered(tablet: Uuid, responses: seq<Response>, now: Time)
    | Lost(tablet: Uuid, code: StatusCode, now: Time)

  function Find(slots: seq<Slot>, tablet: Uuid): (r: Option<nat>)
    ensures r.Some? ==> r.value < |slots| && slots[r.value].Tablet() == tablet
    ensures r.None? ==> forall i :: 0 <= i < |slots| ==> slots[i].Tablet() != tablet
  {
    if slots == [] then None
    else if slots[|slots| - 1].Tablet() == tablet then Some(|slots| - 1)
    else Find(slots[..|slots| - 1], tablet)
  }

  /** Every sender is in a reachable state: all the operations need. */
  predicate Usable(x: State) {
    forall i :: 0 <= i < |x.slots| ==> Retry.Sound(x.slots[i].sender)
  }

  lemma SoundUsable(x: State)
    requires Sound(x)
    ensures Usable(x)
  {
  }

  /** One call of the execution's public interface; an unknown tablet is refused. */
  function Take(x: State, e: Input): Outcome
    requires Usable(x)
  {
    var at := Find(x.slots, e.tablet);
    if at.None? then Outcome(InvalidArgument, x, [])
    else match e
      case Start(_, now) =>
        var (r, y) := BeginSlot(x, at.value, now);
        Outcome(if r.Success? then Ok else r.code, y, [])
      case Answered(_, rs, now) => RespondSlot(x, at.value, rs, now)
      case Lost(_, code, now) => FailSlot(x, at.value, code, now)
  }

  lemma BeginKeepsStories(x: State, log: seq<Call>, i: nat, now: Time)
    requires Sound(x) && Stories(x, log) && i < |x.slots|
    ensures Sound(BeginSlot(x, i, now).1) && Stories(BeginSlot(x, i, now).1, log)
  {
    var y := BeginSlot(x, i, now).1;
    BeginKeepsSound(x, i, now);
    assert Agrees(x.source, x.slots[i], x.coordinator) && Agrees(y.source, y.slots[i], y.coordinator);
    BeginStaysLive(x.slots[i].sender, now);
    StoriesGrow(x, y, i, log, []);
    assert log + [] == log;
  }

  lemma RespondKeepsStories(x: State, log: seq<Call>, i: nat, rs: seq<Response>, now: Time)
    requires Sound(x) && Stories(x, log) && i < |x.slots| && Retry.Sound(x.slots[i].sender)
    ensures
      var out := RespondSlot(x, i, rs, now);
      Sound(out.state) && Stories(out.state, log + out.calls) && OnlySlot(x, out.state, i)
  {
    RespondTakes(x, i, rs, now);
    var taken := Resolve(x.slots[i].sender, Judge(IdentityAt(x, i), rs), now);
    SettleKeepsSound(x, i, taken);
    SettleKeepsStories(x, log, i, taken);
  }

  lemma FailKeepsStories(x: State, log: seq<Call>, i: nat, code: StatusCode, now: Time)
    requires Sound(x) && Stories(x, log) && i < |x.slots| && Retry.Sound(x.slots[i].sender)
    ensures
      var out := FailSlot(x, i, code, now);
      Sound(out.state) && Stories(out.state, log + out.calls) && OnlySlot(x, out.state, i)
  {
    FailTakes(x, i, code, now);
    var taken := TransportFailed(x.slots[i].sender, code, now);
    SettleKeepsSound(x, i, taken);
    SettleKeepsStories(x, log, i, taken);
  }

  /** Slots other than `i` stay, and slot `i` keeps its dispatch. */
  predicate SlotOnly(x: State, y: State, i: nat)
    requires i < |x.slots|
  {
    && y.source == x.source && |y.slots| == |x.slots| && y.slots[i].dispatch == x.slots[i].dispatch
    && (forall j :: 0 <= j < |x.slots| && j != i ==> y.slots[j] == x.slots[j])
  }

  lemma SettleShape(x: State, i: nat, taken: (StatusCode, Sender<seq<Payload>>))
    requires i < |x.slots| && Retry.Sound(taken.1)
    ensures
      var out := Settle(x, i, taken);
      && SlotOnly(x, out.state, i) && out.state.slots[i].sender == taken.1
      && (out.answer == Ok ==> taken.0 == Ok)
  {
  }

  /** A lost attempt of a waiting sender always leads out of waiting, on the same attempt count. */
  lemma FailSlotShape(x: State, i: nat, code: StatusCode, now: Time)
    requires i < |x.slots| && code != Ok
    requires Retry.Sound(x.slots[i].sender) && x.slots[i].sender.phase == Waiting
    ensures
      var out := FailSlot(x, i, code, now);
      && SlotOnly(x, out.state, i)
      && var t := out.state.slots[i].sender;
      && Retry.Sound(t) && t.attempts == x.slots[i].sender.attempts && (t.phase == Backoff || t.phase == Exhausted)
  {
    ApplyKeepsSound(x.slots[i].sender, FailAt(code, now));
    SettleShape(x, i, TransportFailed(x.slots[i].sender, code, now));
  }

  lemma ResolveShape<R>(s: Sender<R>, verdict: Verdict<R>, now: Time)
    requires Retry.Sound(s) && s.phase == Waiting
    ensures
      var (answer, t) := Resolve(s, verdict, now);
      && Retry.Sound(t) && t.attempts == s.attempts && t.phase != Ready
      && (answer == Ok ==> t.phase != Waiting)
      && (t.phase == Succeeded ==> t.result.Some? && verdict == Delivered(t.result.value))
  {
    ApplyKeepsSound(s, ResolveAt(verdict, now));
  }

  /** A response stream for a waiting sender: accepted ones lead out of waiting, and success names its stream. */
  lemma RespondSlotShape(x: State, i: nat, rs: seq<Response>, now: Time)
    requires i < |x.slots| && Retry.Sound(x.slots[i].sender) && x.slots[i].sender.phase == Waiting
    ensures
      var out := RespondSlot(x, i, rs, now);
      && SlotOnly(x, out.state, i)
      && var t := out.state.slots[i].sender;
      && Retry.Sound(t) && t.attempts == x.slots[i].sender.attempts && t.phase != Ready
      && (out.answer == Ok ==> t.phase != Waiting)
      && (t.phase == Succeeded ==> t.result.Some? && Judge(IdentityAt(x, i), rs) == Delivered(t.result.value))
  {
    var verdict := Judge(IdentityAt(x, i), rs);
    ResolveShape(x.slots[i].sender, verdict, now);
    SettleShape(x, i, Resolve(x.slots[i].sender, verdict, now));
  }

  lemma TakeKeepsStories(x: State, log: seq<Call>, e: Input)
    requires Sound(x) && Stories(x, log) && Usable(x)
    ensures Sound(Take(x, e).state) && Stories(Take(x, e).state, log + Take(x, e).calls)
  {
    var at := Find(x.slots, e.tablet);
    assert log + [] == log;
    if at.Some? {
      match e
      case Start(_, now) => BeginKeepsStories(x, log, at.value, now);
      case Answered(_, rs, now) => RespondKeepsStories(x, log, at.value, rs, now);
      case Lost(_, code, now) => FailKeepsStories(x, log, at.value, code, now);
    }
  }

  ghost function Run(x: State, inputs: seq<Input>): (State, seq<Call>)
    requires Sound(x) && Stories(x, [])
    ensures Sound(Run(x, inputs).0) && Stories(Run(x, inputs).0, Run(x, inputs).1)
  {
    if inputs == [] then (x, [])
    else
      var (y, log) := Run(x, inputs[..|inputs| - 1]);
      var e := inputs[|inputs| - 1];
      SoundUsable(y);
      TakeKeepsStories(y, log, e);
      (Take(y, e).state, log + Take(y, e).calls)
  }

  // ---- New executions ----

  datatype Snapshot = Snapshot(databaseId: Uuid, generation: U64, dispatches: seq<Dispatch>)

  datatype Settings = Settings(retry: Limits, maxPerFragment: nat, maxTotal: nat, floats: M.Floats)

  function Tablets(dispatches: seq<Dispatch>): seq<Uuid> {
    seq(|dispatches|, i requires 0 <= i < |dispatches| => dispatches[i].tabletId)
  }

  predicate Admissible(encode: Request -> Result<Bytes>, source: NodeId, snapshot: Snapshot, settings: Settings) {
    var ds := snapshot.dispatches;
    && source != 0 && ds != []
    && (forall i :: 0 <= i < |ds| ==>
          && ds[i].queryId == ds[0].queryId && ds[i].databaseId == snapshot.databaseId
          && ds[i].snapshotGeneration == snapshot.generation
          && Acceptable(source, ds[i], settings.retry) && encode(RequestOf(source, ds[i])).Success?)
    && C.ValidLimits(ds[0].queryId, settings.maxPerFragment, settings.maxTotal, Tablets(ds))
  }

  function NewExecution(source: NodeId, snapshot: Snapshot, settings: Settings): State
    requires snapshot.dispatches != []
  {
    var ds := snapshot.dispatches;
    State(source, seq(|ds|, i requires 0 <= i < |ds| => Slot(ds[i], Initial(settings.retry), false, false)),
          C.Create(settings.floats, ds[0].queryId, settings.maxPerFragment, settings.maxTotal, Tablets(ds)))
  }

  lemma NewIsSound(encode: Request -> Result<Bytes>, source: NodeId, snapshot: Snapshot, settings: Settings)
    requires Admissible(encode, source, snapshot, settings)
    ensures
      var x := NewExecution(source, snapshot, settings);
      Sound(x) && Stories(x, [])
  {
    var ds, x := snapshot.dispatches, NewExecution(source, snapshot, settings);
    C.CreateSound(settings.floats, ds[0].queryId, settings.maxPerFragment, settings.maxTotal, Tablets(ds));
    InitialSound<seq<Payload>>(settings.retry);
    forall i | 0 <= i < |x.slots|
      ensures Agrees(source, x.slots[i], x.coordinator)
    {
      assert Tablets(ds)[i] == x.slots[i].Tablet();
    }
    forall i, j | 0 <= i < j < |x.slots|
      ensures x.slots[i].Tablet() != x.slots[j].Tablet()
    {
      assert Tablets(ds)[i] != Tablets(ds)[j];
    }
  }

  /**
   Over every run from a quiet start each tablet's calls are: nothing, its sender's whole stream, an
   accepted prefix with one refusal and one report, or one report alone. No sequence number is offered
   twice, and nothing follows a report.
   */
  lemma AtMostOnce(x: State, inputs: seq<Input>, i: nat)
    requires Sound(x) && Stories(x, []) && i < |x.slots|
    ensures
      var (y, log) := Run(x, inputs);
      && i < |y.slots| && Agrees(y.source, y.slots[i], y.coordinator) && y.slots[i].dispatch == x.slots[i].dispatch
      && var calls := CallsOf(log, x.slots[i].Tablet());
      && Story(y.slots[i], calls)
      && (forall a, b :: 0 <= a < b < |calls| && calls[a].Offered? && calls[b].Offered? ==>
            calls[a].payload.Sequence() < calls[b].payload.Sequence())
      && (forall a :: 0 <= a && a + 1 < |calls| ==> calls[a].Offered?)
  {
    RunKeepsDispatches(x, inputs);
    var (y, log) := Run(x, inputs);
    assert Agrees(y.source, y.slots[i], y.coordinator);
    StoryIsOnce(y.source, y.slots[i], y.coordinator, CallsOf(log, y.slots[i].Tablet()));
  }

  lemma StoryIsOnce(source: NodeId, slot: Slot, c: C.State, calls: seq<Call>)
    requires Agrees(source, slot, c) && Story(slot, calls)
    ensures forall a, b :: 0 <= a < b < |calls| && calls[a].Offered? && calls[b].Offered? ==>
      calls[a].payload.Sequence() < calls[b].payload.Sequence()
    ensures forall a :: 0 <= a && a + 1 < |calls| ==> calls[a].Offered?
  {
  }

  lemma {:induction false} RunKeepsDispatches(x: State, inputs: seq<Input>)
    requires Sound(x) && Stories(x, [])
    ensures
      var y := Run(x, inputs).0;
      |y.slots| == |x.slots| && forall i :: 0 <= i < |x.slots| ==> y.slots[i].dispatch == x.slots[i].dispatch
  {
    if inputs != [] {
      var init, e := inputs[..|inputs| - 1], inputs[|inputs| - 1];
      RunKeepsDispatches(x, init);
      SoundUsable(Run(x, init).0);
      TakeKeepsDispatches(Run(x, init).0, e);
    }
  }

  /** Every call leaves the slots, their order and their dispatches in place. */
  lemma TakeKeepsDispatches(x: State, e: Input)
    requires Usable(x)
    ensures
      var y := Take(x, e).state;
      && Usable(y) && y.source == x.source && |y.slots| == |x.slots|
      && forall i :: 0 <= i < |x.slots| ==> y.slots[i].dispatch == x.slots[i].dispatch
  {
    var at := Find(x.slots, e.tablet);
    if at.Some? {
      var i := at.value;
      match e
      case Start(_, now) => BeginStaysLive(x.slots[i].sender, now);
      case Answered(_, rs, now) =>
        ApplyKeepsSound(x.slots[i].sender, ResolveAt(Judge(IdentityAt(x, i), rs), now));
        SettleShape(x, i, Resolve(x.slots[i].sender, Judge(IdentityAt(x, i), rs), now));
      case Lost(_, code, now) =>
        ApplyKeepsSound(x.slots[i].sender, FailAt(code, now));
        SettleShape(x, i, TransportFailed(x.slots[i].sender, code, now));
    }
  }
}
