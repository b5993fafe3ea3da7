/** The execution object: its vectors, its tablet index and its coordinator, updated in place. */
module GroupedExecution {
  import opened Common
  import opened ResponseFrames
  import opened RequestFrames
  import opened GroupedStreams
  import opened Retry
  import opened GroupedSender
  import opened Execution
  import C = Coordinator

  /** `indexes` finds exactly the slots, each under its own tablet. */
  ghost predicate Indexes(indexes: map<Uuid, nat>, slots: seq<Slot>) {
    && (forall t :: t in indexes ==> indexes[t] < |slots| && slots[indexes[t]].Tablet() == t)
    && (forall i :: 0 <= i < |slots| ==> slots[i].Tablet() in indexes && indexes[slots[i].Tablet()] == i)
  }

  lemma IndexFinds(indexes: map<Uuid, nat>, slots: seq<Slot>, tablet: Uuid)
    requires Indexes(indexes, slots)
    ensures Find(slots, tablet) == if tablet in indexes then Some(indexes[tablet]) else None
  {
  }

  /** Every slot's request was seen to encode. */
  ghost predicate Encodes(encode: Request -> Result<Bytes>, source: NodeId, slots: seq<Slot>) {
    forall i :: 0 <= i < |slots| ==> encode(RequestOf(source, slots[i].dispatch)).Success?
  }

  /** Everything the object keeps: a sound state, an exact index, and a log that tells every tablet's story. */
  ghost predicate Fits(x: State, indexes: map<Uuid, nat>, log: seq<Call>) {
    Execution.Sound(x) && Stories(x, log) && Indexes(indexes, x.slots)
  }

  /** Every call keeps it. */
  lemma TakeFits(x: State, indexes: map<Uuid, nat>, log: seq<Call>, e: Input)
    requires Fits(x, indexes, log)
    ensures Usable(x)
    ensures Fits(Take(x, e).state, indexes, log + Take(x, e).calls)
  {
    SoundUsable(x);
    TakeKeepsStories(x, log, e);
    TakeKeepsDispatches(x, e);
    SameDispatchesIndex(indexes, x.slots, Take(x, e).state.slots);
  }

  lemma SameDispatchesIndex(indexes: map<Uuid, nat>, before: seq<Slot>, after: seq<Slot>)
    requires Indexes(indexes, before) && |after| == |before|
    requires forall i :: 0 <= i < |before| ==> after[i].dispatch == before[i].dispatch
    ensures Indexes(indexes, after)
  {
  }

  lemma SameDispatchesEncode(encode: Request -> Result<Bytes>, source: NodeId, before: seq<Slot>, after: seq<Slot>)
    requires Encodes(encode, source, before) && |after| == |before|
    requires forall i :: 0 <= i < |before| ==> after[i].dispatch == before[i].dispatch
    ensures Encodes(encode, source, after)
  {
  }

  lemma StartBegins(x: State, i: nat, now: Time)
    requires Usable(x) && i < |x.slots| && Find(x.slots, x.slots[i].Tablet()) == Some(i)
    ensures
      var (r, sender) := Begin(x.slots[i].sender, now);
      var out := Take(x, Start(x.slots[i].Tablet(), now));
      && out == Outcome(if r.Success? then Ok else r.code, WithSender(x, i, sender), [])
      && (r.Success? ==> r.value == sender.attempts) && Usable(out.state)
  {
    TakeKeepsDispatches(x, Start(x.slots[i].Tablet(), now));
  }

  /** What a call at an indexed slot comes to, and that slots and dispatches stay in place. */
  lemma LostSettles(x: State, i: nat, code: StatusCode, now: Time)
    requires Usable(x) && i < |x.slots| && Find(x.slots, x.slots[i].Tablet()) == Some(i)
    ensures Retry.Sound(TransportFailed(x.slots[i].sender, code, now).1)
    ensures
      var out := Take(x, Lost(x.slots[i].Tablet(), code, now));
      && out == Settle(x, i, TransportFailed(x.slots[i].sender, code, now))
      && Usable(out.state) && |out.state.slots| == |x.slots|
      && forall j :: 0 <= j < |x.slots| ==> out.state.slots[j].dispatch == x.slots[j].dispatch
  {
    ApplyKeepsSound(x.slots[i].sender, FailAt(code, now));
    TakeKeepsDispatches(x, Lost(x.slots[i].Tablet(), code, now));
  }

  /** A delivery with the calls made before it. */
  function Logged(log: seq<Call>, d: Delivery): Delivery {
    d.(calls := log + d.calls)
  }

  lemma DeliverStep(c: C.State, log: seq<Call>, tablet: Uuid, ps: seq<Payload>, k: nat)
    requires k < |ps|
    ensures
      var (answer, next) := C.Offer(c, ps[k]);
      var said := log + [Offered(tablet, ps[k], answer)];
      Logged(log, Deliver(c, tablet, ps[k..])) ==
        if answer == Ok then Logged(said, Deliver(next, tablet, ps[k + 1..]))
        else
          var (reply, failed) := C.WorkerFailed(next, tablet, answer);
          Delivery(answer, failed, said + [GaveUp(tablet, answer, reply)])
  {
  }

  class GroupedQueryExecution {
    const encode: Request -> Result<Bytes>
    const source: NodeId
    const indexes: map<Uuid, nat>
    var senders: seq<Slot>
    var coordinator: C.State
    ghost var log: seq<Call>

    ghost function View(): State
      reads this
    {
      State(source, senders, coordinator)
    }

    ghost predicate Valid()
      reads this
    {
      Usable(View()) && Indexes(indexes, senders) && Encodes(encode, source, senders)
    }

    constructor (encode: Request -> Result<Bytes>, source: NodeId, indexes: map<Uuid, nat>, senders: seq<Slot>,
                 coordinator: C.State)
      requires Usable(State(source, senders, coordinator)) && Indexes(indexes, senders) && Encodes(encode, source, senders)
      ensures Valid() && View() == State(source, senders, coordinator) && log == []
      ensures this.indexes == indexes && this.encode == encode
    {
      this.encode, this.source, this.indexes, this.senders := encode, source, indexes, senders;
      this.coordinator, log := coordinator, [];
    }

    method BeginAttempt(tablet: Uuid, now: Time) returns (r: Result<Attempt>)
      requires Valid()
      modifies this
      ensures Valid() && log == old(log)
      ensures View() == Take(old(View()), Start(tablet, now)).state
      ensures Take(old(View()), Start(tablet, now)).answer == if r.Success? then Ok else r.code
      ensures r.Success? ==>
        && tablet in indexes && r.value.number == senders[indexes[tablet]].sender.attempts
        && var dispatch := senders[indexes[tablet]].dispatch;
        dispatch.tabletId == tablet && r.value.target == dispatch.servingNode
        && encode(RequestOf(source, dispatch)) == Success(r.value.bytes)
    {
      IndexFinds(indexes, senders, tablet);
      if tablet !in indexes {
        return Failure(InvalidArgument);
      }
      var i := indexes[tablet];
      StartBegins(View(), i, now);
      var (begun, sender) := Begin(senders[i].sender, now);
      senders := senders[i := senders[i].(sender := sender)];
      assert View() == WithSender(old(View()), i, sender);
      SameDispatchesIndex(indexes, old(senders), senders);
      SameDispatchesEncode(encode, source, old(senders), senders);
      if begun.Failure? {
        return Failure(begun.code);
      }
      r := Packed(i, begun.value);
    }

    /** The attempt as it leaves: its number, its target and the encoded request. */
    method Packed(i: nat, number: nat) returns (r: Result<Attempt>)
      requires i < |senders| && encode(RequestOf(source, senders[i].dispatch)).Success?
      ensures r.Success? && r.value.number == number && r.value.target == senders[i].dispatch.servingNode
      ensures encode(RequestOf(source, senders[i].dispatch)) == Success(r.value.bytes)
    {
      var dispatch := senders[i].dispatch;
      var bytes := encode(RequestOf(source, dispatch));
      return Success(Attempt(number, dispatch.servingNode, bytes.value));
    }

    method AcceptResponses(tablet: Uuid, responses: seq<Response>, now: Time) returns (answer: StatusCode)
      requires Valid()
      modifies this
      ensures Valid()
      ensures
        var out := Take(old(View()), Answered(tablet, responses, now));
        answer == out.answer && View() == out.state && log == old(log) + out.calls
    {
      IndexFinds(indexes, senders, tablet);
      if tablet !in indexes {
        assert log + [] == log;
        return InvalidArgument;
      }
      var i := indexes[tablet];
      TakeKeepsDispatches(View(), Answered(tablet, responses, now));
      var verdict := Judge(SenderIdentity(source, senders[i].dispatch), responses);
      ApplyKeepsSound(senders[i].sender, ResolveAt(verdict, now));
      answer := Settled(i, Resolve(senders[i].sender, verdict, now));
      SameDispatchesIndex(indexes, old(senders), senders);
      SameDispatchesEncode(encode, source, old(senders), senders);
    }

    method RecordTransportFailure(tablet: Uuid, code: StatusCode, now: Time) returns (answer: StatusCode)
      requires Valid()
      modifies this
      ensures Valid()
      ensures
        var out := Take(old(View()), Lost(tablet, code, now));
        answer == out.answer && View() == out.state && log == old(log) + out.calls
    {
      IndexFinds(indexes, senders, tablet);
      if tablet !in indexes {
        assert log + [] == log;
        return InvalidArgument;
      }
      var i := indexes[tablet];
      LostSettles(View(), i, code, now);
      answer := Settled(i, TransportFailed(senders[i].sender, code, now));
      SameDispatchesIndex(indexes, old(senders), senders);
      SameDispatchesEncode(encode, source, old(senders), senders);
    }

    /** Stores what the sender became and, if the event was taken, publishes its terminal state. */
    method Settled(i: nat, taken: (StatusCode, Sender<seq<Payload>>)) returns (answer: StatusCode)
      requires i < |senders| && Retry.Sound(taken.1)
      modifies this
      ensures
        var out := Settle(old(View()), i, taken);
        answer == out.answer && View() == out.state && log == old(log) + out.calls
    {
      senders := senders[i := senders[i].(sender := taken.1)];
      if taken.0 != Ok {
        assert log + [] == log;
        return taken.0;
      }
      answer := PublishTerminalState(i);
    }

    method PublishTerminalState(i: nat) returns (answer: StatusCode)
      requires i < |senders| && Retry.Sound(senders[i].sender)
      modifies this
      ensures
        var p := Publish(old(senders[i]), old(coordinator));
        && answer == p.answer && senders == old(senders)[i := p.slot]
        && coordinator == p.coordinator && log == old(log) + p.calls
    {
      var slot := senders[i];
      var tablet := slot.dispatch.tabletId;
      if slot.sender.phase == Succeeded && !slot.resultDelivered {
        answer := OfferAll(tablet, slot.sender.result.value);
        senders := senders[i := if answer == Ok then slot.(resultDelivered := true) else slot.(failureDelivered := true)];
      } else if slot.sender.phase == Exhausted && !slot.failureDelivered {
        var code := slot.sender.lastStatus.GetOr(Internal);
        var (reported, next) := C.WorkerFailed(coordinator, tablet, code);
        coordinator, log := next, log + [GaveUp(tablet, code, reported)];
        if reported == Ok {
          senders := senders[i := slot.(failureDelivered := true)];
        }
        answer := reported;
      } else {
        answer := Ok;
      }
    }

    method OfferAll(tablet: Uuid, payloads: seq<Payload>) returns (answer: StatusCode)
      modifies this`coordinator, this`log
      ensures
        var d := Deliver(old(coordinator), tablet, payloads);
        answer == d.answer && coordinator == d.coordinator && log == old(log) + d.calls
    {
      ghost var whole := Logged(log, Deliver(coordinator, tablet, payloads));
      var k := 0;
      assert payloads[0..] == payloads;
      while k < |payloads|
        invariant k <= |payloads| && whole == Logged(log, Deliver(coordinator, tablet, payloads[k..]))
      {
        var payload := payloads[k];
        DeliverStep(coordinator, log, tablet, payloads, k);
        var (accepted, next) := C.Offer(coordinator, payload);
        coordinator, log := next, log + [Offered(tablet, payload, accepted)];
        if accepted != Ok {
          var (reported, failed) := C.WorkerFailed(coordinator, tablet, accepted);
          coordinator, log := failed, log + [GaveUp(tablet, accepted, reported)];
          return accepted;
        }
        k := k + 1;
      }
      return Ok;
    }
  }

  /** Why a dispatch cannot be given a sender: mixed or duplicated authority, bad limits, or no encoding. */
  function Objection(encode: Request -> Result<Bytes>, source: NodeId, snapshot: Snapshot, retry: Limits, i: nat)
    : Option<FailureCode>
    requires i < |snapshot.dispatches|
  {
    var ds := snapshot.dispatches;
    var d := ds[i];
    if d.queryId != ds[0].queryId || d.databaseId != snapshot.databaseId || d.snapshotGeneration != snapshot.generation
       || (exists k :: 0 <= k < i && ds[k].tabletId == d.tabletId) || !Acceptable(source, d, retry) then Some(InvalidArgument)
    else
      var encoded := encode(RequestOf(source, d));
      if encoded.Failure? then Some(encoded.code) else None
  }

  /** The first objection raised against any dispatch. */
  ghost predicate ObjectsFirst(
    encode: Request -> Result<Bytes>, source: NodeId, snapshot: Snapshot, retry: Limits, code: FailureCode)
  {
    exists i :: 0 <= i < |snapshot.dispatches| && Objection(encode, source, snapshot, retry, i) == Some(code)
      && forall k :: 0 <= k < i ==> Objection(encode, source, snapshot, retry, k).None?
  }

  /** One slot and one index entry per dispatch, or the first objection. */
  method BuildSlots(encode: Request -> Result<Bytes>, source: NodeId, snapshot: Snapshot, settings: Settings)
    returns (r: Result<(seq<Slot>, map<Uuid, nat>)>)
    requires snapshot.dispatches != []
    ensures
      var ds := snapshot.dispatches;
      && (r.Success? <==> forall i :: 0 <= i < |ds| ==> Objection(encode, source, snapshot, settings.retry, i).None?)
      && (r.Success? ==> r.value.0 == NewExecution(source, snapshot, settings).slots && Indexes(r.value.1, r.value.0))
      && (r.Failure? ==> ObjectsFirst(encode, source, snapshot, settings.retry, r.code))
  {
    var ds := snapshot.dispatches;
    var slots: seq<Slot> := [];
    var indexes: map<Uuid, nat> := map[];
    var i := 0;
    while i < |ds|
      invariant i <= |ds| && |slots| == i && Indexes(indexes, slots)
      invariant forall k :: 0 <= k < i ==>
        slots[k] == Slot(ds[k], Initial(settings.retry), false, false)
        && Objection(encode, source, snapshot, settings.retry, k).None?
    {
      var d := ds[i];
      if d.queryId != ds[0].queryId || d.databaseId != snapshot.databaseId || d.snapshotGeneration != snapshot.generation
         || d.tabletId in indexes
      {
        assert d.tabletId in indexes ==> ds[indexes[d.tabletId]].tabletId == d.tabletId;
        assert Objection(encode, source, snapshot, settings.retry, i) == Some(InvalidArgument);
        return Failure(InvalidArgument);
      }
      assert forall k :: 0 <= k < i ==> slots[k].Tablet() == ds[k].tabletId;
      if !Acceptable(source, d, settings.retry) {
        assert Objection(encode, source, snapshot, settings.retry, i) == Some(InvalidArgument);
        return Failure(InvalidArgument);
      }
      var encoded := encode(RequestOf(source, d));
      if encoded.Failure? {
        assert Objection(encode, source, snapshot, settings.retry, i) == Some(encoded.code);
        return Failure(encoded.code);
      }
      slots, indexes := slots + [Slot(d, Initial(settings.retry), false, false)], indexes[d.tabletId := i];
      i := i + 1;
    }
    return Success((slots, indexes));
  }

  /** A query is admissible when no dispatch is objected to and the coordinator takes its tablets and limits. */
  lemma AdmissibleExactly(encode: Request -> Result<Bytes>, source: NodeId, snapshot: Snapshot, settings: Settings)
    requires source != 0 && snapshot.dispatches != []
    ensures
      var ds := snapshot.dispatches;
      Admissible(encode, source, snapshot, settings) <==>
        && (forall i :: 0 <= i < |ds| ==> Objection(encode, source, snapshot, settings.retry, i).None?)
        && C.ValidLimits(ds[0].queryId, settings.maxPerFragment, settings.maxTotal, Tablets(ds))
  {
    var ds := snapshot.dispatches;
    if C.ValidLimits(ds[0].queryId, settings.maxPerFragment, settings.maxTotal, Tablets(ds)) {
      forall i, k | 0 <= k < i < |ds|
        ensures ds[k].tabletId != ds[i].tabletId
      {
        assert Tablets(ds)[k] != Tablets(ds)[i];
      }
      forall i | 0 <= i < |ds|
        ensures Objection(encode, source, snapshot, settings.retry, i).None? <==>
          && ds[i].queryId == ds[0].queryId && ds[i].databaseId == snapshot.databaseId
          && ds[i].snapshotGeneration == snapshot.generation
          && Acceptable(source, ds[i], settings.retry) && encode(RequestOf(source, ds[i])).Success?
      {
      }
    }
  }

  method Create(encode: Request -> Result<Bytes>, source: NodeId, snapshot: Snapshot, settings: Settings)
    returns (r: Result<GroupedQueryExecution>)
    ensures r.Success? <==> Admissible(encode, source, snapshot, settings)
    ensures r.Success? ==>
      && fresh(r.value) && r.value.Valid() && Fits(r.value.View(), r.value.indexes, r.value.log)
      && r.value.View() == NewExecution(source, snapshot, settings)
    ensures r.Failure? && r.code != InvalidArgument ==>
      source != 0 && ObjectsFirst(encode, source, snapshot, settings.retry, r.code)
  {
    if source == 0 || snapshot.dispatches == [] {
      return Failure(InvalidArgument);
    }
    var ds := snapshot.dispatches;
    AdmissibleExactly(encode, source, snapshot, settings);
    var built := BuildSlots(encode, source, snapshot, settings);
    if built.Failure? {
      return Failure(built.code);
    }
    if !C.ValidLimits(ds[0].queryId, settings.maxPerFragment, settings.maxTotal, Tablets(ds)) {
      return Failure(InvalidArgument);
    }
    NewIsSound(encode, source, snapshot, settings);
    SoundUsable(NewExecution(source, snapshot, settings));
    var coordinator := C.Create(settings.floats, ds[0].queryId, settings.maxPerFragment, settings.maxTotal, Tablets(ds));
    assert Encodes(encode, source, built.value.0) by {
      forall i | 0 <= i < |ds|
        ensures encode(RequestOf(source, built.value.0[i].dispatch)).Success?
      {
        assert Objection(encode, source, snapshot, settings.retry, i).None?;
      }
    }
    var execution := new GroupedQueryExecution(encode, source, built.value.1, built.value.0, coordinator);
    return Success(execution);
  }
}
