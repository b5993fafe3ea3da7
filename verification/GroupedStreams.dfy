/**
 One protocol, three judges: the receiver that emits a response stream, the TLS client that checks it
 frame by frame, and the sender that checks it as a whole.
 */
module GroupedStreams {
  import opened Common
  import opened ExchangeFrames
  import opened ResponseFrames

  const HARD_MESSAGE_LIMIT := 65536

  /** Who asked whom for what. */
  datatype Identity = Identity(requester: NodeId, server: NodeId, queryId: Uuid, tabletId: Uuid)

  predicate Correlated(id: Identity, r: Response) {
    r.source == id.server && r.target == id.requester && r.queryId == id.queryId && r.tabletId == id.tabletId
  }

  // ---- The TLS client, one frame at a time ----

  datatype ClientState =
    | Reading(responses: seq<Response>)
    | Complete(responses: seq<Response>)
    | Failed(code: FailureCode)

  predicate TerminalResponse(r: Response) {
    r.status != Ok || (r.payload.Some? && r.payload.value.Closes())
  }

  function AcceptResponse(id: Identity, maxFrames: nat, seen: seq<Response>, r: Response): ClientState {
    if !Correlated(id, r) then Failed(Corruption)
    else if |seen| == maxFrames then Failed(ResourceExhausted)
    else if r.status == Ok && r.payload.None? then Failed(Corruption)
    else if r.status == Ok && r.payload.value.Partial? && r.payload.value.Sequence() != |seen| + 1 then Failed(Corruption)
    else if r.status == Ok && r.payload.value.EmptyTerminal? && (seen != [] || r.payload.value.Sequence() != 1) then
      Failed(Corruption)
    else if r.status != Ok && seen != [] then Failed(Corruption)
    else if TerminalResponse(r) then Complete(seen + [r])
    else Reading(seen + [r])
  }

  /** A client that stops reports corruption, unless a frame that is its own comes beyond the limit. */
  lemma AcceptFailure(id: Identity, maxFrames: nat, seen: seq<Response>, r: Response)
    ensures AcceptResponse(id, maxFrames, seen, r).Failed? ==>
      AcceptResponse(id, maxFrames, seen, r).code ==
      if |seen| == maxFrames && Correlated(id, r) then ResourceExhausted else Corruption
    ensures Correlated(id, r) && |seen| == maxFrames ==> AcceptResponse(id, maxFrames, seen, r).Failed?
  {
  }

  /** The client over a list of frames; a frame behind the closing one is a coalesced suffix. */
  function AcceptAll(id: Identity, maxFrames: nat, st: ClientState, rs: seq<Response>): ClientState
    decreases |rs|
  {
    if rs == [] then st
    else match st
      case Failed(_) => st
      case Complete(_) => Failed(Corruption)
      case Reading(seen) => AcceptAll(id, maxFrames, AcceptResponse(id, maxFrames, seen, rs[0]), rs[1..])
  }

  /** The streams the client lets through, said without its running state. */
  predicate ClientStream(id: Identity, maxFrames: nat, rs: seq<Response>) {
    && 0 < |rs| <= maxFrames
    && (forall i :: 0 <= i < |rs| ==> Correlated(id, rs[i]))
    && (rs[0].status != Ok ==> |rs| == 1)
    && (rs[0].status == Ok ==> forall i :: 0 <= i < |rs| ==> ClientFrame(rs[i], i, |rs|))
  }

  predicate ClientFrame(r: Response, i: nat, n: nat) {
    && r.status == Ok && r.payload.Some?
    && r.payload.value.Sequence() == i + 1
    && (r.payload.value.EmptyTerminal? ==> n == 1)
    && (r.payload.value.Closes() <==> i + 1 == n)
  }

  /** A prefix on which the client is still reading. */
  predicate OpenPrefix(id: Identity, maxFrames: nat, rs: seq<Response>) {
    && |rs| <= maxFrames
    && forall i :: 0 <= i < |rs| ==> Correlated(id, rs[i]) && ClientFrame(rs[i], i, |rs| + 1)
  }

  lemma ClientStreamAt(id: Identity, maxFrames: nat, rs: seq<Response>, i: nat)
    requires ClientStream(id, maxFrames, rs) && i < |rs|
    ensures Correlated(id, rs[i])
    ensures if rs[0].status == Ok then ClientFrame(rs[i], i, |rs|) else |rs| == 1
  {
  }

  lemma {:induction false} AcceptAllOpen(id: Identity, maxFrames: nat, seen: seq<Response>, rs: seq<Response>)
    requires OpenPrefix(id, maxFrames, seen)
    ensures AcceptAll(id, maxFrames, Reading(seen), rs) == Complete(seen + rs)
      <==> rs != [] && ClientStream(id, maxFrames, seen + rs)
    ensures AcceptAll(id, maxFrames, Reading(seen), rs).Complete? ==>
      AcceptAll(id, maxFrames, Reading(seen), rs) == Complete(seen + rs)
    decreases |rs|
  {
    if rs == [] {
      return;
    }
    var all := seen + rs;
    assert all[|seen|] == rs[0];
    assert forall i :: 0 <= i < |seen| ==> all[i] == seen[i];
    match AcceptResponse(id, maxFrames, seen, rs[0])
    case Failed(_) =>
      if ClientStream(id, maxFrames, all) {
        ClientStreamAt(id, maxFrames, all, |seen|);
      }
    case Complete(next) =>
      assert next == seen + [rs[0]];
      if |rs| == 1 {
        assert all == next;
        assert rs[1..] == [];
      } else if ClientStream(id, maxFrames, all) {
        ClientStreamAt(id, maxFrames, all, |seen|);
      }
    case Reading(next) =>
      assert next == seen + [rs[0]];
      assert next + rs[1..] == all;
      AcceptAllOpen(id, maxFrames, next, rs[1..]);
      if |rs| == 1 && ClientStream(id, maxFrames, all) {
        ClientStreamAt(id, maxFrames, all, |seen|);
      }
  }

  /** Frame by frame, the client completes exactly at the last frame of exactly these streams. */
  lemma ClientCompletesExactly(id: Identity, maxFrames: nat, rs: seq<Response>, out: seq<Response>)
    ensures AcceptAll(id, maxFrames, Reading([]), rs) == Complete(out)
      <==> out == rs && ClientStream(id, maxFrames, rs)
  {
    AcceptAllOpen(id, maxFrames, [], rs);
    assert [] + rs == rs;
  }

  // ---- The sender, the whole stream at once ----

  datatype Verdict<+R> =
    | Refused(code: FailureCode)
    | Rejected(status: FailureCode, hint: Option<LeaderHint>)
    | Delivered(result: R)

  predicate InPlace(id: Identity, p: Payload, i: nat, n: nat) {
    && p.QueryId() == id.queryId && p.TabletId() == id.tabletId && p.Sequence() == i + 1
    && (p.Closes() <==> i + 1 == n)
    && (p.EmptyTerminal? ==> n == 1)
  }

  predicate SuccessFrame(id: Identity, r: Response, i: nat, n: nat) {
    r.status == Ok && r.payload.Some? && r.hint.None? && InPlace(id, r.payload.value, i, n)
  }

  predicate SuccessStream(id: Identity, rs: seq<Response>) {
    forall i :: 0 <= i < |rs| ==> SuccessFrame(id, rs[i], i, |rs|)
  }

  function Payloads(rs: seq<Response>): seq<Payload>
    requires forall i :: 0 <= i < |rs| ==> rs[i].payload.Some?
  {
    seq(|rs|, i requires 0 <= i < |rs| => rs[i].payload.value)
  }

  function Judge(id: Identity, rs: seq<Response>): Verdict<seq<Payload>> {
    if rs == [] then Refused(InvalidArgument)
    else if |rs| > HARD_MESSAGE_LIMIT then Refused(ResourceExhausted)
    else if exists i :: 0 <= i < |rs| && !Correlated(id, rs[i]) then Refused(InvalidArgument)
    else if rs[0].status != Ok then
      if |rs| != 1 || rs[0].payload.Some? || !ValidHint(rs[0].hint) then Refused(InvalidArgument)
      else Rejected(rs[0].status, rs[0].hint)
    else if SuccessStream(id, rs) then Delivered(Payloads(rs))
    else Refused(InvalidArgument)
  }

  /** A complete stream of payloads: 1..n with only the last closing, or one empty terminal. */
  predicate CompleteStream(id: Identity, ps: seq<Payload>) {
    0 < |ps| <= HARD_MESSAGE_LIMIT && forall i :: 0 <= i < |ps| ==> InPlace(id, ps[i], i, |ps|)
  }

  /**
   What the sender concludes, written out: a stream is delivered exactly when every frame is a plain success
   in its place, a rejection is one frame with a failure and at most a proper hint, and everything else is
   refused, as exhaustion only if it is too long.
   */
  lemma JudgeExactly(id: Identity, rs: seq<Response>)
    ensures Judge(id, rs).Delivered? <==>
      && 0 < |rs| <= 65536
      && forall i :: 0 <= i < |rs| ==>
           && Correlated(id, rs[i]) && rs[i].status == Ok && rs[i].hint.None? && rs[i].payload.Some?
           && InPlace(id, rs[i].payload.value, i, |rs|)
    ensures Judge(id, rs).Delivered? ==>
      |Judge(id, rs).result| == |rs| && forall i :: 0 <= i < |rs| ==> rs[i].payload == Some(Judge(id, rs).result[i])
    ensures Judge(id, rs).Rejected? <==>
      && |rs| == 1 && Correlated(id, rs[0]) && rs[0].status != Ok && rs[0].payload.None?
      && (rs[0].hint.Some? ==> rs[0].hint.value.nodeId != 0 && rs[0].hint.value.placementEpoch != 0)
    ensures Judge(id, rs).Rejected? ==> Judge(id, rs) == Rejected(rs[0].status, rs[0].hint)
    ensures Judge(id, rs).Refused? ==> Judge(id, rs).code == if |rs| > 65536 then ResourceExhausted else InvalidArgument
  {
    if rs != [] && rs[0].status == Ok && SuccessStream(id, rs) {
      assert forall i :: 0 <= i < |rs| ==> SuccessFrame(id, rs[i], i, |rs|);
    }
  }

  /** The sender never lets half a stream through. */
  lemma DeliveredIsComplete(id: Identity, rs: seq<Response>)
    requires Judge(id, rs).Delivered?
    ensures CompleteStream(id, Judge(id, rs).result)
  {
  }

  /**
   On anything a decoder can yield, what the client completes on is accepted by the sender exactly
   when no success frame carries a leader hint.
   */
  lemma ClientAndSenderAgree(id: Identity, maxFrames: nat, rs: seq<Response>)
    requires maxFrames <= HARD_MESSAGE_LIMIT && ClientStream(id, maxFrames, rs)
    requires forall i :: 0 <= i < |rs| ==> Decoded(rs[i])
    ensures !Judge(id, rs).Refused? <==> forall i :: 0 <= i < |rs| && rs[i].status == Ok ==> rs[i].hint.None?
  {
  }

  /** The client completes on a hinted success frame that its sender then refuses. */
  lemma HintedSuccessIsRefused()
    ensures
      var id := Identity(1, 2, 3, 4);
      var m := PartialMessage(3, 4, 1, None, Aggregate(0, 0, None, None, 0, 0), true);
      var r := Response(2, 1, 3, 4, Ok, Some(Partial(m)), Some(LeaderHint(5, 6)));
      Decoded(r) && ClientStream(id, 1, [r]) && Judge(id, [r]) == Refused(InvalidArgument)
  {
  }
}
