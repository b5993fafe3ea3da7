/** The server side of one query: a decoded request, one worker call, one whole response stream. */
module Receiver {
  import opened Common
  import opened Layout
  import opened ExchangeFrames
  import opened ResponseFrames
  import opened RequestFrames
  import opened FrameReader
  import opened Chunking
  import opened GroupedStreams
  import opened ResponseWriter
  import opened WirePipe

  datatype WorkerResult = Messages(messages: seq<PartialMessage>) | EmptyResult(terminal: TerminalMessage)

  datatype Config = Config(localNode: NodeId, maxFrames: nat)

  /** Everything the receiver learns from outside: peer checks, the worker, the committed leader. */
  datatype Surroundings = Surroundings(
    peerAuthenticated: bool, authorizesSource: Result<bool>,
    worker: Dispatch -> Result<WorkerResult>, leader: Option<Result<Option<LeaderHint>>>)

  function IdentityOf(q: Request): Identity {
    Identity(q.source, q.target, q.dispatch.queryId, q.dispatch.tabletId)
  }

  function Reply(q: Request, status: StatusCode, payload: Option<Payload>, hint: Option<LeaderHint>): Response {
    Response(q.target, q.source, q.dispatch.queryId, q.dispatch.tabletId, status, payload, hint)
  }

  /** The stream that answers a request, or the reason none is sent. */
  function Answer(maxFrames: nat, q: Request, result: Result<WorkerResult>, leader: Option<Result<Option<LeaderHint>>>)
    : Result<seq<Response>>
  {
    match result
    case Failure(code) =>
      if code == Unavailable && leader.Some? then
        match leader.value
        case Failure(lookup) => Failure(lookup)
        case Success(hint) => Success([Reply(q, code, None, hint)])
      else Success([Reply(q, code, None, None)])
    case Success(Messages(ms)) =>
      if ms == [] then Failure(InvalidArgument)
      else if |ms| > maxFrames then Success([Reply(q, ResourceExhausted, None, None)])
      else if forall i :: 0 <= i < |ms| ==> InPlace(IdentityOf(q), Partial(ms[i]), i, |ms|) then
        Success(seq(|ms|, i requires 0 <= i < |ms| => Reply(q, Ok, Some(Partial(ms[i])), None)))
      else Failure(InvalidArgument)
    case Success(EmptyResult(t)) =>
      if InPlace(IdentityOf(q), EmptyTerminal(t), 0, 1) then Success([Reply(q, Ok, Some(EmptyTerminal(t)), None)])
      else Failure(InvalidArgument)
  }

  /** The replies that carry these messages. */
  function Replies(q: Request, ms: seq<PartialMessage>): seq<Response> {
    seq(|ms|, i requires 0 <= i < |ms| => Reply(q, Ok, Some(Partial(ms[i])), None))
  }

  /** The messages of one answer: for this query and tablet, numbered from 1, the last and no other closing. */
  predicate IsStream(q: Request, ms: seq<PartialMessage>) {
    forall i :: 0 <= i < |ms| ==> Fits(q, ms[i], i, |ms|)
  }

  predicate Fits(q: Request, m: PartialMessage, i: nat, n: nat) {
    && m.queryId == q.dispatch.queryId && m.tabletId == q.dispatch.tabletId
    && m.sequence == i + 1 && (m.terminal <==> i + 1 == n)
  }

  /**
   When a worker's result is answered at all, said without the answer: a failure unless its leader lookup
   was due and failed; messages if there are any and they are too many or one whole stream; an empty
   result if it is the first and last word on this query and tablet.
   */
  predicate Answers(
    maxFrames: nat, q: Request, result: Result<WorkerResult>, leader: Option<Result<Option<LeaderHint>>>)
  {
    match result
    case Failure(code) => code == Unavailable && leader.Some? ==> leader.value.Success?
    case Success(Messages(ms)) => ms != [] && (|ms| > maxFrames || IsStream(q, ms))
    case Success(EmptyResult(t)) =>
      t.queryId == q.dispatch.queryId && t.tabletId == q.dispatch.tabletId && t.sequence == 1
  }

  /** The receiver answers exactly then, frame by frame as written here, and says why when it does not. */
  lemma AnswerExactly(maxFrames: nat, q: Request, result: Result<WorkerResult>, leader: Option<Result<Option<LeaderHint>>>)
    ensures
      var a, id := Answer(maxFrames, q, result, leader), q.dispatch;
      && (a.Success? <==> Answers(maxFrames, q, result, leader))
      && match result
         case Failure(code) =>
           if code == Unavailable && leader.Some? && leader.value.Failure? then a == Failure(leader.value.code)
           else
             var hint := if code == Unavailable && leader.Some? then leader.value.value else None;
             a == Success([Response(q.target, q.source, id.queryId, id.tabletId, code, None, hint)])
         case Success(Messages(ms)) =>
           && (a.Failure? ==> a.code == InvalidArgument)
           && (a.Success? && |ms| > maxFrames ==>
                 a.value == [Response(q.target, q.source, id.queryId, id.tabletId, ResourceExhausted, None, None)])
           && (a.Success? && |ms| <= maxFrames ==>
                 && |a.value| == |ms|
                 && forall i :: 0 <= i < |ms| ==>
                      a.value[i] == Response(q.target, q.source, id.queryId, id.tabletId, Ok, Some(Partial(ms[i])), None))
         case Success(EmptyResult(t)) =>
           && (a.Failure? ==> a.code == InvalidArgument)
           && (a.Success? ==>
                 a.value == [Response(q.target, q.source, id.queryId, id.tabletId, Ok, Some(EmptyTerminal(t)), None)])
  {
    if result.Success? && result.value.Messages? {
      MessagesFit(q, result.value.messages);
    }
  }

  lemma MessagesFit(q: Request, ms: seq<PartialMessage>)
    ensures IsStream(q, ms) <==> forall i :: 0 <= i < |ms| ==> InPlace(IdentityOf(q), Partial(ms[i]), i, |ms|)
  {
    forall i | 0 <= i < |ms|
      ensures Fits(q, ms[i], i, |ms|) <==> InPlace(IdentityOf(q), Partial(ms[i]), i, |ms|)
    {
    }
  }

  /** When such an answer can be put on the wire: proper ids and route, valid messages, a proper hint if any. */
  predicate CanBeSent(
    maxFrames: nat, q: Request, result: Result<WorkerResult>, leader: Option<Result<Option<LeaderHint>>>)
  {
    && q.source != 0 && q.target != 0 && q.source != q.target && q.dispatch.queryId != 0 && q.dispatch.tabletId != 0
    && match result
       case Failure(code) =>
         code == Unavailable && leader.Some? && leader.value.Success? ==> ValidHint(leader.value.value)
       case Success(Messages(ms)) => |ms| <= maxFrames ==> forall i :: 0 <= i < |ms| ==> ValidPartial(ms[i])
       case Success(EmptyResult(t)) => ValidTerminal(t)
  }

  lemma SendableExactly(
    crc: Checksum, maxFrames: nat, q: Request, result: Result<WorkerResult>, leader: Option<Result<Option<LeaderHint>>>)
    requires Answers(maxFrames, q, result, leader)
    ensures var a := Answer(maxFrames, q, result, leader);
      a.Success? && (Sendable(crc, a.value) <==> CanBeSent(maxFrames, q, result, leader))
  {
    AnswerExactly(maxFrames, q, result, leader);
    var rs := Answer(maxFrames, q, result, leader).value;
    if result.Success? && result.value.Messages? && |result.value.messages| <= maxFrames {
      MessagesSendable(crc, q, result.value.messages, rs);
    } else {
      EncodesExactly(crc, rs[0]);
    }
  }

  lemma MessagesSendable(crc: Checksum, q: Request, ms: seq<PartialMessage>, rs: seq<Response>)
    requires ms != [] && IsStream(q, ms) && rs == Replies(q, ms)
    ensures Sendable(crc, rs) <==>
      && q.source != 0 && q.target != 0 && q.source != q.target && q.dispatch.queryId != 0 && q.dispatch.tabletId != 0
      && forall i :: 0 <= i < |ms| ==> ValidPartial(ms[i])
  {
    forall i | 0 <= i < |ms|
      ensures EncodeResponse(crc, rs[i]).Success? <==>
        && q.source != 0 && q.target != 0 && q.source != q.target && q.dispatch.queryId != 0 && q.dispatch.tabletId != 0
        && ValidPartial(ms[i])
    {
      assert Fits(q, ms[i], i, |ms|);
      EncodesExactly(crc, rs[i]);
    }
    if Sendable(crc, rs) {
      assert EncodeResponse(crc, rs[0]).Success?;
    }
  }

  /** Checks and encodes message after message; no frame leaves unless every one is in place and encodes. */
  method EncodeMessages(encode: Response -> Result<Bytes>, q: Request, ms: seq<PartialMessage>)
    returns (r: Result<seq<Bytes>>)
    requires forall x :: encode(x).Failure? ==> encode(x).code == InvalidArgument
    ensures r.Success? <==> IsStream(q, ms) && forall i :: 0 <= i < |ms| ==> encode(Replies(q, ms)[i]).Success?
    ensures r.Success? ==>
      |r.value| == |ms| && forall i :: 0 <= i < |ms| ==> encode(Replies(q, ms)[i]) == Success(r.value[i])
    ensures r.Failure? ==> r.code == InvalidArgument
  {
    var frames: seq<Bytes> := [];
    var i := 0;
    ghost var rs := Replies(q, ms);
    while i < |ms|
      invariant i <= |ms| && |frames| == i
      invariant forall k :: 0 <= k < i ==> Fits(q, ms[k], k, |ms|) && encode(rs[k]) == Success(frames[k])
    {
      if !Fits(q, ms[i], i, |ms|) {
        return Failure(InvalidArgument);
      }
      var encoded := encode(Reply(q, Ok, Some(Partial(ms[i])), None));
      assert encoded == encode(rs[i]);
      if encoded.Failure? {
        return Failure(encoded.code);
      }
      frames := frames + [encoded.value];
      i := i + 1;
    }
    return Success(frames);
  }

  lemma EncodedIsSendable(crc: Checksum, encode: Response -> Result<Bytes>, rs: seq<Response>, r: Result<seq<Bytes>>)
    requires forall x :: encode(x) == EncodeResponse(crc, x)
    requires r.Success? ==> |r.value| == |rs| && forall i :: 0 <= i < |rs| ==> encode(rs[i]) == Success(r.value[i])
    ensures (forall i :: 0 <= i < |rs| ==> encode(rs[i]).Success?) <==> Sendable(crc, rs)
    ensures r.Success? ==> Sendable(crc, rs) && r.value == Frames(crc, rs)
  {
  }

  method SendMessages(crc: Checksum, q: Request, ms: seq<PartialMessage>) returns (r: Result<seq<Bytes>>)
    ensures r.Success? <==> IsStream(q, ms) && Sendable(crc, Replies(q, ms))
    ensures r.Success? ==> r.value == Frames(crc, Replies(q, ms))
    ensures r.Failure? ==> r.code == InvalidArgument
  {
    var encode := x => EncodeResponse(crc, x);
    forall x
      ensures encode(x) == EncodeResponse(crc, x) && (encode(x).Failure? ==> encode(x).code == InvalidArgument)
    {
      EncodesExactly(crc, x);
    }
    r := EncodeMessages(encode, q, ms);
    EncodedIsSendable(crc, encode, Replies(q, ms), r);
  }

  method EncodeOne(crc: Checksum, r: Response) returns (out: Result<seq<Bytes>>)
    ensures out.Success? <==> Sendable(crc, [r])
    ensures out.Success? ==> out.value == Frames(crc, [r])
    ensures out.Failure? ==> out.code == InvalidArgument
  {
    EncodesExactly(crc, r);
    var encoded := EncodeResponse(crc, r);
    assert [r][0] == r;
    if encoded.Failure? {
      return Failure(encoded.code);
    }
    return Success([encoded.value]);
  }

  /** Why a request is turned away before its worker is asked, in the order the receiver looks. */
  function TurnedAway(config: Config, around: Surroundings, request: Result<Request>): Option<FailureCode> {
    if !around.peerAuthenticated then Some(Unauthenticated)
    else if request.Failure? then Some(request.code)
    else if around.authorizesSource.Failure? then Some(around.authorizesSource.code)
    else if !around.authorizesSource.value then Some(Unauthenticated)
    else if request.value.target != config.localNode then Some(Unavailable)
    else None
  }

  /** Who gets through to the worker, written out. */
  lemma AdmittedExactly(config: Config, around: Surroundings, request: Result<Request>)
    ensures TurnedAway(config, around, request).None? <==>
      && around.peerAuthenticated && request.Success? && around.authorizesSource == Success(true)
      && request.value.target == config.localNode
    ensures !around.peerAuthenticated ==> TurnedAway(config, around, request) == Some(Unauthenticated)
    ensures around.peerAuthenticated && request.Failure? ==> TurnedAway(config, around, request) == Some(request.code)
    ensures around.peerAuthenticated && request.Success? ==>
      match around.authorizesSource
      case Failure(code) => TurnedAway(config, around, request) == Some(code)
      case Success(authorized) =>
        && (!authorized ==> TurnedAway(config, around, request) == Some(Unauthenticated))
        && (authorized && request.value.target != config.localNode ==>
              TurnedAway(config, around, request) == Some(Unavailable))
  {
  }

  /** Why an admitted request is not answered: its leader lookup failed, or its result is not a valid answer. */
  function Refusal(result: Result<WorkerResult>, leader: Option<Result<Option<LeaderHint>>>): FailureCode {
    if result.Failure? && result.code == Unavailable && leader.Some? && leader.value.Failure? then leader.value.code
    else InvalidArgument
  }

  /** The answer to an admitted request. */
  method Respond(
    crc: Checksum, maxFrames: nat, q: Request, result: Result<WorkerResult>, leader: Option<Result<Option<LeaderHint>>>)
    returns (r: Result<seq<Bytes>>)
    ensures r.Success? <==> Answers(maxFrames, q, result, leader) && CanBeSent(maxFrames, q, result, leader)
    ensures r.Success? ==>
      var answer := Answer(maxFrames, q, result, leader);
      answer.Success? && Sendable(crc, answer.value) && r.value == Frames(crc, answer.value)
    ensures r.Failure? ==> r.code == Refusal(result, leader)
  {
    AnswerExactly(maxFrames, q, result, leader);
    if Answers(maxFrames, q, result, leader) {
      SendableExactly(crc, maxFrames, q, result, leader);
    }
    match result {
      case Failure(code) =>
        var hint: Option<LeaderHint> := None;
        if code == Unavailable && leader.Some? {
          if leader.value.Failure? {
            return Failure(leader.value.code);
          }
          hint := leader.value.value;
        }
        r := EncodeOne(crc, Reply(q, code, None, hint));
      case Success(Messages(ms)) =>
        if ms == [] {
          return Failure(InvalidArgument);
        }
        if |ms| > maxFrames {
          r := EncodeOne(crc, Reply(q, ResourceExhausted, None, None));
        } else {
          r := SendMessages(crc, q, ms);
          assert IsStream(q, ms) ==> Answer(maxFrames, q, result, leader).value == Replies(q, ms);
        }
      case Success(EmptyResult(t)) =>
        if t.queryId != q.dispatch.queryId || t.tabletId != q.dispatch.tabletId || t.sequence != 1 {
          return Failure(InvalidArgument);
        }
        r := EncodeOne(crc, Reply(q, Ok, Some(EmptyTerminal(t)), None));
    }
  }

  /** A request is answered exactly when its peer is let through and the worker's result can be answered and sent. */
  method Receive(crc: Checksum, codec: DispatchCodec, config: Config, around: Surroundings, requestBytes: Bytes)
    returns (r: Result<seq<Bytes>>)
    ensures
      var request := DecodeRequest(crc, codec, requestBytes);
      match TurnedAway(config, around, request)
      case Some(code) => r == Failure(code)
      case None =>
        var q, n := request.value, config.maxFrames;
        var result := around.worker(q.dispatch);
        && (r.Success? <==> Answers(n, q, result, around.leader) && CanBeSent(n, q, result, around.leader))
        && (r.Success? ==>
              var answer := Answer(n, q, result, around.leader);
              answer.Success? && Sendable(crc, answer.value) && r.value == Frames(crc, answer.value))
        && (r.Failure? ==> r.code == Refusal(result, around.leader))
  {
    if !around.peerAuthenticated {
      return Failure(Unauthenticated);
    }
    var request := DecodeRequest(crc, codec, requestBytes);
    if request.Failure? {
      return Failure(request.code);
    }
    if around.authorizesSource.Failure? {
      return Failure(around.authorizesSource.code);
    }
    if !around.authorizesSource.value {
      return Failure(Unauthenticated);
    }
    var q := request.value;
    if q.target != config.localNode {
      return Failure(Unavailable);
    }
    r := Respond(crc, config.maxFrames, q, around.worker(q.dispatch), around.leader);
  }

  /** What the sender should end up with, said from the worker's result alone. */
  function Expected(maxFrames: nat, result: Result<WorkerResult>, leader: Option<Result<Option<LeaderHint>>>)
    : Verdict<seq<Payload>>
  {
    match result
    case Failure(code) =>
      Rejected(code, if code == Unavailable && leader.Some? && leader.value.Success? then leader.value.value else None)
    case Success(Messages(ms)) =>
      if |ms| > maxFrames then Rejected(ResourceExhausted, None)
      else Delivered(seq(|ms|, i requires 0 <= i < |ms| => Partial(Canonicalize(ms[i]))))
    case Success(EmptyResult(t)) => Delivered([EmptyTerminal(t)])
  }

  /** Every stream the receiver emits is one the client lets through. */
  lemma AnswerIsClientStream(
    maxFrames: nat, q: Request, result: Result<WorkerResult>, leader: Option<Result<Option<LeaderHint>>>, clientFrames: nat)
    requires Answer(maxFrames, q, result, leader).Success?
    requires |Answer(maxFrames, q, result, leader).value| <= clientFrames
    ensures ClientStream(IdentityOf(q), clientFrames, Answer(maxFrames, q, result, leader).value)
  {
  }

  lemma JudgeDelivers(id: Identity, rs: seq<Response>, ps: seq<Payload>)
    requires CompleteStream(id, ps) && |rs| == |ps|
    requires forall i :: 0 <= i < |rs| ==>
      Correlated(id, rs[i]) && rs[i].status == Ok && rs[i].payload == Some(ps[i]) && rs[i].hint.None?
    ensures Judge(id, rs) == Delivered(ps)
  {
    forall i | 0 <= i < |rs|
      ensures SuccessFrame(id, rs[i], i, |rs|)
    {
      assert InPlace(id, ps[i], i, |ps|);
    }
    assert Payloads(rs) == ps;
  }

  lemma MessagesAreComplete(id: Identity, ms: seq<PartialMessage>, ps: seq<Payload>)
    requires 0 < |ms| <= HARD_MESSAGE_LIMIT && |ps| == |ms|
    requires forall i :: 0 <= i < |ms| ==> InPlace(id, Partial(ms[i]), i, |ms|) && ps[i] == Partial(Canonicalize(ms[i]))
    ensures CompleteStream(id, ps)
  {
  }

  lemma JudgeRejects(id: Identity, r: Response)
    requires Correlated(id, r) && r.status != Ok && r.payload.None? && ValidHint(r.hint)
    ensures Judge(id, [r]) == Rejected(r.status, r.hint)
  {
  }

  /** And the sender, given that stream in canonical form, concludes exactly what the worker meant. */
  lemma AnswerIsJudged(
    maxFrames: nat, q: Request, result: Result<WorkerResult>, leader: Option<Result<Option<LeaderHint>>>, rs: seq<Response>)
    requires Answer(maxFrames, q, result, leader) == Success(rs) && ValidHint(rs[0].hint)
    requires maxFrames <= HARD_MESSAGE_LIMIT
    ensures Judge(IdentityOf(q), Canonical(rs)) == Expected(maxFrames, result, leader)
  {
    var id, expected, out := IdentityOf(q), Expected(maxFrames, result, leader), Canonical(rs);
    if expected.Delivered? {
      if result.value.Messages? {
        MessagesAreComplete(id, result.value.messages, expected.result);
      }
      JudgeDelivers(id, out, expected.result);
    } else {
      assert out == [rs[0]];
      JudgeRejects(id, rs[0]);
    }
  }

  lemma SendableHint(crc: Checksum, r: Response)
    ensures EncodeResponse(crc, r).Success? ==> ValidHint(r.hint)
  {
  }

  function RequestFormat(crc: Checksum, codec: DispatchCodec): Format<Request> {
    Format(REQUEST_HEADER, MAXIMUM_REQUEST, h => RequestFrameLength(crc, h), b => DecodeRequest(crc, codec, b))
  }

  lemma RequestIsFrame(crc: Checksum, codec: DispatchCodec, q: Request, b: Bytes)
    requires codec.Exact() && EncodeRequest(crc, codec, q) == Success(b)
    ensures IsFrame(RequestFormat(crc, codec), b, q)
  {
    RequestRoundTrip(crc, codec, q);
    RequestHeaderCheckExact(crc, codec, b[..REQUEST_HEADER], b);
    assert b[..|b|] == b;
  }

  lemma RequestFormatBounded(crc: Checksum, codec: DispatchCodec)
    ensures RequestFormat(crc, codec).Bounded()
  {
  }

  /** However a request arrives, the server reads exactly that request. */
  lemma RequestArrives(crc: Checksum, codec: DispatchCodec, q: Request, b: Bytes, pieces: seq<Bytes>)
    requires codec.Exact() && EncodeRequest(crc, codec, q) == Success(b) && Concat(pieces) == b
    ensures RequestFormat(crc, codec).Bounded()
    ensures Feed(RequestFormat(crc, codec), Pending([]), pieces) == Parsed([q], Pending([]))
  {
    var fmt := RequestFormat(crc, codec);
    RequestFormatBounded(crc, codec);
    RequestIsFrame(crc, codec, q, b);
    FramesParse(fmt, [b], [q]);
    ConcatCons(b, []);
    ChunkingIndependence(fmt, pieces, pieces);
  }

  /**
   One remote call end to end. The request bytes are cut arbitrarily on the way in, the response
   frames are written in arbitrary pieces and read in arbitrary pieces on the way back; the sender
   still concludes exactly what the worker's result says, with group keys in canonical form.
   */
  lemma ExchangeConcludesWorkerResult(
    crc: Checksum, codec: DispatchCodec, maxFrames: nat, clientFrames: nat, q: Request, b: Bytes, inbound: seq<Bytes>,
    result: Result<WorkerResult>, leader: Option<Result<Option<LeaderHint>>>,
    rs: seq<Response>, schedule: seq<nat>, outbound: seq<Bytes>)
    requires codec.Exact() && EncodeRequest(crc, codec, q) == Success(b) && Concat(inbound) == b
    requires Answer(maxFrames, q, result, leader) == Success(rs) && Sendable(crc, rs)
    requires maxFrames <= HARD_MESSAGE_LIMIT && |rs| <= clientFrames
    requires
      var run := WriteAll(Fresh(Frames(crc, rs)), schedule);
      run.Some? && run.value.1 == [] && Concat(outbound) == Concat(run.value.0)
    requires forall i :: 0 <= i < |outbound| ==> outbound[i] != []
    ensures RequestFormat(crc, codec).Bounded()
    ensures Feed(RequestFormat(crc, codec), Pending([]), inbound) == Parsed([q], Pending([]))
    ensures ReceiveAll(crc, IdentityOf(q), clientFrames, outbound).0 == Complete(Canonical(rs))
    ensures Judge(IdentityOf(q), Canonical(rs)) == Expected(maxFrames, result, leader)
  {
    RequestArrives(crc, codec, q, b, inbound);
    AnswerIsClientStream(maxFrames, q, result, leader, clientFrames);
    PipeDelivers(crc, IdentityOf(q), clientFrames, rs, schedule, outbound);
    SendableHint(crc, rs[0]);
    AnswerIsJudged(maxFrames, q, result, leader, rs);
  }
}
