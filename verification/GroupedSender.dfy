/** The sender of one grouped fragment: retries around one request, then judges the answer as a whole. */
module GroupedSender {
  import opened Common
  import opened ResponseFrames
  import opened RequestFrames
  import opened GroupedStreams
  import opened Retry

  datatype Attempt = Attempt(number: nat, target: NodeId, bytes: Bytes)

  predicate Acceptable(source: NodeId, dispatch: Dispatch, limits: Limits) {
    source != 0 && limits.Valid() && dispatch.servingNode != source
  }

  function RequestOf(source: NodeId, dispatch: Dispatch): Request {
    Request(source, dispatch.servingNode, dispatch)
  }

  function SenderIdentity(source: NodeId, dispatch: Dispatch): Identity {
    Identity(source, dispatch.servingNode, dispatch.queryId, dispatch.tabletId)
  }

  /** `encode` is the request encoder, so what goes out is what `RequestFrames.EncodeRequest` yields. */
  class GroupedQuerySender {
    const encode: Request -> Result<Bytes>
    const source: NodeId
    const dispatch: Dispatch
    const limits: Limits
    var phase: Phase
    var attempts: nat
    var nextBackoff: nat
    var notBefore: Option<Time>
    var lastStatus: Option<StatusCode>
    var hint: Option<LeaderHint>
    var result: Option<seq<Payload>>

    ghost function View(): Sender<seq<Payload>>
      reads this
    {
      Sender(limits, phase, attempts, nextBackoff, notBefore, lastStatus, hint, result)
    }

    /** Reachable state, and a request that was seen to encode. */
    ghost predicate Valid()
      reads this
    {
      && Sound(View())
      && encode(RequestOf(source, dispatch)).Success?
      && (result.Some? ==> CompleteStream(SenderIdentity(source, dispatch), result.value))
    }

    constructor (encode: Request -> Result<Bytes>, source: NodeId, dispatch: Dispatch, limits: Limits)
      requires Acceptable(source, dispatch, limits) && encode(RequestOf(source, dispatch)).Success?
      ensures Valid() && View() == Initial(limits)
      ensures this.encode == encode && this.source == source && this.dispatch == dispatch
    {
      this.encode, this.source, this.dispatch, this.limits := encode, source, dispatch, limits;
      phase, attempts, nextBackoff := Ready, 0, limits.initialBackoff;
      notBefore, lastStatus, hint, result := None, None, None, None;
    }

    method BeginAttempt(now: Time) returns (r: Result<Attempt>)
      requires Valid()
      modifies this
      ensures Valid() && View() == Begin(old(View()), now).1
      ensures r.Failure? ==> Begin(old(View()), now).0 == Failure(r.code)
      ensures r.Success? ==>
        && Begin(old(View()), now).0 == Success(r.value.number)
        && r.value.target == dispatch.servingNode
        && encode(RequestOf(source, dispatch)) == Success(r.value.bytes)
    {
      ApplyKeepsSound(View(), BeginAt(now));
      if phase == Succeeded || phase == Exhausted {
        return Failure(InvalidArgument);
      }
      if phase == Waiting {
        return Failure(Unavailable);
      }
      if phase == Backoff && now < notBefore.value {
        return Failure(Unavailable);
      }
      // A begun attempt always has budget left, and the request encoded when the sender was made.
      assert attempts < limits.maxAttempts;
      var bytes := encode(RequestOf(source, dispatch));
      attempts := attempts + 1;
      phase, hint, notBefore := Waiting, None, None;
      return Success(Attempt(attempts, dispatch.servingNode, bytes.value));
    }

    method Reschedule(code: StatusCode, now: Time)
      requires Valid() && phase == Waiting && code != Ok
      modifies this
      ensures Valid() && View() == Schedule(old(View()), code, now)
    {
      ScheduleKeepsSound(View(), hint, code, now);
      lastStatus := Some(code);
      if !Retryable(code) || attempts >= limits.maxAttempts {
        phase, notBefore := Exhausted, None;
        return;
      }
      phase, notBefore := Backoff, Some(SaturatingAdd(now, nextBackoff));
      if nextBackoff < limits.maxBackoff {
        nextBackoff := if nextBackoff > limits.maxBackoff / 2 then limits.maxBackoff
                       else Min(nextBackoff * 2, limits.maxBackoff);
      }
    }

    method RecordTransportFailure(code: StatusCode, now: Time) returns (status: StatusCode)
      requires Valid()
      modifies this
      ensures Valid() && (status, View()) == TransportFailed(old(View()), code, now)
    {
      if phase != Waiting || code == Ok {
        return InvalidArgument;
      }
      hint := None;
      Reschedule(code, now);
      return Ok;
    }

    method CheckCorrelation(responses: seq<Response>) returns (ok: bool)
      ensures ok <==> forall i :: 0 <= i < |responses| ==> Correlated(SenderIdentity(source, dispatch), responses[i])
    {
      var i := 0;
      while i < |responses|
        invariant i <= |responses|
        invariant forall k :: 0 <= k < i ==> Correlated(SenderIdentity(source, dispatch), responses[k])
      {
        var response := responses[i];
        if response.source != dispatch.servingNode || response.target != source
          || response.queryId != dispatch.queryId || response.tabletId != dispatch.tabletId
        {
          return false;
        }
        i := i + 1;
      }
      return true;
    }

    /** Collects the payloads of a success stream, or finds the frame that spoils it. */
    method CollectPayloads(responses: seq<Response>) returns (r: Option<seq<Payload>>)
      ensures r.Some? <==> SuccessStream(SenderIdentity(source, dispatch), responses)
      ensures r.Some? ==> r.value == Payloads(responses)
    {
      ghost var id := SenderIdentity(source, dispatch);
      var accepted: seq<Payload> := [];
      var i := 0;
      while i < |responses|
        invariant i <= |responses| && |accepted| == i
        invariant forall k :: 0 <= k < i ==> SuccessFrame(id, responses[k], k, |responses|)
        invariant forall k :: 0 <= k < i ==> accepted[k] == responses[k].payload.value
      {
        var response := responses[i];
        if response.status != Ok || response.payload.None? || response.hint.Some? {
          return None;
        }
        var payload := response.payload.value;
        var last := i + 1 == |responses|;
        if payload.Partial? {
          var m := payload.partial;
          if m.queryId != dispatch.queryId || m.tabletId != dispatch.tabletId || m.sequence != i + 1 || m.terminal != last {
            return None;
          }
        } else {
          var t := payload.terminal;
          if t.queryId != dispatch.queryId || t.tabletId != dispatch.tabletId || |responses| != 1 || t.sequence != 1 {
            return None;
          }
        }
        accepted := accepted + [payload];
        i := i + 1;
      }
      assert accepted == Payloads(responses);
      return Some(accepted);
    }

    method AcceptResponses(responses: seq<Response>, now: Time) returns (status: StatusCode)
      requires Valid()
      modifies this
      ensures Valid()
      ensures (status, View()) == Resolve(old(View()), Judge(SenderIdentity(source, dispatch), responses), now)
    {
      ApplyKeepsSound(View(), ResolveAt(Judge(SenderIdentity(source, dispatch), responses), now));
      if phase != Waiting || responses == [] {
        return InvalidArgument;
      }
      if |responses| > HARD_MESSAGE_LIMIT {
        return ResourceExhausted;
      }
      var correlated := CheckCorrelation(responses);
      if !correlated {
        return InvalidArgument;
      }
      if responses[0].status != Ok {
        if |responses| != 1 || responses[0].payload.Some? || !ValidHint(responses[0].hint) {
          return InvalidArgument;
        }
        hint := responses[0].hint;
        Reschedule(responses[0].status, now);
        return Ok;
      }
      var payloads := CollectPayloads(responses);
      if payloads.None? {
        return InvalidArgument;
      }
      DeliveredIsComplete(SenderIdentity(source, dispatch), responses);
      result, lastStatus, hint, phase, notBefore := payloads, Some(Ok), None, Succeeded, None;
      return Ok;
    }
  }

  method Create(encode: Request -> Result<Bytes>, source: NodeId, dispatch: Dispatch, limits: Limits)
    returns (r: Result<GroupedQuerySender>)
    ensures r.Success? <==> Acceptable(source, dispatch, limits) && encode(RequestOf(source, dispatch)).Success?
    ensures r.Success? ==> fresh(r.value) && r.value.Valid() && r.value.View() == Initial(limits)
    ensures r.Success? ==> r.value.source == source && r.value.dispatch == dispatch
    ensures r.Failure? ==>
      r.code == if Acceptable(source, dispatch, limits) then encode(RequestOf(source, dispatch)).code else InvalidArgument
  {
    if !Acceptable(source, dispatch, limits) {
      return Failure(InvalidArgument);
    }
    var encoded := encode(RequestOf(source, dispatch));
    if encoded.Failure? {
      return Failure(encoded.code);
    }
    var sender := new GroupedQuerySender(encode, source, dispatch, limits);
    return Success(sender);
  }
}
