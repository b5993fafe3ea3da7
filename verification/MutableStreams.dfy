/**
 The mutable grouped path checks one protocol in four places: the TLS client frame by frame, the TLS
 server and the query-control server over a whole vector before writing it, and the sender at the end.
 */
module MutableStreams {
  import opened Common
  import opened ResponseFrames
  import opened GroupedStreams
  import opened Sums

  /** Where a group stands in its stream. */
  datatype Position = Position(
    queryId: Uuid, tabletId: Uuid, empty: bool, groupCount: U32, groupOrdinal: U32, sequence: U64, terminal: bool)

  /** A decoded response with the length of the frame it came in. */
  datatype Reply = Reply(
    source: NodeId, target: NodeId, queryId: Uuid, tabletId: Uuid, status: StatusCode,
    position: Option<Position>, hint: Option<LeaderHint>, length: nat)

  datatype StreamLimits = StreamLimits(maxFrames: nat, maxBytes: nat)

  predicate Routed(id: Identity, r: Reply) {
    r.source == id.server && r.target == id.requester && r.queryId == id.queryId && r.tabletId == id.tabletId
  }

  function TotalBytes(rs: seq<Reply>): nat {
    if rs == [] then 0 else TotalBytes(rs[..|rs| - 1]) + rs[|rs| - 1].length
  }

  // ---- The whole vector ----

  /** Frame `i` of a vector of `n`. */
  predicate FrameFits(r: Reply, i: nat, n: nat) {
    if r.status != Ok then n == 1 && r.position.None?
    else
      && r.position.Some?
      && var p := r.position.value;
      && p.sequence == i + 1 && p.groupOrdinal == i
      && (p.terminal <==> i + 1 == n)
      && (if p.empty then n == 1 && p.groupCount == 0 else p.groupCount == n)
  }

  predicate Admits(limits: StreamLimits, id: Identity, rs: seq<Reply>) {
    && 0 < |rs| <= limits.maxFrames && TotalBytes(rs) <= limits.maxBytes
    && forall i :: 0 <= i < |rs| ==> Routed(id, rs[i]) && FrameFits(rs[i], i, |rs|)
  }

  lemma {:induction false} BytesOfPrefix(rs: seq<Reply>, n: nat)
    requires n <= |rs|
    ensures TotalBytes(rs[..n]) <= TotalBytes(rs)
    ensures n < |rs| ==> TotalBytes(rs[..n + 1]) == TotalBytes(rs[..n]) + rs[n].length
    decreases |rs| - n
  {
    if n == |rs| {
      assert rs[..n] == rs;
    } else {
      assert rs[..n + 1][..n] == rs[..n];
      BytesOfPrefix(rs, n + 1);
    }
  }

  /** A response as a receiver hands it over: its bytes, what they decode to, and whether that can be written again. */
  datatype Encoded = Encoded(length: nat, decoded: Result<Reply>, rewritten: StatusCode) {
    function Content(): Reply
      requires decoded.Success?
    {
      decoded.value.(length := length)
    }
  }

  /** Everything a server is given to validate: the bound authority's verdict, its width, and the responses. */
  datatype Bound = Bound(authority: StatusCode, tooWide: bool, responses: seq<Encoded>)

  function Lengths(es: seq<Encoded>): nat {
    if es == [] then 0 else Lengths(es[..|es| - 1]) + es[|es| - 1].length
  }

  lemma {:induction false} LengthsOfPrefix(es: seq<Encoded>, n: nat)
    requires n <= |es|
    ensures Lengths(es[..n]) <= Lengths(es)
    ensures n < |es| ==> Lengths(es[..n + 1]) == Lengths(es[..n]) + es[n].length
    decreases |es| - n
  {
    if n == |es| {
      assert es[..n] == es;
    } else {
      assert es[..n + 1][..n] == es[..n];
      LengthsOfPrefix(es, n + 1);
    }
  }

  /** What a server says of response `i`. */
  function ResponseCode(id: Identity, e: Encoded, i: nat, n: nat): StatusCode {
    if e.decoded.Failure? then e.decoded.code
    else if !Routed(id, e.decoded.value) || !FrameFits(e.decoded.value, i, n) then Corruption
    else e.rewritten
  }

  /** The first objection to any response from `i` on. */
  function FirstCode(id: Identity, es: seq<Encoded>, i: nat): StatusCode
    requires i <= |es|
    decreases |es| - i
  {
    if i == |es| then Ok
    else if ResponseCode(id, es[i], i, |es|) != Ok then ResponseCode(id, es[i], i, |es|)
    else FirstCode(id, es, i + 1)
  }

  /** What a server makes of a bound vector, in the order it looks. */
  function Validated(limits: StreamLimits, id: Identity, bound: Bound): StatusCode {
    var es := bound.responses;
    if bound.authority != Ok then bound.authority
    else if bound.tooWide || es == [] || |es| > limits.maxFrames || Lengths(es) > limits.maxBytes then ResourceExhausted
    else FirstCode(id, es, 0)
  }

  function Contents(es: seq<Encoded>): seq<Reply>
    requires forall i :: 0 <= i < |es| ==> es[i].decoded.Success?
  {
    seq(|es|, i requires 0 <= i < |es| => es[i].Content())
  }

  lemma {:induction false} SameLengths(es: seq<Encoded>)
    requires forall i :: 0 <= i < |es| ==> es[i].decoded.Success?
    ensures TotalBytes(Contents(es)) == Lengths(es)
  {
    if es == [] {
    } else {
      var init := es[..|es| - 1];
      SameLengths(init);
      assert Contents(es)[..|es| - 1] == Contents(init);
    }
  }

  lemma {:induction false} FirstCodeIsOk(id: Identity, es: seq<Encoded>, i: nat)
    requires i <= |es|
    ensures FirstCode(id, es, i) == Ok <==> forall k :: i <= k < |es| ==> ResponseCode(id, es[k], k, |es|) == Ok
    decreases |es| - i
  {
    if i == |es| {
    } else {
      FirstCodeIsOk(id, es, i + 1);
    }
  }

  /**
   A server lets a bound vector through exactly when its authority is sound and narrow enough, every
   response decodes and can be written again, and the decoded vector is one of the protocol's.
   */
  lemma ValidatedExactly(limits: StreamLimits, id: Identity, bound: Bound)
    ensures
      var es := bound.responses;
      Validated(limits, id, bound) == Ok <==>
        && bound.authority == Ok && !bound.tooWide
        && (forall i :: 0 <= i < |es| ==> es[i].decoded.Success? && es[i].rewritten == Ok)
        && Admits(limits, id, Contents(es))
  {
    var es := bound.responses;
    FirstCodeIsOk(id, es, 0);
    if forall i :: 0 <= i < |es| ==> es[i].decoded.Success? && es[i].rewritten == Ok {
      SameLengths(es);
      forall i | 0 <= i < |es|
        ensures ResponseCode(id, es[i], i, |es|) == Ok <==> Routed(id, Contents(es)[i]) && FrameFits(Contents(es)[i], i, |es|)
      {
      }
    }
  }

  method CheckBytes(maxBytes: nat, es: seq<Encoded>) returns (ok: bool)
    ensures ok <==> Lengths(es) <= maxBytes
  {
    var total, i := 0, 0;
    while i < |es|
      invariant i <= |es| && total == Lengths(es[..i]) <= maxBytes
    {
      LengthsOfPrefix(es, i);
      if es[i].length > maxBytes - total {
        LengthsOfPrefix(es, i + 1);
        return false;
      }
      total, i := total + es[i].length, i + 1;
    }
    assert es[..|es|] == es;
    return true;
  }

  /** The TLS server, before it writes a vector. */
  method ValidateResponseStream(limits: StreamLimits, id: Identity, bound: Bound) returns (code: StatusCode)
    ensures code == Validated(limits, id, bound)
  {
    if bound.authority != Ok {
      return bound.authority;
    }
    var es := bound.responses;
    if bound.tooWide || es == [] || |es| > limits.maxFrames {
      return ResourceExhausted;
    }
    var small := CheckBytes(limits.maxBytes, es);
    if !small {
      return ResourceExhausted;
    }
    var i := 0;
    while i < |es|
      invariant i <= |es| && FirstCode(id, es, 0) == FirstCode(id, es, i)
    {
      if es[i].decoded.Failure? {
        return es[i].decoded.code;
      }
      var r := es[i].decoded.value;
      if r.source != id.server || r.target != id.requester || r.queryId != id.queryId || r.tabletId != id.tabletId {
        return Corruption;
      }
      var last := i + 1 == |es|;
      if r.status == Ok {
        if r.position.None? {
          return Corruption;
        }
        var p := r.position.value;
        var validEmpty := p.empty && |es| == 1 && p.groupCount == 0 && p.groupOrdinal == 0 && p.sequence == 1 && p.terminal;
        var validGroups := !p.empty && p.groupCount == |es| && p.groupOrdinal == i && p.sequence == i + 1 && p.terminal == last;
        if !validEmpty && !validGroups {
          return Corruption;
        }
      } else if |es| != 1 || r.position.Some? {
        return Corruption;
      }
      if es[i].rewritten != Ok {
        return es[i].rewritten;
      }
      i := i + 1;
    }
    return Ok;
  }

  /** The query-control server's own copy of the check, over a payload it borrows rather than copies. */
  method ValidateMutableGroupedResponses(limits: StreamLimits, id: Identity, bound: Bound) returns (code: StatusCode)
    ensures code == Validated(limits, id, bound)
  {
    if bound.authority != Ok {
      return bound.authority;
    }
    var count := |bound.responses|;
    if bound.tooWide || count == 0 || count > limits.maxFrames {
      return ResourceExhausted;
    }
    var total, k := 0, 0;
    while k < count
      invariant k <= count && total == Lengths(bound.responses[..k]) <= limits.maxBytes
    {
      LengthsOfPrefix(bound.responses, k);
      if bound.responses[k].length > limits.maxBytes - total {
        LengthsOfPrefix(bound.responses, k + 1);
        return ResourceExhausted;
      }
      total, k := total + bound.responses[k].length, k + 1;
    }
    assert bound.responses[..count] == bound.responses;
    for index := 0 to count
      invariant FirstCode(id, bound.responses, 0) == FirstCode(id, bound.responses, index)
    {
      var response := bound.responses[index];
      if response.decoded.Failure? {
        return response.decoded.code;
      }
      var decoded := response.decoded.value;
      if !Routed(id, decoded) {
        return Corruption;
      }
      var payload := decoded.position;
      if decoded.status == Ok {
        if payload == None {
          return Corruption;
        }
        var position := payload.value;
        if !(position.empty && count == 1 && position.groupCount == 0 && position.groupOrdinal == 0 && position.sequence == 1
             && position.terminal)
           && !(!position.empty && position.groupCount == count && position.groupOrdinal == index
                && position.sequence == index + 1 && position.terminal == (index + 1 == count))
        {
          return Corruption;
        }
      } else if count != 1 || payload != None {
        return Corruption;
      }
      if response.rewritten != Ok {
        return response.rewritten;
      }
    }
    return Ok;
  }

  // ---- The client ----

  datatype Progress =
    | Receiving(seen: seq<Reply>, expected: Option<U32>)
    | Finished(seen: seq<Reply>)
    | Broken(code: FailureCode)

  /** One response, after its bytes were counted. */
  function AcceptReply(limits: StreamLimits, id: Identity, seen: seq<Reply>, expected: Option<U32>, r: Reply): Progress {
    var ordinal := |seen|;
    if !Routed(id, r) then Broken(Corruption)
    else if ordinal == limits.maxFrames then Broken(ResourceExhausted)
    else if r.status == Ok then
      if r.position.None? then Broken(Corruption)
      else
        var p := r.position.value;
        var validEmpty :=
          p.empty && ordinal == 0 && p.groupCount == 0 && p.groupOrdinal == 0 && p.sequence == 1 && p.terminal;
        var validGroup :=
          !p.empty && 0 < p.groupCount <= limits.maxFrames && p.groupOrdinal == ordinal && p.sequence == ordinal + 1
          && p.terminal == (ordinal + 1 == p.groupCount);
        if (!validEmpty && !validGroup) || (expected.Some? && p.groupCount != expected.value) then Broken(Corruption)
        else if p.terminal then Finished(seen + [r])
        else Receiving(seen + [r], Some(p.groupCount))
    else if seen != [] || r.position.Some? then Broken(Corruption)
    else Finished(seen + [r])
  }

  /** One frame off the wire: its bytes are charged first, and nothing may follow the closing frame. */
  function TakeFrame(limits: StreamLimits, id: Identity, st: Progress, r: Reply): Progress {
    match st
    case Broken(_) => st
    case Finished(_) => Broken(Corruption)
    case Receiving(seen, expected) =>
      if TotalBytes(seen) + r.length > limits.maxBytes then Broken(ResourceExhausted)
      else AcceptReply(limits, id, seen, expected, r)
  }

  /** A client between two reads: its progress, and the bytes of an unfinished frame already charged. */
  datatype Charged = Charged(progress: Progress, pending: nat)

  /** Some more bytes of the frame being read, charged as they are consumed. */
  function Charge(limits: StreamLimits, c: Charged, n: nat): Charged {
    match c.progress
    case Broken(_) => c
    case Finished(_) => Charged(Broken(Corruption), 0)
    case Receiving(seen, _) =>
      if n > limits.maxBytes - (TotalBytes(seen) + c.pending) then Charged(Broken(ResourceExhausted), 0)
      else c.(pending := c.pending + n)
  }

  /** The frame is whole: it is checked, and its charge becomes part of what was received. */
  function CloseFrame(limits: StreamLimits, id: Identity, c: Charged, r: Reply): Charged {
    match c.progress
    case Receiving(seen, expected) => Charged(AcceptReply(limits, id, seen, expected, r), 0)
    case _ => c
  }

  function ChargeAll(limits: StreamLimits, c: Charged, pieces: seq<nat>): Charged {
    if pieces == [] then c else Charge(limits, ChargeAll(limits, c, pieces[..|pieces| - 1]), pieces[|pieces| - 1])
  }

  function SumOf(pieces: seq<nat>): nat {
    Total(pieces, n => n)
  }

  lemma {:induction false} ChargedInPieces(limits: StreamLimits, seen: seq<Reply>, expected: Option<U32>, pieces: seq<nat>)
    requires TotalBytes(seen) <= limits.maxBytes
    ensures ChargeAll(limits, Charged(Receiving(seen, expected), 0), pieces) ==
      if TotalBytes(seen) + SumOf(pieces) <= limits.maxBytes then Charged(Receiving(seen, expected), SumOf(pieces))
      else Charged(Broken(ResourceExhausted), 0)
  {
    if pieces == [] {
    } else {
      ChargedInPieces(limits, seen, expected, pieces[..|pieces| - 1]);
    }
  }

  /** However a frame's bytes are consumed, charging them piece by piece comes to charging the frame at once. */
  lemma PiecesAreFrame(limits: StreamLimits, id: Identity, st: Progress, pieces: seq<nat>, r: Reply)
    requires pieces != [] && SumOf(pieces) == r.length
    requires st.Receiving? ==> TotalBytes(st.seen) <= limits.maxBytes
    ensures CloseFrame(limits, id, ChargeAll(limits, Charged(st, 0), pieces), r).progress == TakeFrame(limits, id, st, r)
  {
    match st
    case Receiving(seen, expected) => ChargedInPieces(limits, seen, expected, pieces);
    case Finished(_) => ChargedOnceDone(limits, Charged(st, 0), pieces);
    case Broken(_) => ChargedOnceDone(limits, Charged(st, 0), pieces);
  }

  /** A client that is done stays as it is when broken, and breaks on any further byte when finished. */
  lemma {:induction false} ChargedOnceDone(limits: StreamLimits, c: Charged, pieces: seq<nat>)
    requires pieces != [] && !c.progress.Receiving?
    ensures ChargeAll(limits, c, pieces) == if c.progress.Broken? then c else Charged(Broken(Corruption), 0)
  {
    if |pieces| == 1 {
      assert ChargeAll(limits, c, pieces[..0]) == c;
    } else {
      ChargedOnceDone(limits, c, pieces[..|pieces| - 1]);
    }
  }

  function TakeFrames(limits: StreamLimits, id: Identity, rs: seq<Reply>): Progress {
    if rs == [] then Receiving([], None)
    else TakeFrame(limits, id, TakeFrames(limits, id, rs[..|rs| - 1]), rs[|rs| - 1])
  }

  /** A beginning of a vector of `n` groups that is not closed yet. */
  predicate OpenGroups(id: Identity, rs: seq<Reply>, n: nat) {
    forall i :: 0 <= i < |rs| ==> Routed(id, rs[i]) && rs[i].status == Ok && FrameFits(rs[i], i, n) && !rs[i].position.value.empty
  }

  /** What the client holds after some frames. */
  predicate Tracks(limits: StreamLimits, id: Identity, rs: seq<Reply>, st: Progress) {
    match st
    case Receiving(seen, expected) =>
      && seen == rs && TotalBytes(rs) <= limits.maxBytes && |rs| <= limits.maxFrames
      && (if rs == [] then expected.None?
          else expected.Some? && |rs| < expected.value <= limits.maxFrames && OpenGroups(id, rs, expected.value))
    case Finished(seen) => seen == rs && Admits(limits, id, rs)
    case Broken(_) => true
  }

  /** A vector the batch check admits, all but its last frame. */
  lemma AdmitsInit(limits: StreamLimits, id: Identity, rs: seq<Reply>)
    requires Admits(limits, id, rs) && |rs| > 1
    ensures OpenGroups(id, rs[..|rs| - 1], |rs|) && TotalBytes(rs[..|rs| - 1]) <= limits.maxBytes
  {
  }

  /** One frame at a time the client tracks the vector. */
  lemma AcceptTracks(limits: StreamLimits, id: Identity, init: seq<Reply>, expected: Option<U32>, r: Reply)
    requires Tracks(limits, id, init, Receiving(init, expected))
    ensures Tracks(limits, id, init + [r], TakeFrame(limits, id, Receiving(init, expected), r))
  {
    var rs := init + [r];
    assert rs[..|init|] == init;
    var st := TakeFrame(limits, id, Receiving(init, expected), r);
    if st.Finished? && r.status == Ok && init != [] {
      forall i | 0 <= i < |rs|
        ensures Routed(id, rs[i]) && FrameFits(rs[i], i, |rs|)
      {
        if i < |init| {
          assert rs[i] == init[i];
        }
      }
    }
  }

  lemma {:induction false} ClientTracks(limits: StreamLimits, id: Identity, rs: seq<Reply>)
    ensures Tracks(limits, id, rs, TakeFrames(limits, id, rs))
  {
    if rs != [] {
      var init, r := rs[..|rs| - 1], rs[|rs| - 1];
      ClientTracks(limits, id, init);
      assert rs == init + [r];
      match TakeFrames(limits, id, init)
      case Receiving(seen, expected) => AcceptTracks(limits, id, init, expected, r);
      case _ =>
    }
  }

  /** The client reads an open beginning of an admitted vector without complaint. */
  lemma {:induction false} ClientReadsOpen(limits: StreamLimits, id: Identity, rs: seq<Reply>, n: U32)
    requires OpenGroups(id, rs, n) && |rs| < n <= limits.maxFrames && TotalBytes(rs) <= limits.maxBytes
    ensures TakeFrames(limits, id, rs) == Receiving(rs, if rs == [] then None else Some(n))
  {
    if rs != [] {
      var init, r := rs[..|rs| - 1], rs[|rs| - 1];
      BytesOfPrefix(rs, |rs| - 1);
      assert Routed(id, r) && FrameFits(r, |rs| - 1, n);
      ClientReadsOpen(limits, id, init, n);
      assert rs == init + [r];
    }
  }

  /** The frame that closes an admitted vector finishes the client. */
  lemma ClosingFrame(limits: StreamLimits, id: Identity, init: seq<Reply>, r: Reply)
    requires |init| < limits.maxFrames && TotalBytes(init) + r.length <= limits.maxBytes
    requires |init| + 1 < 0x1_0000_0000 && Routed(id, r) && FrameFits(r, |init|, |init| + 1)
    ensures TakeFrame(limits, id, Receiving(init, if init == [] then None else Some(|init| + 1)), r) == Finished(init + [r])
  {
  }

  lemma ClientFinishes(limits: StreamLimits, id: Identity, rs: seq<Reply>)
    requires limits.maxFrames < 0x1_0000_0000 && Admits(limits, id, rs)
    ensures TakeFrames(limits, id, rs) == Finished(rs)
  {
    var init, r := rs[..|rs| - 1], rs[|rs| - 1];
    assert rs == init + [r];
    assert Routed(id, r) && FrameFits(r, |init|, |rs|);
    BytesOfPrefix(rs, |rs| - 1);
    ClosingFrame(limits, id, init, r);
    if |rs| > 1 {
      AdmitsInit(limits, id, rs);
      ClientReadsOpen(limits, id, init, |rs|);
    }
  }

  /** With equal limits, the client finishes at exactly the last frame of exactly the vectors the server admits. */
  lemma IncrementalIsBatch(limits: StreamLimits, id: Identity, rs: seq<Reply>)
    requires limits.maxFrames < 0x1_0000_0000
    ensures TakeFrames(limits, id, rs).Finished? <==> Admits(limits, id, rs)
    ensures Admits(limits, id, rs) ==> TakeFrames(limits, id, rs) == Finished(rs)
  {
    ClientTracks(limits, id, rs);
    if Admits(limits, id, rs) {
      ClientFinishes(limits, id, rs);
    }
  }

  /** Across different limits: what one server admits, a client finishes on exactly when it is within its own limits. */
  lemma UnequalLimits(client: StreamLimits, server: StreamLimits, id: Identity, rs: seq<Reply>)
    requires client.maxFrames < 0x1_0000_0000 && Admits(server, id, rs)
    ensures TakeFrames(client, id, rs).Finished? <==> |rs| <= client.maxFrames && TotalBytes(rs) <= client.maxBytes
  {
    IncrementalIsBatch(client, id, rs);
  }

  /** The client object: what it received so far and the group count it committed to. */
  class MutableClient {
    const limits: StreamLimits
    const id: Identity
    var responses: seq<Reply>
    var expectedGroupCount: Option<U32>
    var receivedBytes: nat
    ghost var pending: nat
    var complete: bool
    var failure: Option<FailureCode>

    /** Progress, and the charge of the frame being read. */
    ghost function View(): Charged
      reads this
    {
      if failure.Some? then Charged(Broken(failure.value), 0)
      else if complete then Charged(Finished(responses), 0)
      else Charged(Receiving(responses, expectedGroupCount), pending)
    }

    ghost predicate Valid()
      reads this
    {
      failure.None? && !complete ==> receivedBytes == TotalBytes(responses) + pending <= limits.maxBytes
    }

    constructor (limits: StreamLimits, id: Identity)
      ensures Valid() && View() == Charged(Receiving([], None), 0) && this.limits == limits && this.id == id
    {
      this.limits, this.id := limits, id;
      responses, expectedGroupCount, receivedBytes, complete, failure := [], None, 0, false, None;
      pending := 0;
    }

    /** One call of the reader: it consumed `n` more bytes of a frame, and perhaps finished it. */
    method Take(n: nat, frame: Option<Reply>)
      requires Valid() && (frame.Some? ==> frame.value.length == pending + n)
      modifies this
      ensures Valid()
      ensures
        var charged := Charge(limits, old(View()), n);
        View() == if frame.Some? then CloseFrame(limits, id, charged, frame.value) else charged
    {
      if failure.Some? {
        return;
      }
      if complete {
        failure := Some(Corruption);
        return;
      }
      if n > limits.maxBytes - receivedBytes {
        failure := Some(ResourceExhausted);
        return;
      }
      receivedBytes, pending := receivedBytes + n, pending + n;
      if frame.Some? {
        pending := 0;
        AcceptResponse(frame.value);
      }
    }

    method AcceptResponse(r: Reply)
      requires failure.None? && !complete && pending == 0
      requires receivedBytes == TotalBytes(responses) + r.length <= limits.maxBytes
      modifies this
      ensures Valid() && View() == Charged(AcceptReply(limits, id, old(responses), old(expectedGroupCount), r), 0)
    {
      assert (responses + [r])[..|responses|] == responses;
      if !Routed(id, r) {
        failure := Some(Corruption);
        return;
      }
      if |responses| == limits.maxFrames {
        failure := Some(ResourceExhausted);
        return;
      }
      var terminal := true;
      if r.status == Ok {
        if r.position.None? {
          failure := Some(Corruption);
          return;
        }
        var ordinal, p := |responses|, r.position.value;
        var validEmpty :=
          p.empty && ordinal == 0 && p.groupCount == 0 && p.groupOrdinal == 0 && p.sequence == 1 && p.terminal;
        var validGroup :=
          !p.empty && 0 < p.groupCount <= limits.maxFrames && p.groupOrdinal == ordinal && p.sequence == ordinal + 1
          && p.terminal == (ordinal + 1 == p.groupCount);
        if (!validEmpty && !validGroup) || (expectedGroupCount.Some? && p.groupCount != expectedGroupCount.value) {
          failure := Some(Corruption);
          return;
        }
        if expectedGroupCount.None? {
          expectedGroupCount := Some(p.groupCount);
        }
        terminal := p.terminal;
      } else if responses != [] || r.position.Some? {
        failure := Some(Corruption);
        return;
      }
      responses := responses + [r];
      complete := terminal;
    }
  }

  // ---- The sender ----

  predicate OwnPosition(id: Identity, r: Reply) {
    r.hint.None? && r.position.Some? && r.position.value.queryId == id.queryId && r.position.value.tabletId == id.tabletId
  }

  /** What the sender makes of a whole vector. */
  function JudgeReplies(limits: StreamLimits, id: Identity, rs: seq<Reply>): Verdict<seq<Reply>> {
    if rs == [] then Refused(InvalidArgument)
    else if |rs| > limits.maxFrames then Refused(ResourceExhausted)
    else if rs[0].status != Ok then
      if |rs| != 1 || rs[0].position.Some? || !Routed(id, rs[0]) then Refused(InvalidArgument)
      else if rs[0].length > limits.maxBytes then Refused(ResourceExhausted)
      else Rejected(rs[0].status, rs[0].hint)
    else if exists i :: 0 <= i < |rs| && !SenderFrame(id, rs[i], i, |rs|) then Refused(InvalidArgument)
    else if TotalBytes(rs) > limits.maxBytes then Refused(ResourceExhausted)
    else Delivered(rs)
  }

  predicate SenderFrame(id: Identity, r: Reply, i: nat, n: nat) {
    Routed(id, r) && r.status == Ok && OwnPosition(id, r) && FrameFits(r, i, n)
  }

  /**
   With equal limits the sender takes exactly the vectors the servers admit whose success frames carry no
   leader hint and whose positions name its own query and tablet.
   */
  lemma SenderIsBatch(limits: StreamLimits, id: Identity, rs: seq<Reply>)
    ensures !JudgeReplies(limits, id, rs).Refused? <==>
      Admits(limits, id, rs) && forall i :: 0 <= i < |rs| && rs[i].status == Ok ==> OwnPosition(id, rs[i])
  {
    if rs != [] && rs[0].status != Ok {
      BytesOfPrefix(rs, 0);
      assert TotalBytes(rs[..0]) == 0;
      assert |rs| == 1 ==> rs[..1] == rs;
      if Admits(limits, id, rs) {
        assert FrameFits(rs[0], 0, |rs|);
      }
    } else if Admits(limits, id, rs) {
      forall i | 0 <= i < |rs|
        ensures rs[i].status == Ok
      {
        assert FrameFits(rs[i], i, |rs|) && FrameFits(rs[0], 0, |rs|);
      }
    }
  }
}
