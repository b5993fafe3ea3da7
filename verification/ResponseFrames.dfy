/** The grouped-query response frame: header, optional payload, trailer, each checksummed. */
module ResponseFrames {
  import opened Common
  import opened Layout
  import opened ExchangeFrames

  datatype LeaderHint = LeaderHint(nodeId: NodeId, placementEpoch: U64)

  datatype Payload = Partial(partial: PartialMessage) | EmptyTerminal(terminal: TerminalMessage) {
    function QueryId(): Uuid {
      if Partial? then partial.queryId else terminal.queryId
    }
    function TabletId(): Uuid {
      if Partial? then partial.tabletId else terminal.tabletId
    }
    function Sequence(): U64 {
      if Partial? then partial.sequence else terminal.sequence
    }
    predicate Closes() {
      EmptyTerminal? || partial.terminal
    }
  }

  datatype Response = Response(
    source: NodeId, target: NodeId, queryId: Uuid, tabletId: Uuid,
    status: StatusCode, payload: Option<Payload>, hint: Option<LeaderHint>)

  const RESPONSE_MAGIC: Bytes := [67, 72, 68, 71, 82, 83, 80, 49]  // CHDGRSP1
  const RESPONSE_HEADER := 112
  const FAILURE_LENGTH := 116
  const EMPTY_LENGTH := 180
  const PARTIAL_LENGTH := 252
  const RESPONSE_LAYOUT :=
    Width(2, Width(2, Width(4, Width(8, Width(8, Width(8, Width(16, Width(16, Width(1, Width(1,
    Width(1, Width(1, Width(4, Width(4, Width(4, Width(8, Width(8, Width(4, End))))))))))))))))))

  // The layout from the status byte on.
  const RESPONSE_TAIL :=
    Width(1, Width(1, Width(1, Width(1, Width(4, Width(4, Width(4, Width(8, Width(8, Width(4, End))))))))))

  lemma ResponseTotal()
    ensures Total(RESPONSE_LAYOUT) == RESPONSE_HEADER - 12
  {
    var layout := RESPONSE_LAYOUT;
    assert layout.rest.rest.rest.rest.rest.rest.rest.rest == RESPONSE_TAIL;
    var tail := RESPONSE_TAIL;
    assert Total(tail) == 36;
    assert Total(layout.rest.rest.rest.rest) == 84;
  }

  function StatusByte(code: StatusCode): Byte {
    match code
    case Ok => 0
    case Cancelled => 1
    case InvalidArgument => 2
    case OutOfRange => 3
    case NotFound => 4
    case AlreadyExists => 5
    case Corruption => 6
    case IoError => 7
    case ResourceExhausted => 8
    case Unavailable => 9
    case NotSupported => 10
    case Unauthenticated => 11
    case Internal => 12
  }

  function StatusOf(b: Byte): Option<StatusCode> {
    match b
    case 0 => Some(Ok)
    case 1 => Some(Cancelled)
    case 2 => Some(InvalidArgument)
    case 3 => Some(OutOfRange)
    case 4 => Some(NotFound)
    case 5 => Some(AlreadyExists)
    case 6 => Some(Corruption)
    case 7 => Some(IoError)
    case 8 => Some(ResourceExhausted)
    case 9 => Some(Unavailable)
    case 10 => Some(NotSupported)
    case 11 => Some(Unauthenticated)
    case 12 => Some(Internal)
    case _ => None
  }

  /** Status codes and their wire bytes correspond one to one; no other byte is a status. */
  lemma StatusBijection(code: StatusCode, b: Byte)
    ensures StatusOf(b) == Some(code) <==> b == StatusByte(code)
  {
  }

  /** The raw header, field by field in wire order. */
  datatype ResponseHeader = ResponseHeader(
    major: U16, minor: U16, headerLength: U32, total: U64, source: U64, target: U64,
    queryId: Uuid, tabletId: Uuid, status: Byte, kind: Byte, flags: Byte, reserved: Byte,
    payloadLength: U32, payloadCrc: U32, reservedTwo: U32, leader: U64, epoch: U64, reservedThree: U32)

  function HeaderFields(h: ResponseHeader): (f: Fields)
    ensures Fit(RESPONSE_LAYOUT, f)
  {
    Powers();
    var tail :=
      Field(h.status, Field(h.kind, Field(h.flags, Field(h.reserved, Field(h.payloadLength,
      Field(h.payloadCrc, Field(h.reservedTwo, Field(h.leader, Field(h.epoch,
      Field(h.reservedThree, NoFields))))))))));
    assert Fit(RESPONSE_TAIL, tail);
    Field(h.major, Field(h.minor, Field(h.headerLength, Field(h.total, Field(h.source, Field(h.target,
    Field(h.queryId, Field(h.tabletId, tail))))))))
  }

  function HeaderFromFields(f: Fields): (h: ResponseHeader)
    requires Fit(RESPONSE_LAYOUT, f)
    ensures HeaderFields(h) == f
  {
    Powers();
    assert Fit(RESPONSE_TAIL, f.rest.rest.rest.rest.rest.rest.rest.rest);
    match f
    case Field(major, Field(minor, Field(headerLength, Field(total, Field(source, Field(target,
         Field(query, Field(tablet, Field(status, Field(kind, Field(flags, Field(reserved,
         Field(payloadLength, Field(payloadCrc, Field(reservedTwo, Field(leader, Field(epoch,
         Field(reservedThree, NoFields)))))))))))))))))) =>
      ResponseHeader(major, minor, headerLength, total, source, target, query, tablet, status, kind,
                     flags, reserved, payloadLength, payloadCrc, reservedTwo, leader, epoch, reservedThree)
  }

  function HeaderBytes(crc: Checksum, h: ResponseHeader): (b: Bytes)
    ensures |b| == RESPONSE_HEADER
  {
    ResponseTotal();
    Record(crc, RESPONSE_MAGIC, RESPONSE_LAYOUT, HeaderFields(h))
  }

  /** The header a byte string spells when its magic and its checksum are right. */
  function ReadHeader(crc: Checksum, b: Bytes): Option<ResponseHeader> {
    ResponseTotal();
    if !IsRecord(crc, RESPONSE_MAGIC, RESPONSE_LAYOUT, b) then None
    else Some(HeaderFromFields(RecordFields(RESPONSE_MAGIC, RESPONSE_LAYOUT, b)))
  }

  /** Reading and writing a header are inverse on everything that reads. */
  lemma HeaderBijection(crc: Checksum, b: Bytes, h: ResponseHeader)
    ensures ReadHeader(crc, b) == Some(h) <==> b == HeaderBytes(crc, h)
  {
    ResponseTotal();
    if ReadHeader(crc, b) == Some(h) {
      RecordWrites(crc, RESPONSE_MAGIC, RESPONSE_LAYOUT, b);
    }
    if b == HeaderBytes(crc, h) {
      RecordReads(crc, RESPONSE_MAGIC, RESPONSE_LAYOUT, HeaderFields(h));
      assert HeaderFields(ReadHeader(crc, b).value) == HeaderFields(h);
    }
  }

  /** The payload bytes of a response that may be sent, or the reason it may not. */
  function EncodePayload(crc: Checksum, r: Response): Result<Bytes> {
    match r.payload
    case None => Success([])
    case Some(p) =>
      if p.QueryId() != r.queryId || p.TabletId() != r.tabletId then Failure(InvalidArgument)
      else match p
        case Partial(m) => EncodePartial(crc, m)
        case EmptyTerminal(m) => EncodeTerminal(crc, m)
  }

  function PayloadKind(payload: Option<Payload>): Byte {
    match payload
    case None => 0
    case Some(Partial(_)) => 1
    case Some(EmptyTerminal(_)) => 2
  }

  predicate ValidRoute(source: NodeId, target: NodeId) {
    source != 0 && target != 0 && source != target
  }

  predicate ValidHint(hint: Option<LeaderHint>) {
    hint.Some? ==> hint.value.nodeId != 0 && hint.value.placementEpoch != 0
  }

  function HeaderFor(crc: Checksum, r: Response, payload: Bytes): ResponseHeader
    requires |payload| <= PARTIAL_FRAME
  {
    var hint := r.hint.GetOr(LeaderHint(0, 0));
    ResponseHeader(
      1, 0, RESPONSE_HEADER, FAILURE_LENGTH + |payload|, r.source, r.target, r.queryId, r.tabletId,
      StatusByte(r.status), PayloadKind(r.payload), if r.hint.Some? then 1 else 0, 0,
      |payload|, if payload == [] then 0 else crc(payload), 0, hint.nodeId, hint.placementEpoch, 0)
  }

  /** A whole frame around already encoded parts. */
  function Frame(crc: Checksum, header: Bytes, payload: Bytes): (b: Bytes)
    ensures |b| == |header| + |payload| + 4
  {
    Seal(crc, header + payload)
  }

  function EncodeResponse(crc: Checksum, r: Response): Result<Bytes> {
    if !ValidRoute(r.source, r.target) || r.queryId == 0 || r.tabletId == 0
       || (r.status == Ok) != r.payload.Some? then Failure(InvalidArgument)
    else
      var payload := EncodePayload(crc, r);
      if payload.Failure? then Failure(payload.code)
      else if !ValidHint(r.hint) then Failure(InvalidArgument)
      else Success(Frame(crc, HeaderBytes(crc, HeaderFor(crc, r, payload.value)), payload.value))
  }

  predicate IsResponseLength(n: nat) {
    n == FAILURE_LENGTH || n == EMPTY_LENGTH || n == PARTIAL_LENGTH
  }

  predicate ValidPayloadShape(kind: Byte, length: U32) {
    (kind == 0 && length == 0) || (kind == 1 && length == PARTIAL_FRAME) || (kind == 2 && length == TERMINAL_FRAME)
  }

  /** The header checks of the whole-frame decoder, for a frame of `n` bytes. */
  predicate HeaderAccepted(h: ResponseHeader, n: nat) {
    && h.headerLength == RESPONSE_HEADER && h.total == n
    && ValidRoute(h.source, h.target) && h.queryId != 0 && h.tabletId != 0
    && StatusOf(h.status).Some? && ValidPayloadShape(h.kind, h.payloadLength)
    && h.flags <= 1 && h.reserved == 0 && h.reservedTwo == 0 && h.reservedThree == 0
    && (h.kind == 0 ==> h.payloadCrc == 0)
    && h.payloadLength == n - FAILURE_LENGTH
    && (h.status == 0 <==> h.kind != 0)
    && (if h.flags == 1 then h.leader != 0 && h.epoch != 0 else h.leader == 0 && h.epoch == 0)
  }

  function DecodePayload(crc: Checksum, h: ResponseHeader, b: Bytes): Result<Option<Payload>> {
    if h.kind == 0 then Success(None)
    else if h.payloadCrc != crc(b) then Failure(Corruption)
    else if h.kind == 1 then
      match DecodePartial(crc, b)
      case Failure(code) => Failure(code)
      case Success(m) =>
        if m.queryId != h.queryId || m.tabletId != h.tabletId then Failure(Corruption) else Success(Some(Partial(m)))
    else
      match DecodeTerminal(crc, b)
      case Failure(code) => Failure(code)
      case Success(m) =>
        if m.queryId != h.queryId || m.tabletId != h.tabletId then Failure(Corruption) else Success(Some(EmptyTerminal(m)))
  }

  function ResponseOf(h: ResponseHeader, payload: Option<Payload>): Response
    requires StatusOf(h.status).Some?
  {
    var hint := if h.flags == 1 then Some(LeaderHint(h.leader, h.epoch)) else None;
    Response(h.source, h.target, h.queryId, h.tabletId, StatusOf(h.status).value, payload, hint)
  }

  function DecodeResponse(crc: Checksum, b: Bytes): Result<Response> {
    if !IsResponseLength(|b|) then Failure(Corruption)
    else match ReadHeader(crc, b[..RESPONSE_HEADER])
      case None => Failure(Corruption)
      case Some(h) => DecodeBehind(crc, h, b)
  }

  /** The rest of a frame of acceptable length, once its header is read. */
  function DecodeBehind(crc: Checksum, h: ResponseHeader, b: Bytes): Result<Response>
    requires |b| >= RESPONSE_HEADER + 4
  {
    if h.tabletId == 0 then Failure(Corruption)
    else if h.major != 1 || h.minor != 0 then Failure(NotSupported)
    else if !HeaderAccepted(h, |b|) || !Sealed(crc, b) then Failure(Corruption)
    else match DecodePayload(crc, h, b[RESPONSE_HEADER..|b| - 4])
      case Failure(code) => Failure(code)
      case Success(payload) => Success(ResponseOf(h, payload))
  }

  /** The frame length a complete header announces, before any of the payload is read. */
  function ResponseFrameLength(crc: Checksum, header: Bytes): (r: Result<nat>)
    ensures r.Success? ==> RESPONSE_HEADER < r.value <= PARTIAL_LENGTH
  {
    match ReadHeader(crc, header)
    case None => Failure(Corruption)
    case Some(h) =>
      if h.major != 1 || h.minor != 0 then Failure(NotSupported)
      else if h.headerLength != RESPONSE_HEADER || !IsResponseLength(h.total) then Failure(Corruption)
      else Success(h.total)
  }

  function CanonicalPayload(p: Payload): Payload {
    if p.Partial? then Partial(Canonicalize(p.partial)) else p
  }

  /** The response a receiver sees: the group key in its canonical bits, everything else as sent. */
  function CanonicalResponse(r: Response): Response {
    if r.payload.Some? then r.(payload := Some(CanonicalPayload(r.payload.value))) else r
  }

  lemma FrameParts(crc: Checksum, header: Bytes, payload: Bytes)
    ensures var b := Frame(crc, header, payload);
      Sealed(crc, b) && b[..|header|] == header && b[|header|..|b| - 4] == payload
  {
    var b := Frame(crc, header, payload);
    SealIsSealed(crc, header + payload);
    assert b[..|header|] == b[..|b| - 4][..|header|];
    assert b[|header|..|b| - 4] == b[..|b| - 4][|header|..];
  }

  lemma FrameWhole(crc: Checksum, b: Bytes, n: nat)
    requires Sealed(crc, b) && n <= |b| - 4
    ensures Frame(crc, b[..n], b[n..|b| - 4]) == b
  {
    SealedIsSeal(crc, b);
    assert b[..|b| - 4] == b[..n] + b[n..|b| - 4];
  }

  /** A payload that encodes decodes, under the header written for it, to its canonical form. */
  lemma PayloadRoundTrip(crc: Checksum, r: Response, payload: Bytes)
    requires EncodePayload(crc, r) == Success(payload)
    ensures |payload| == (if r.payload.None? then 0 else if r.payload.value.Partial? then PARTIAL_FRAME else TERMINAL_FRAME)
    ensures DecodePayload(crc, HeaderFor(crc, r, payload), payload) == Success(CanonicalResponse(r).payload)
  {
    match r.payload
    case None =>
    case Some(Partial(m)) => PartialRoundTrip(crc, m);
    case Some(EmptyTerminal(m)) => TerminalRoundTrip(crc, m);
  }

  /** The header written for a sendable response is one the decoder accepts and reads back. */
  lemma HeaderForReads(crc: Checksum, r: Response, payload: Bytes)
    requires EncodeResponse(crc, r).Success? && EncodePayload(crc, r) == Success(payload)
    requires |payload| == (if r.payload.None? then 0 else if r.payload.value.Partial? then PARTIAL_FRAME else TERMINAL_FRAME)
    ensures HeaderAccepted(HeaderFor(crc, r, payload), FAILURE_LENGTH + |payload|)
    ensures ResponseOf(HeaderFor(crc, r, payload), CanonicalResponse(r).payload) == CanonicalResponse(r)
  {
    StatusBijection(r.status, StatusByte(r.status));
  }

  /** Decoding a frame put together from a readable, acceptable header and its payload. */
  lemma DecodeAssembled(crc: Checksum, h: ResponseHeader, payload: Bytes, decoded: Option<Payload>)
    requires h.major == 1 && h.minor == 0 && HeaderAccepted(h, FAILURE_LENGTH + |payload|)
    requires DecodePayload(crc, h, payload) == Success(decoded)
    ensures DecodeResponse(crc, Frame(crc, HeaderBytes(crc, h), payload)) == Success(ResponseOf(h, decoded))
  {
    HeaderBijection(crc, HeaderBytes(crc, h), h);
    FrameParts(crc, HeaderBytes(crc, h), payload);
  }

  /** Every response that encodes decodes to itself with its group key canonical. */
  lemma ResponseRoundTrip(crc: Checksum, r: Response)
    requires EncodeResponse(crc, r).Success?
    ensures IsResponseLength(|EncodeResponse(crc, r).value|)
    ensures DecodeResponse(crc, EncodeResponse(crc, r).value) == Success(CanonicalResponse(r))
  {
    var payload := EncodePayload(crc, r).value;
    PayloadRoundTrip(crc, r, payload);
    HeaderForReads(crc, r, payload);
    DecodeAssembled(crc, HeaderFor(crc, r, payload), payload, CanonicalResponse(r).payload);
  }

  /** The keys whose bits the encoder leaves alone: no negative zero, and no NaN but the quiet one. */
  predicate KeyTravelsUnchanged(key: Option<F64>) {
    key.Some? ==> key.value != NEGATIVE_ZERO && (IsNan(key.value) ==> key.value == QUIET_NAN)
  }

  /** A response comes back exactly as sent when, and only when, its group key was already canonical. */
  lemma ResponseExactRoundTrip(crc: Checksum, r: Response)
    requires EncodeResponse(crc, r).Success?
    ensures DecodeResponse(crc, EncodeResponse(crc, r).value) == Success(r)
      <==> (r.payload.Some? && r.payload.value.Partial? ==> KeyTravelsUnchanged(r.payload.value.partial.groupKey))
  {
    ResponseRoundTrip(crc, r);
  }

  /** A group keyed by negative zero arrives keyed by positive zero. */
  lemma NegativeZeroKeyChanges(crc: Checksum)
    ensures
      var m := PartialMessage(1, 2, 1, Some(NEGATIVE_ZERO), Aggregate(0, 0, None, None, 0, 0), true);
      var r := Response(3, 4, 1, 2, Ok, Some(Partial(m)), None);
      EncodeResponse(crc, r).Success?
      && DecodeResponse(crc, EncodeResponse(crc, r).value) == Success(r.(payload := Some(Partial(m.(groupKey := Some(0))))))
  {
    var m := PartialMessage(1, 2, 1, Some(NEGATIVE_ZERO), Aggregate(0, 0, None, None, 0, 0), true);
    var r := Response(3, 4, 1, 2, Ok, Some(Partial(m)), None);
    assert ValidPartial(m) && EncodeResponse(crc, r).Success?;
    ResponseRoundTrip(crc, r);
  }

  lemma PartialPayloadCanonical(crc: Checksum, h: ResponseHeader, b: Bytes, r: Response)
    requires h.kind == 1 && DecodePayload(crc, h, b) == Success(r.payload)
    requires r.queryId == h.queryId && r.tabletId == h.tabletId
    ensures EncodePayload(crc, r) == Success(b) && PayloadKind(r.payload) == 1
  {
    PartialCanonical(crc, b);
  }

  lemma EmptyPayloadCanonical(crc: Checksum, h: ResponseHeader, b: Bytes, r: Response)
    requires h.kind == 2 && DecodePayload(crc, h, b) == Success(r.payload)
    requires r.queryId == h.queryId && r.tabletId == h.tabletId
    ensures EncodePayload(crc, r) == Success(b) && PayloadKind(r.payload) == 2
  {
    TerminalCanonical(crc, b);
  }

  lemma PayloadCanonical(crc: Checksum, h: ResponseHeader, b: Bytes, r: Response)
    requires h.kind <= 2 && |b| == h.payloadLength && ValidPayloadShape(h.kind, h.payloadLength)
    requires DecodePayload(crc, h, b) == Success(r.payload)
    requires r.queryId == h.queryId && r.tabletId == h.tabletId
    ensures EncodePayload(crc, r) == Success(b) && PayloadKind(r.payload) == h.kind
  {
    if h.kind == 1 {
      PartialPayloadCanonical(crc, h, b, r);
    } else if h.kind == 2 {
      EmptyPayloadCanonical(crc, h, b, r);
    }
  }

  /** A header the decoder accepts is the one written for the response it yields. */
  lemma HeaderForUnique(crc: Checksum, h: ResponseHeader, payload: Bytes, decoded: Option<Payload>)
    requires h.major == 1 && h.minor == 0 && HeaderAccepted(h, FAILURE_LENGTH + |payload|)
    requires PayloadKind(decoded) == h.kind && (h.kind != 0 ==> h.payloadCrc == crc(payload))
    ensures HeaderFor(crc, ResponseOf(h, decoded), payload) == h
    ensures ResponseOf(h, decoded).status == Ok <==> decoded.Some?
  {
  }

  /** Bytes that decode are the only bytes for that response: they re-encode to themselves. */
  lemma ResponseCanonical(crc: Checksum, b: Bytes)
    requires DecodeResponse(crc, b).Success?
    ensures EncodeResponse(crc, DecodeResponse(crc, b).value) == Success(b)
  {
    var header, payload := b[..RESPONSE_HEADER], b[RESPONSE_HEADER..|b| - 4];
    var h := ReadHeader(crc, header).value;
    var r := DecodeResponse(crc, b).value;
    PayloadCanonical(crc, h, payload, r);
    HeaderForUnique(crc, h, payload, r.payload);
    HeaderBijection(crc, header, h);
    FrameWhole(crc, b, RESPONSE_HEADER);
  }

  predicate ValidPayload(p: Payload) {
    match p
    case Partial(m) => ValidPartial(m)
    case EmptyTerminal(m) => ValidTerminal(m)
  }

  /** Which responses may be sent, written out; nothing else is ever answered than an invalid argument. */
  lemma EncodesExactly(crc: Checksum, r: Response)
    ensures EncodeResponse(crc, r).Success? <==>
      && r.source != 0 && r.target != 0 && r.source != r.target && r.queryId != 0 && r.tabletId != 0
      && (r.status == Ok <==> r.payload.Some?)
      && (r.payload.Some? ==>
            && r.payload.value.QueryId() == r.queryId && r.payload.value.TabletId() == r.tabletId
            && ValidPayload(r.payload.value))
      && (r.hint.Some? ==> r.hint.value.nodeId != 0 && r.hint.value.placementEpoch != 0)
    ensures EncodeResponse(crc, r).Failure? ==> EncodeResponse(crc, r).code == InvalidArgument
  {
  }

  /** The only responses the decoder ever yields. */
  predicate Decoded(r: Response) {
    && ValidRoute(r.source, r.target) && r.queryId != 0 && r.tabletId != 0
    && (r.status == Ok <==> r.payload.Some?) && ValidHint(r.hint)
    && (r.payload.Some? ==>
          && r.payload.value.QueryId() == r.queryId && r.payload.value.TabletId() == r.tabletId
          && ValidPayload(r.payload.value))
    && CanonicalResponse(r) == r
  }

  /** What encodes, canonical keys apart, is what decodes. */
  lemma DecodedEncodes(crc: Checksum, r: Response)
    ensures Decoded(r) <==> EncodeResponse(crc, r).Success? && CanonicalResponse(r) == r
  {
  }

  /** A response can come out of the decoder if and only if it is routed, identified, shaped and valid in every part. */
  lemma DecodedResponses(crc: Checksum, r: Response)
    ensures (exists b :: DecodeResponse(crc, b) == Success(r)) <==> Decoded(r)
  {
    DecodedEncodes(crc, r);
    if b :| DecodeResponse(crc, b) == Success(r) {
      ResponseCanonical(crc, b);
      ResponseRoundTrip(crc, r);
    }
    if Decoded(r) {
      ResponseRoundTrip(crc, r);
    }
  }

  /**
   The early check never loses a frame and never misjudges one: a rejected header has no completion
   that decodes, and an accepted header announces the only length at which the decoder can succeed.
   */
  lemma ResponseHeaderCheckExact(crc: Checksum, header: Bytes, b: Bytes)
    requires |header| == RESPONSE_HEADER && header <= b
    ensures DecodeResponse(crc, b).Success? ==> ResponseFrameLength(crc, header) == Success(|b|)
  {
    assert b[..RESPONSE_HEADER] == header;
  }

  lemma RejectedBehind(crc: Checksum, h: ResponseHeader, b: Bytes)
    requires |b| >= RESPONSE_HEADER + 4 && IsResponseLength(|b|)
    ensures h.major != 1 || h.minor != 0 ==>
      DecodeBehind(crc, h, b) == Failure(if h.tabletId == 0 then Corruption else NotSupported)
    ensures h.major == 1 && h.minor == 0 && (h.headerLength != RESPONSE_HEADER || !IsResponseLength(h.total)) ==>
      DecodeBehind(crc, h, b) == Failure(Corruption)
  {
  }

  /** An unsupported version around a nil tablet. */
  predicate UnsupportedAndNil(crc: Checksum, header: Bytes) {
    var h := ReadHeader(crc, header);
    h.Some? && (h.value.major != 1 || h.value.minor != 0) && h.value.tabletId == 0
  }

  /**
   A rejected header is reported with the code the whole-frame decoder gives to every completion of
   acceptable length if and only if it does not put an unsupported version around a nil tablet: the
   early check calls that unsupported, the decoder corrupt.
   */
  lemma ResponseHeaderCheckCode(crc: Checksum, header: Bytes, b: Bytes)
    requires |header| == RESPONSE_HEADER && header <= b && IsResponseLength(|b|)
    requires ResponseFrameLength(crc, header).Failure?
    ensures DecodeResponse(crc, b) == Failure(ResponseFrameLength(crc, header).code) <==> !UnsupportedAndNil(crc, header)
  {
    assert b[..RESPONSE_HEADER] == header;
    if ReadHeader(crc, header).Some? {
      RejectedBehind(crc, ReadHeader(crc, header).value, b);
    }
  }

  /** Such a header: version two, nothing else set. */
  lemma VersionTwoNilTablet(crc: Checksum)
    ensures
      var header := HeaderBytes(crc, ResponseHeader(2, 0, 0, 0, 0, 0, 0, 0, 0, 0, 0, 0, 0, 0, 0, 0, 0, 0));
      var b := header + [0, 0, 0, 0];
      && UnsupportedAndNil(crc, header) && |b| == FAILURE_LENGTH
      && ResponseFrameLength(crc, header) == Failure(NotSupported) && DecodeResponse(crc, b) == Failure(Corruption)
  {
    var h := ResponseHeader(2, 0, 0, 0, 0, 0, 0, 0, 0, 0, 0, 0, 0, 0, 0, 0, 0, 0);
    var header := HeaderBytes(crc, h);
    var b := header + [0, 0, 0, 0];
    HeaderBijection(crc, header, h);
    assert b[..RESPONSE_HEADER] == header;
  }
}
