/** The grouped-query request frame around one fragment dispatch. */
module RequestFrames {
  import opened Common
  import opened Layout
  import ResponseFrames

  /** What one tablet is asked to compute, as far as routing, correlation and rebinding look at it. */
  datatype Dispatch = Dispatch(
    raftGroupId: Uuid, groupKeyInputIndex: U32, queryId: Uuid, databaseId: Uuid, tableId: Uuid,
    tabletId: Uuid, schemaId: Uuid, readPolicy: seq<nat>, columnOrdinals: seq<U32>,
    aggregateInputIndex: U32, eventTimePredicate: Option<(int, int)>,
    servingNode: NodeId, snapshotGeneration: U64, proof: seq<nat>)

  datatype Request = Request(source: NodeId, target: NodeId, dispatch: Dispatch)

  const REQUEST_MAGIC: Bytes := [67, 72, 68, 71, 82, 69, 81, 49]  // CHDGREQ1
  const REQUEST_HEADER := 80
  const MINIMUM_DISPATCH := 352
  const MAXIMUM_DISPATCH := 16732
  const MINIMUM_REQUEST := 436
  const MAXIMUM_REQUEST := 16816
  const REQUEST_LAYOUT :=
    Width(2, Width(2, Width(4, Width(8, Width(8, Width(8, Width(8, Width(4, Width(24, End)))))))))

  /** The nested dispatch codec, taken as given. */
  datatype DispatchCodec = DispatchCodec(encode: Dispatch -> Result<Bytes>, decode: Bytes -> Result<Dispatch>) {
    /** Its two halves are inverse, and its frames keep the length bounds of the dispatch format. */
    ghost predicate Exact() {
      && (forall d :: encode(d).Success? ==>
            MINIMUM_DISPATCH <= |encode(d).value| <= MAXIMUM_DISPATCH && decode(encode(d).value) == Success(d))
      && (forall b :: decode(b).Success? ==> encode(decode(b).value) == Success(b))
    }
  }

  lemma RequestTotal()
    ensures Total(REQUEST_LAYOUT) == REQUEST_HEADER - 12
  {
  }

  datatype RequestHeader = RequestHeader(
    major: U16, minor: U16, headerLength: U32, total: U64, source: U64, target: U64,
    payloadLength: U64, payloadCrc: U32, reserved: nat)

  function HeaderFields(h: RequestHeader): (f: Fields)
    requires h.reserved < Pow256(24)
    ensures Fit(REQUEST_LAYOUT, f)
  {
    Powers();
    Field(h.major, Field(h.minor, Field(h.headerLength, Field(h.total, Field(h.source, Field(h.target,
    Field(h.payloadLength, Field(h.payloadCrc, Field(h.reserved, NoFields)))))))))
  }

  function HeaderFromFields(f: Fields): (h: RequestHeader)
    requires Fit(REQUEST_LAYOUT, f)
    ensures h.reserved < Pow256(24) && HeaderFields(h) == f
  {
    Powers();
    match f
    case Field(major, Field(minor, Field(headerLength, Field(total, Field(source, Field(target,
         Field(payloadLength, Field(payloadCrc, Field(reserved, NoFields))))))))) =>
      RequestHeader(major, minor, headerLength, total, source, target, payloadLength, payloadCrc, reserved)
  }

  function HeaderBytes(crc: Checksum, h: RequestHeader): (b: Bytes)
    requires h.reserved < Pow256(24)
    ensures |b| == REQUEST_HEADER
  {
    RequestTotal();
    Record(crc, REQUEST_MAGIC, REQUEST_LAYOUT, HeaderFields(h))
  }

  /** The header a byte string spells when its magic and its checksum are right. */
  function ReadHeader(crc: Checksum, b: Bytes): (h: Option<RequestHeader>)
    ensures h.Some? ==> h.value.reserved < Pow256(24)
  {
    RequestTotal();
    if !IsRecord(crc, REQUEST_MAGIC, REQUEST_LAYOUT, b) then None
    else Some(HeaderFromFields(RecordFields(REQUEST_MAGIC, REQUEST_LAYOUT, b)))
  }

  lemma HeaderBijection(crc: Checksum, b: Bytes, h: RequestHeader)
    requires h.reserved < Pow256(24)
    ensures ReadHeader(crc, b) == Some(h) <==> b == HeaderBytes(crc, h)
  {
    RequestTotal();
    if ReadHeader(crc, b) == Some(h) {
      RecordWrites(crc, REQUEST_MAGIC, REQUEST_LAYOUT, b);
    }
    if b == HeaderBytes(crc, h) {
      RecordReads(crc, REQUEST_MAGIC, REQUEST_LAYOUT, HeaderFields(h));
      assert HeaderFields(ReadHeader(crc, b).value) == HeaderFields(h);
    }
  }

  function HeaderFor(crc: Checksum, source: NodeId, target: NodeId, payload: Bytes): (h: RequestHeader)
    requires |payload| <= MAXIMUM_DISPATCH
    ensures h.reserved < Pow256(24)
  {
    RequestHeader(1, 0, REQUEST_HEADER, REQUEST_HEADER + |payload| + 4, source, target, |payload|, crc(payload), 0)
  }

  function EncodeRequest(crc: Checksum, codec: DispatchCodec, q: Request): Result<Bytes> {
    if !ResponseFrames.ValidRoute(q.source, q.target) then Failure(InvalidArgument)
    else match codec.encode(q.dispatch)
      case Failure(code) => Failure(code)
      case Success(payload) =>
        // Unreachable for an exact codec: its frames are bounded.
        if |payload| > MAXIMUM_DISPATCH then Failure(ResourceExhausted)
        else
          var header := HeaderBytes(crc, HeaderFor(crc, q.source, q.target, payload));
          Success(ResponseFrames.Frame(crc, header, payload))
  }

  /** Header checks shared by the early check and the whole-frame decoder. */
  predicate HeaderAccepted(h: RequestHeader) {
    && h.headerLength == REQUEST_HEADER && ResponseFrames.ValidRoute(h.source, h.target) && h.reserved == 0
    && MINIMUM_DISPATCH <= h.payloadLength <= MAXIMUM_DISPATCH
    && h.total == REQUEST_HEADER + h.payloadLength + 4
  }

  function DecodeRequest(crc: Checksum, codec: DispatchCodec, b: Bytes): Result<Request> {
    if !(MINIMUM_REQUEST <= |b| <= MAXIMUM_REQUEST) then Failure(Corruption)
    else match ReadHeader(crc, b[..REQUEST_HEADER])
      case None => Failure(Corruption)
      case Some(h) =>
        if h.major != 1 || h.minor != 0 then Failure(NotSupported)
        else if h.total != |b| || !HeaderAccepted(h) || !Sealed(crc, b) then Failure(Corruption)
        else
          var payload := b[REQUEST_HEADER..|b| - 4];
          if h.payloadCrc != crc(payload) then Failure(Corruption)
          else match codec.decode(payload)
            case Failure(code) => Failure(code)
            case Success(d) => Success(Request(h.source, h.target, d))
  }

  /** The frame length a complete header announces, before any of the payload is read. */
  function RequestFrameLength(crc: Checksum, header: Bytes): (r: Result<nat>)
    ensures r.Success? ==> REQUEST_HEADER < r.value <= MAXIMUM_REQUEST
  {
    match ReadHeader(crc, header)
    case None => Failure(Corruption)
    case Some(h) =>
      if h.major != 1 || h.minor != 0 then Failure(NotSupported)
      else if !HeaderAccepted(h) || h.total > MAXIMUM_REQUEST then Failure(Corruption)
      else Success(h.total)
  }

  /** Decoding a frame put together from a readable, acceptable header and its payload. */
  lemma DecodeAssembled(crc: Checksum, codec: DispatchCodec, header: Bytes, h: RequestHeader, payload: Bytes)
    requires |header| == REQUEST_HEADER && ReadHeader(crc, header) == Some(h)
    requires h.major == 1 && h.minor == 0 && HeaderAccepted(h)
    requires h.payloadLength == |payload| && h.payloadCrc == crc(payload)
    requires codec.decode(payload).Success?
    ensures DecodeRequest(crc, codec, ResponseFrames.Frame(crc, header, payload))
         == Success(Request(h.source, h.target, codec.decode(payload).value))
  {
    ResponseFrames.FrameParts(crc, header, payload);
  }

  /** Every request that encodes decodes to itself. */
  lemma RequestRoundTrip(crc: Checksum, codec: DispatchCodec, q: Request)
    requires codec.Exact() && EncodeRequest(crc, codec, q).Success?
    ensures MINIMUM_REQUEST <= |EncodeRequest(crc, codec, q).value| <= MAXIMUM_REQUEST
    ensures DecodeRequest(crc, codec, EncodeRequest(crc, codec, q).value) == Success(q)
  {
    var payload := codec.encode(q.dispatch).value;
    var h := HeaderFor(crc, q.source, q.target, payload);
    HeaderBijection(crc, HeaderBytes(crc, h), h);
    DecodeAssembled(crc, codec, HeaderBytes(crc, h), h, payload);
  }

  /** Encoding under a header the decoder accepts reproduces that header. */
  lemma EncodeAssembled(crc: Checksum, codec: DispatchCodec, header: Bytes, h: RequestHeader, payload: Bytes, d: Dispatch)
    requires ReadHeader(crc, header) == Some(h)
    requires h.major == 1 && h.minor == 0 && HeaderAccepted(h)
    requires h.payloadLength == |payload| && h.payloadCrc == crc(payload)
    requires codec.encode(d) == Success(payload)
    ensures EncodeRequest(crc, codec, Request(h.source, h.target, d)) == Success(ResponseFrames.Frame(crc, header, payload))
  {
    assert HeaderFor(crc, h.source, h.target, payload) == h;
    HeaderBijection(crc, header, h);
  }

  lemma RequestReassembles(crc: Checksum, codec: DispatchCodec, b: Bytes, q: Request)
    requires DecodeRequest(crc, codec, b) == Success(q)
    requires codec.encode(q.dispatch) == Success(b[REQUEST_HEADER..|b| - 4])
    ensures EncodeRequest(crc, codec, q) == Success(b)
  {
    var header, payload := b[..REQUEST_HEADER], b[REQUEST_HEADER..|b| - 4];
    ResponseFrames.FrameWhole(crc, b, REQUEST_HEADER);
    EncodeAssembled(crc, codec, header, ReadHeader(crc, header).value, payload, q.dispatch);
  }

  /** Bytes that decode re-encode to themselves. */
  lemma RequestCanonical(crc: Checksum, codec: DispatchCodec, b: Bytes)
    requires codec.Exact() && DecodeRequest(crc, codec, b).Success?
    ensures EncodeRequest(crc, codec, DecodeRequest(crc, codec, b).value) == Success(b)
  {
    var q := DecodeRequest(crc, codec, b).value;
    assert codec.decode(b[REQUEST_HEADER..|b| - 4]) == Success(q.dispatch);
    RequestReassembles(crc, codec, b, q);
  }

  /** An accepted header announces the only length that can decode; a rejected one has none. */
  lemma RequestHeaderCheckExact(crc: Checksum, codec: DispatchCodec, header: Bytes, b: Bytes)
    requires |header| == REQUEST_HEADER && header <= b
    ensures DecodeRequest(crc, codec, b).Success? ==> RequestFrameLength(crc, header) == Success(|b|)
  {
    assert b[..REQUEST_HEADER] == header;
  }

  /** A rejected header is reported exactly as the decoder reports any completion of legal length. */
  lemma RequestHeaderCheckCode(crc: Checksum, codec: DispatchCodec, header: Bytes, b: Bytes)
    requires |header| == REQUEST_HEADER && header <= b && MINIMUM_REQUEST <= |b| <= MAXIMUM_REQUEST
    requires RequestFrameLength(crc, header).Failure?
    ensures DecodeRequest(crc, codec, b) == Failure(RequestFrameLength(crc, header).code)
  {
    assert b[..REQUEST_HEADER] == header;
  }
}
