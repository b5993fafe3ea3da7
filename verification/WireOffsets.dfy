/** Every frame spelled out byte by byte, so that each value's place on the wire can be read off. */
module WireOffsets {
  import opened Common
  import opened Layout
  import opened ExchangeFrames
  import opened ResponseFrames
  import Q = RequestFrames

  /** How a number is spelled in so many bytes. */
  type Spelling = (nat, nat) -> Bytes

  /** Least significant byte first. */
  ghost predicate LittleEndian(le: Spelling) {
    forall n: nat, w: nat {:trigger ToLe(n, w)} :: le(n, w) == ToLe(n, w)
  }

  lemma WireOrder(le: Spelling)
    requires le == ((n: nat, w: nat) => ToLe(n, w))
    ensures LittleEndian(le)
  {
  }

  function Spelled(le: Spelling, widths: Widths, fields: Fields): Bytes
    decreases widths
  {
    match widths
    case End => []
    case Width(w, rest) => if fields.NoFields? then [] else le(fields.value, w) + Spelled(le, rest, fields.rest)
  }

  lemma {:induction false} WrittenIsSpelled(le: Spelling, widths: Widths, fields: Fields)
    requires LittleEndian(le) && Fit(widths, fields)
    ensures WriteFields(widths, fields) == Spelled(le, widths, fields)
    decreases widths
  {
    match widths
    case End =>
    case Width(w, rest) => WrittenIsSpelled(le, rest, fields.rest);
  }

  lemma ThreeSpelled(le: Spelling, w: nat, v: nat, x: nat, rest: Widths, y: nat, u: nat, z: nat, more: Fields)
    ensures Spelled(le, Width(w, Width(v, Width(x, rest))), Field(y, Field(u, Field(z, more)))) ==
      le(y, w) + (le(u, v) + (le(z, x) + Spelled(le, rest, more)))
  {
    assert Spelled(le, Width(v, Width(x, rest)), Field(u, Field(z, more))) == le(u, v) + (le(z, x) + Spelled(le, rest, more));
  }

  /** `start`, closed by its own checksum. */
  predicate Closes(crc: Checksum, le: Spelling, start: Bytes, b: Bytes) {
    |b| == |start| + 4 && b[..|start|] == start && b[|start|..] == le(crc(start), 4)
  }

  /** A record is its magic, its fields and the checksum of both. */
  lemma RecordParts(crc: Checksum, le: Spelling, magic: Bytes, widths: Widths, fields: Fields, b: Bytes)
    requires LittleEndian(le) && Fit(widths, fields) && b == Record(crc, magic, widths, fields)
    ensures Closes(crc, le, magic + Spelled(le, widths, fields), b)
  {
    WrittenIsSpelled(le, widths, fields);
    SealIsSealed(crc, magic + WriteFields(widths, fields));
  }

  // ---- Terminal messages: 64 bytes ----

  function TerminalBody(le: Spelling, m: TerminalMessage): Bytes {
    le(1, 2) + (le(0, 2) + (le(64, 4) + (
    le(m.queryId, 16) + (le(m.tabletId, 16) + (le(m.sequence, 8) + le(0, 4))))))
  }

  lemma TerminalSpelled(le: Spelling, m: TerminalMessage, fields: Fields)
    requires fields ==
      Field(1, Field(0, Field(64, Field(m.queryId, Field(m.tabletId, Field(m.sequence, Field(0, NoFields)))))))
    ensures Spelled(le, TERMINAL_LAYOUT, fields) == TerminalBody(le, m)
  {
    var last, none := Width(4, End), Field(0, NoFields);
    ThreeSpelled(le, 2, 2, 4, Width(16, Width(16, Width(8, last))), 1, 0, 64,
                 Field(m.queryId, Field(m.tabletId, Field(m.sequence, none))));
    ThreeSpelled(le, 16, 16, 8, last, m.queryId, m.tabletId, m.sequence, none);
    assert Spelled(le, last, none) == le(0, 4) + [];
  }

  lemma TerminalOnWire(crc: Checksum, le: Spelling, m: TerminalMessage, b: Bytes)
    requires LittleEndian(le) && EncodeTerminal(crc, m) == Success(b)
    ensures |b| == 64 && Closes(crc, le, TERMINAL_MAGIC + TerminalBody(le, m), b)
  {
    TerminalSpelled(le, m, TerminalFields(m));
    RecordParts(crc, le, TERMINAL_MAGIC, TERMINAL_LAYOUT, TerminalFields(m), b);
  }

  // ---- Partial messages: 136 bytes ----

  function PartialBody(le: Spelling, m: PartialMessage): Bytes {
    var a := m.partial;
    le(1, 2) + (le(0, 2) + (le(136, 4) + (
    le(m.queryId, 16) + (le(m.tabletId, 16) + (le(m.sequence, 8) + (
    le(CanonicalKey(m.groupKey).GetOr(0), 8) + (le(a.count, 8) + (le(a.sum, 8) + (
    le(a.minimum.GetOr(0), 8) + (le(a.maximum.GetOr(0), 8) + (le(a.mean, 8) + (
    le(a.m2, 8) + (le(PartialFlags(m), 4) + le(0, 16))))))))))))))
  }

  lemma PartialSpelled(le: Spelling, m: PartialMessage, fields: Fields)
    requires fields ==
      Field(1, Field(0, Field(136, Field(m.queryId, Field(m.tabletId, Field(m.sequence,
      Field(CanonicalKey(m.groupKey).GetOr(0), Field(m.partial.count, Field(m.partial.sum,
      Field(m.partial.minimum.GetOr(0), Field(m.partial.maximum.GetOr(0), Field(m.partial.mean,
      Field(m.partial.m2, Field(PartialFlags(m), Field(0, NoFields)))))))))))))))
    ensures Spelled(le, PARTIAL_LAYOUT, fields) == PartialBody(le, m)
  {
    var a, key := m.partial, CanonicalKey(m.groupKey).GetOr(0);
    var w4 := Width(8, Width(4, Width(16, End)));
    var w3 := Width(8, Width(8, Width(8, w4)));
    var w2 := Width(8, Width(8, Width(8, w3)));
    var f4 := Field(a.m2, Field(PartialFlags(m), Field(0, NoFields)));
    var f3 := Field(a.minimum.GetOr(0), Field(a.maximum.GetOr(0), Field(a.mean, f4)));
    var f2 := Field(key, Field(a.count, Field(a.sum, f3)));
    ThreeSpelled(le, 2, 2, 4, Width(16, Width(16, Width(8, w2))), 1, 0, 136,
                 Field(m.queryId, Field(m.tabletId, Field(m.sequence, f2))));
    ThreeSpelled(le, 16, 16, 8, w2, m.queryId, m.tabletId, m.sequence, f2);
    ThreeSpelled(le, 8, 8, 8, w3, key, a.count, a.sum, f3);
    ThreeSpelled(le, 8, 8, 8, w4, a.minimum.GetOr(0), a.maximum.GetOr(0), a.mean, f4);
    ThreeSpelled(le, 8, 4, 16, End, a.m2, PartialFlags(m), 0, NoFields);
    assert le(0, 16) + [] == le(0, 16);
  }

  lemma PartialOnWire(crc: Checksum, le: Spelling, m: PartialMessage, b: Bytes)
    requires LittleEndian(le) && EncodePartial(crc, m) == Success(b)
    ensures |b| == 136 && Closes(crc, le, PARTIAL_MAGIC + PartialBody(le, m), b)
  {
    PartialSpelled(le, m, PartialFields(m));
    RecordParts(crc, le, PARTIAL_MAGIC, PARTIAL_LAYOUT, PartialFields(m), b);
  }

  /** Flag bits, lowest first: terminal, key present, minimum present, maximum present. */
  lemma FlagBits(m: PartialMessage)
    requires ValidPartial(m)
    ensures
      var flags := PartialFlags(m);
      && (flags % 2 == 1 <==> m.terminal) && (flags / 2 % 2 == 1 <==> m.groupKey.Some?)
      && (flags / 4 % 2 == 1 <==> m.partial.minimum.Some?) && (flags / 8 % 2 == 1 <==> m.partial.maximum.Some?)
      && flags < 16
  {
  }

  // ---- Responses: a header of 112 bytes, the payload, a checksum ----

  function ResponseBody(le: Spelling, h: ResponseHeader): Bytes {
    le(h.major, 2) + (le(h.minor, 2) + (le(h.headerLength, 4) + (
    le(h.total, 8) + (le(h.source, 8) + (le(h.target, 8) + (
    le(h.queryId, 16) + (le(h.tabletId, 16) + (le(h.status, 1) + (
    le(h.kind, 1) + (le(h.flags, 1) + (le(h.reserved, 1) + (
    le(h.payloadLength, 4) + (le(h.payloadCrc, 4) + (le(h.reservedTwo, 4) + (
    le(h.leader, 8) + (le(h.epoch, 8) + le(h.reservedThree, 4)))))))))))))))))
  }

  lemma ResponseSpelled(le: Spelling, h: ResponseHeader, fields: Fields)
    requires fields ==
      Field(h.major, Field(h.minor, Field(h.headerLength, Field(h.total, Field(h.source, Field(h.target,
      Field(h.queryId, Field(h.tabletId, Field(h.status, Field(h.kind, Field(h.flags, Field(h.reserved,
      Field(h.payloadLength, Field(h.payloadCrc, Field(h.reservedTwo, Field(h.leader, Field(h.epoch,
      Field(h.reservedThree, NoFields))))))))))))))))))
    ensures Spelled(le, RESPONSE_LAYOUT, fields) == ResponseBody(le, h)
  {
    var w6 := Width(8, Width(8, Width(4, End)));
    var w5 := Width(4, Width(4, Width(4, w6)));
    var w4 := Width(1, Width(1, Width(1, w5)));
    var w3 := Width(16, Width(16, Width(1, w4)));
    var f6 := Field(h.leader, Field(h.epoch, Field(h.reservedThree, NoFields)));
    var f5 := Field(h.payloadLength, Field(h.payloadCrc, Field(h.reservedTwo, f6)));
    var f4 := Field(h.kind, Field(h.flags, Field(h.reserved, f5)));
    var f3 := Field(h.queryId, Field(h.tabletId, Field(h.status, f4)));
    ThreeSpelled(le, 2, 2, 4, Width(8, Width(8, Width(8, w3))), h.major, h.minor, h.headerLength,
                 Field(h.total, Field(h.source, Field(h.target, f3))));
    ThreeSpelled(le, 8, 8, 8, w3, h.total, h.source, h.target, f3);
    ThreeSpelled(le, 16, 16, 1, w4, h.queryId, h.tabletId, h.status, f4);
    ThreeSpelled(le, 1, 1, 1, w5, h.kind, h.flags, h.reserved, f5);
    ThreeSpelled(le, 4, 4, 4, w6, h.payloadLength, h.payloadCrc, h.reservedTwo, f6);
    ThreeSpelled(le, 8, 8, 4, End, h.leader, h.epoch, h.reservedThree, NoFields);
    assert le(h.reservedThree, 4) + [] == le(h.reservedThree, 4);
  }

  lemma FrameParts(crc: Checksum, le: Spelling, header: Bytes, payload: Bytes, b: Bytes)
    requires LittleEndian(le) && b == Frame(crc, header, payload)
    ensures |b| == |header| + |payload| + 4 && b[..|header|] == header && b[|header|..|b| - 4] == payload
    ensures b[|b| - 4..] == le(crc(b[..|b| - 4]), 4)
  {
    SealIsSealed(crc, header + payload);
  }

  /** A frame: a header closed by its checksum, the payload, and the checksum of all before it. */
  predicate IsFrame(crc: Checksum, le: Spelling, start: Bytes, payload: Bytes, b: Bytes) {
    var n := |start|;
    && |b| == n + 4 + |payload| + 4 && b[..n] == start && b[n..n + 4] == le(crc(b[..n]), 4)
    && b[n + 4..|b| - 4] == payload && b[|b| - 4..] == le(crc(b[..|b| - 4]), 4)
  }

  lemma FrameSpelled(crc: Checksum, le: Spelling, start: Bytes, header: Bytes, payload: Bytes, b: Bytes)
    requires LittleEndian(le) && Closes(crc, le, start, header) && b == Frame(crc, header, payload)
    ensures IsFrame(crc, le, start, payload, b)
  {
    var n := |start|;
    FrameParts(crc, le, header, payload, b);
    assert b[..n] == header[..n] && b[n..n + 4] == header[n..];
  }

  /** What the header of an encoded response must say. */
  predicate Describes(h: ResponseHeader, crc: Checksum, r: Response, payload: Bytes) {
    && h.major == 1 && h.minor == 0 && h.headerLength == 112 && h.total == 116 + |payload|
    && h.source == r.source && h.target == r.target && h.queryId == r.queryId && h.tabletId == r.tabletId
    && h.status == StatusByte(r.status) && h.reserved == 0 && h.reservedTwo == 0 && h.reservedThree == 0
    && h.kind == (if r.payload.None? then 0 else if r.payload.value.Partial? then 1 else 2)
    && h.flags == (if r.hint.Some? then 1 else 0)
    && h.payloadLength == |payload| && h.payloadCrc == (if r.payload.None? then 0 else crc(payload))
    && h.leader == (if r.hint.Some? then r.hint.value.nodeId else 0)
    && h.epoch == (if r.hint.Some? then r.hint.value.placementEpoch else 0)
  }

  predicate Carries(crc: Checksum, r: Response, payload: Bytes) {
    match r.payload
    case None => payload == []
    case Some(Partial(m)) => |payload| == 136 && EncodePartial(crc, m) == Success(payload)
    case Some(EmptyTerminal(m)) => |payload| == 64 && EncodeTerminal(crc, m) == Success(payload)
  }

  lemma ResponseParts(crc: Checksum, r: Response, b: Bytes) returns (h: ResponseHeader, payload: Bytes)
    requires EncodeResponse(crc, r) == Success(b)
    ensures b == Frame(crc, HeaderBytes(crc, h), payload) && Describes(h, crc, r, payload) && Carries(crc, r, payload)
  {
    payload := EncodePayload(crc, r).value;
    h := HeaderFor(crc, r, payload);
  }

  lemma HeaderSpelled(crc: Checksum, le: Spelling, h: ResponseHeader, header: Bytes)
    requires LittleEndian(le) && header == HeaderBytes(crc, h)
    ensures |header| == 112 && Closes(crc, le, RESPONSE_MAGIC + ResponseBody(le, h), header)
  {
    ResponseTotal();
    ResponseSpelled(le, h, HeaderFields(h));
    RecordParts(crc, le, RESPONSE_MAGIC, RESPONSE_LAYOUT, HeaderFields(h), header);
  }

  /** An encoded response: its header field by field, its payload, and the checksum of all before it. */
  lemma ResponseOnWire(crc: Checksum, le: Spelling, r: Response, b: Bytes) returns (h: ResponseHeader, payload: Bytes)
    requires LittleEndian(le) && EncodeResponse(crc, r) == Success(b)
    ensures IsFrame(crc, le, RESPONSE_MAGIC + ResponseBody(le, h), payload, b)
    ensures Describes(h, crc, r, payload) && Carries(crc, r, payload)
  {
    h, payload := ResponseParts(crc, r, b);
    HeaderSpelled(crc, le, h, HeaderBytes(crc, h));
    FrameSpelled(crc, le, RESPONSE_MAGIC + ResponseBody(le, h), HeaderBytes(crc, h), payload, b);
  }

  // ---- Requests: a header of 80 bytes, the dispatch frame, a checksum ----

  function RequestBody(le: Spelling, h: Q.RequestHeader): Bytes {
    le(h.major, 2) + (le(h.minor, 2) + (le(h.headerLength, 4) + (
    le(h.total, 8) + (le(h.source, 8) + (le(h.target, 8) + (
    le(h.payloadLength, 8) + (le(h.payloadCrc, 4) + le(h.reserved, 24))))))))
  }

  lemma RequestSpelled(le: Spelling, h: Q.RequestHeader, fields: Fields)
    requires fields ==
      Field(h.major, Field(h.minor, Field(h.headerLength, Field(h.total, Field(h.source, Field(h.target,
      Field(h.payloadLength, Field(h.payloadCrc, Field(h.reserved, NoFields)))))))))
    ensures Spelled(le, Q.REQUEST_LAYOUT, fields) == RequestBody(le, h)
  {
    var w3, f3 := Width(8, Width(4, Width(24, End))), Field(h.payloadLength, Field(h.payloadCrc, Field(h.reserved, NoFields)));
    ThreeSpelled(le, 2, 2, 4, Width(8, Width(8, Width(8, w3))), h.major, h.minor, h.headerLength,
                 Field(h.total, Field(h.source, Field(h.target, f3))));
    ThreeSpelled(le, 8, 8, 8, w3, h.total, h.source, h.target, f3);
    ThreeSpelled(le, 8, 4, 24, End, h.payloadLength, h.payloadCrc, h.reserved, NoFields);
    assert le(h.reserved, 24) + [] == le(h.reserved, 24);
  }

  predicate Announces(h: Q.RequestHeader, crc: Checksum, q: Q.Request, payload: Bytes) {
    && h.major == 1 && h.minor == 0 && h.headerLength == 80 && h.total == 84 + |payload|
    && h.source == q.source && h.target == q.target
    && h.payloadLength == |payload| && h.payloadCrc == crc(payload) && h.reserved == 0
  }

  lemma RequestParts(crc: Checksum, codec: Q.DispatchCodec, q: Q.Request, b: Bytes)
    returns (h: Q.RequestHeader, header: Bytes, fields: Fields, payload: Bytes)
    requires Q.EncodeRequest(crc, codec, q) == Success(b)
    ensures Announces(h, crc, q, payload) && codec.encode(q.dispatch) == Success(payload) && b == Frame(crc, header, payload)
    ensures Fit(Q.REQUEST_LAYOUT, fields) && header == Record(crc, Q.REQUEST_MAGIC, Q.REQUEST_LAYOUT, fields) && |header| == 80
    ensures fields ==
      Field(h.major, Field(h.minor, Field(h.headerLength, Field(h.total, Field(h.source,
      Field(h.target, Field(h.payloadLength, Field(h.payloadCrc, Field(h.reserved, NoFields)))))))))
  {
    payload := codec.encode(q.dispatch).value;
    h := Q.HeaderFor(crc, q.source, q.target, payload);
    header, fields := Q.HeaderBytes(crc, h), Q.HeaderFields(h);
  }

  lemma RequestHeaderSpelled(crc: Checksum, le: Spelling, h: Q.RequestHeader, header: Bytes, fields: Fields)
    requires LittleEndian(le) && |header| == 80
    requires Fit(Q.REQUEST_LAYOUT, fields) && header == Record(crc, Q.REQUEST_MAGIC, Q.REQUEST_LAYOUT, fields)
    requires fields ==
      Field(h.major, Field(h.minor, Field(h.headerLength, Field(h.total, Field(h.source,
      Field(h.target, Field(h.payloadLength, Field(h.payloadCrc, Field(h.reserved, NoFields)))))))))
    ensures Closes(crc, le, Q.REQUEST_MAGIC + RequestBody(le, h), header)
  {
    RequestSpelled(le, h, fields);
    RecordParts(crc, le, Q.REQUEST_MAGIC, Q.REQUEST_LAYOUT, fields, header);
  }

  /** An encoded request: its header field by field, the dispatch frame, and the checksum of all before it. */
  lemma RequestOnWire(crc: Checksum, le: Spelling, codec: Q.DispatchCodec, q: Q.Request, b: Bytes)
    returns (h: Q.RequestHeader, payload: Bytes)
    requires LittleEndian(le) && Q.EncodeRequest(crc, codec, q) == Success(b)
    ensures Announces(h, crc, q, payload) && codec.encode(q.dispatch) == Success(payload)
    ensures IsFrame(crc, le, Q.REQUEST_MAGIC + RequestBody(le, h), payload, b)
  {
    var header, fields;
    h, header, fields, payload := RequestParts(crc, codec, q, b);
    RequestHeaderSpelled(crc, le, h, header, fields);
    FrameSpelled(crc, le, Q.REQUEST_MAGIC + RequestBody(le, h), header, payload, b);
  }
}
