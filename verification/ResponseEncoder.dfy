/** The response encoder as it runs: one buffer of the final size, filled from front to back. */
module ResponseEncoder {
  import opened Common
  import opened Layout
  import opened ResponseFrames

  /** A cursor that fills a buffer and refuses to run past its end. */
  class ByteWriter {
    const bytes: array<Byte>
    var offset: nat

    ghost predicate Valid()
      reads this, bytes
    {
      offset <= bytes.Length
    }

    ghost function Written(): Bytes
      requires Valid()
      reads this, bytes
    {
      bytes[..offset]
    }

    constructor (size: nat)
      ensures Valid() && fresh(bytes) && bytes.Length == size && offset == 0
    {
      bytes := new Byte[size](_ => 0);
      offset := 0;
    }

    method WriteExact(data: Bytes) returns (ok: bool)
      requires Valid()
      modifies this, bytes
      ensures Valid() && ok == (|data| <= bytes.Length - old(offset))
      ensures Written() == if ok then old(Written()) + data else old(Written())
    {
      if |data| > bytes.Length - offset {
        return false;
      }
      var i := 0;
      while i < |data|
        modifies bytes
        invariant i <= |data| && bytes[..offset] == old(bytes[..offset]) && bytes[offset..offset + i] == data[..i]
      {
        bytes[offset + i] := data[i];
        i := i + 1;
      }
      assert bytes[..offset + |data|] == bytes[..offset] + bytes[offset..offset + |data|];
      offset := offset + |data|;
      return true;
    }

    /** Once the rest of the layout is written too, the buffer will spell `goal`. */
    ghost predicate Owes(widths: Widths, fields: Fields, goal: Bytes)
      reads this, bytes
    {
      && Valid() && Fit(widths, fields) && offset + Total(widths) <= bytes.Length
      && goal == Written() + WriteFields(widths, fields)
    }

    /** Writes the next field of a layout. */
    method Put(width: nat, value: nat, ghost widths: Widths, ghost fields: Fields, ghost goal: Bytes)
      requires Owes(widths, fields, goal) && widths.Width? && widths.bytes == width && fields.value == value
      modifies this, bytes
      ensures Owes(widths.rest, fields.rest, goal)
    {
      ghost var before := bytes[..offset];
      var ok := WriteExact(ToLe(value, width));
      assert Written() + WriteFields(widths.rest, fields.rest) == before + WriteFields(widths, fields);
    }
  }

  /** Version, sizes and route. */
  method PutRoute(w: ByteWriter, h: ResponseHeader, ghost l: Widths, ghost f: Fields, ghost goal: Bytes)
    requires w.Owes(
      Width(2, Width(2, Width(4, Width(8, Width(8, Width(8, l)))))),
      Field(h.major, Field(h.minor, Field(h.headerLength, Field(h.total, Field(h.source, Field(h.target, f)))))), goal)
    modifies w, w.bytes
    ensures w.Owes(l, f, goal)
  {
    ghost var l3, f3 := Width(8, Width(8, Width(8, l))), Field(h.total, Field(h.source, Field(h.target, f)));
    w.Put(2, h.major, Width(2, Width(2, Width(4, l3))), Field(h.major, Field(h.minor, Field(h.headerLength, f3))), goal);
    w.Put(2, h.minor, Width(2, Width(4, l3)), Field(h.minor, Field(h.headerLength, f3)), goal);
    w.Put(4, h.headerLength, Width(4, l3), Field(h.headerLength, f3), goal);
    w.Put(8, h.total, l3, f3, goal);
    w.Put(8, h.source, l3.rest, f3.rest, goal);
    w.Put(8, h.target, l3.rest.rest, f3.rest.rest, goal);
  }

  /** Query and tablet. */
  method PutIdentity(w: ByteWriter, h: ResponseHeader, ghost l: Widths, ghost f: Fields, ghost goal: Bytes)
    requires w.Owes(Width(16, Width(16, l)), Field(h.queryId, Field(h.tabletId, f)), goal)
    modifies w, w.bytes
    ensures w.Owes(l, f, goal)
  {
    w.Put(16, h.queryId, Width(16, Width(16, l)), Field(h.queryId, Field(h.tabletId, f)), goal);
    w.Put(16, h.tabletId, Width(16, l), Field(h.tabletId, f), goal);
  }

  /** Status and the single-byte fields. */
  method PutOutcome(w: ByteWriter, h: ResponseHeader, ghost l: Widths, ghost f: Fields, ghost goal: Bytes)
    requires w.Owes(
      Width(1, Width(1, Width(1, Width(1, l)))),
      Field(h.status, Field(h.kind, Field(h.flags, Field(h.reserved, f)))), goal)
    modifies w, w.bytes
    ensures w.Owes(l, f, goal)
  {
    ghost var l3, f3 := Width(1, Width(1, Width(1, l))), Field(h.kind, Field(h.flags, Field(h.reserved, f)));
    w.Put(1, h.status, Width(1, l3), Field(h.status, f3), goal);
    w.Put(1, h.kind, l3, f3, goal);
    w.Put(1, h.flags, l3.rest, f3.rest, goal);
    w.Put(1, h.reserved, l3.rest.rest, f3.rest.rest, goal);
  }

  /** Payload length and checksum, leader hint and padding. */
  method PutPayloadFields(w: ByteWriter, h: ResponseHeader, ghost goal: Bytes)
    requires w.Owes(
      Width(4, Width(4, Width(4, Width(8, Width(8, Width(4, End)))))),
      Field(h.payloadLength, Field(h.payloadCrc, Field(h.reservedTwo, Field(h.leader, Field(h.epoch,
      Field(h.reservedThree, NoFields)))))), goal)
    modifies w, w.bytes
    ensures w.Owes(End, NoFields, goal)
  {
    ghost var l3, f3 := Width(8, Width(8, Width(4, End))), Field(h.leader, Field(h.epoch, Field(h.reservedThree, NoFields)));
    w.Put(4, h.payloadLength, Width(4, Width(4, Width(4, l3))),
          Field(h.payloadLength, Field(h.payloadCrc, Field(h.reservedTwo, f3))), goal);
    w.Put(4, h.payloadCrc, Width(4, Width(4, l3)), Field(h.payloadCrc, Field(h.reservedTwo, f3)), goal);
    w.Put(4, h.reservedTwo, Width(4, l3), Field(h.reservedTwo, f3), goal);
    w.Put(8, h.leader, l3, f3, goal);
    w.Put(8, h.epoch, l3.rest, f3.rest, goal);
    w.Put(4, h.reservedThree, l3.rest.rest, f3.rest.rest, goal);
  }

  /** Every field of the header in wire order. */
  method PutFields(w: ByteWriter, h: ResponseHeader, ghost goal: Bytes)
    requires w.Owes(RESPONSE_LAYOUT, HeaderFields(h), goal)
    modifies w, w.bytes
    ensures w.Valid() && w.Written() == goal
  {
    ghost var l4, f4 := Width(4, Width(4, Width(4, Width(8, Width(8, Width(4, End)))))),
      Field(h.payloadLength, Field(h.payloadCrc, Field(h.reservedTwo, Field(h.leader, Field(h.epoch,
      Field(h.reservedThree, NoFields))))));
    ghost var l3, f3 := Width(1, Width(1, Width(1, Width(1, l4)))),
      Field(h.status, Field(h.kind, Field(h.flags, Field(h.reserved, f4))));
    ghost var l2, f2 := Width(16, Width(16, l3)), Field(h.queryId, Field(h.tabletId, f3));
    PutRoute(w, h, l2, f2, goal);
    PutIdentity(w, h, l3, f3, goal);
    PutOutcome(w, h, l4, f4, goal);
    PutPayloadFields(w, h, goal);
    assert w.Written() + [] == w.Written();
  }

  lemma StartOwes(w: ByteWriter, h: ResponseHeader)
    requires w.Valid() && w.Written() == RESPONSE_MAGIC && w.bytes.Length >= RESPONSE_HEADER
    ensures w.Owes(RESPONSE_LAYOUT, HeaderFields(h), RESPONSE_MAGIC + WriteFields(RESPONSE_LAYOUT, HeaderFields(h)))
  {
    ResponseTotal();
  }

  /** The header: magic, every field, then the checksum of what was written so far. */
  method PutHeader(crc: Checksum, w: ByteWriter, h: ResponseHeader)
    requires w.Valid() && w.offset == 0 && w.bytes.Length >= RESPONSE_HEADER
    modifies w, w.bytes
    ensures w.Valid() && w.Written() == HeaderBytes(crc, h)
  {
    var ok := w.WriteExact(RESPONSE_MAGIC);
    assert w.Written() == RESPONSE_MAGIC;
    StartOwes(w, h);
    ghost var goal := RESPONSE_MAGIC + WriteFields(RESPONSE_LAYOUT, HeaderFields(h));
    PutFields(w, h, goal);
    ResponseTotal();
    ok := w.WriteExact(ToLe(crc(w.bytes[..w.offset]), 4));
  }

  /** The whole frame in one buffer of exactly the right size; the closing checksum covers everything before it. */
  method EncodeInto(crc: Checksum, r: Response) returns (encoded: Result<Bytes>)
    ensures encoded == EncodeResponse(crc, r)
  {
    if !ValidRoute(r.source, r.target) || r.queryId == 0 || r.tabletId == 0 || (r.status == Ok) != r.payload.Some? {
      return Failure(InvalidArgument);
    }
    var payload := EncodePayload(crc, r);
    if payload.Failure? {
      return Failure(payload.code);
    }
    if !ValidHint(r.hint) {
      return Failure(InvalidArgument);
    }
    var frame := PutFrame(crc, HeaderFor(crc, r, payload.value), payload.value);
    return Success(frame);
  }

  method PutFrame(crc: Checksum, h: ResponseHeader, payload: Bytes) returns (frame: Bytes)
    ensures frame == Frame(crc, HeaderBytes(crc, h), payload)
  {
    var w := new ByteWriter(RESPONSE_HEADER + |payload| + 4);
    PutHeader(crc, w, h);
    var ok := true;
    if payload != [] {
      ok := w.WriteExact(payload);
    } else {
      assert w.Written() + [] == w.Written();
    }
    ok := w.WriteExact(ToLe(crc(w.bytes[..w.offset]), 4));
    assert w.Written() == w.bytes[..];
    return w.bytes[..];
  }
}
