/**
 The two payloads a grouped response can carry: one grouped partial aggregate, or the terminal that
 closes an empty stream. A FLOAT64 is its 64-bit pattern.
 */
module ExchangeFrames {
  import opened Common
  import opened Layout

  type F64 = U64

  const NEGATIVE_ZERO: F64 := 0x8000_0000_0000_0000
  const INFINITY: F64 := 0x7FF0_0000_0000_0000
  const QUIET_NAN: F64 := 0x7FF8_0000_0000_0000

  datatype Aggregate = Aggregate(
    count: U64, sum: F64, minimum: Option<F64>, maximum: Option<F64>, mean: F64, m2: F64)

  datatype PartialMessage = PartialMessage(
    queryId: Uuid, tabletId: Uuid, sequence: U64, groupKey: Option<F64>, partial: Aggregate, terminal: bool)

  datatype TerminalMessage = TerminalMessage(queryId: Uuid, tabletId: Uuid, sequence: U64)

  const PARTIAL_FRAME := 136
  const TERMINAL_FRAME := 64
  const PARTIAL_MAGIC: Bytes := [67, 72, 68, 88, 71, 82, 80, 49]   // CHDXGRP1
  const TERMINAL_MAGIC: Bytes := [67, 72, 68, 88, 71, 82, 84, 49]  // CHDXGRT1
  const PARTIAL_LAYOUT :=
    Width(2, Width(2, Width(4, Width(16, Width(16, Width(8, Width(8, Width(8, Width(8, Width(8,
    Width(8, Width(8, Width(8, Width(4, Width(16, End)))))))))))))))
  const TERMINAL_LAYOUT :=
    Width(2, Width(2, Width(4, Width(16, Width(16, Width(8, Width(4, End)))))))

  lemma PartialTotal()
    ensures Total(PARTIAL_LAYOUT) == PARTIAL_FRAME - 12
  {
    var layout := PARTIAL_LAYOUT;
    assert Total(layout.rest.rest.rest) == 116;
  }

  lemma TerminalTotal()
    ensures Total(TERMINAL_LAYOUT) == TERMINAL_FRAME - 12
  {
  }

  predicate IsNan(bits: F64) {
    INFINITY < bits < NEGATIVE_ZERO || NEGATIVE_ZERO + INFINITY < bits
  }

  /** A NaN has every exponent bit set and a fraction that is not zero, whatever its sign. */
  lemma NanByBits(bits: F64)
    ensures IsNan(bits) <==> bits / 0x10_0000_0000_0000 % 0x800 == 0x7FF && bits % 0x10_0000_0000_0000 != 0
  {
    assert bits == bits / 0x10_0000_0000_0000 * 0x10_0000_0000_0000 + bits % 0x10_0000_0000_0000;
  }

  /** Both zeros share one key and every NaN shares one key. */
  function CanonicalKeyBits(bits: F64): F64 {
    if bits == NEGATIVE_ZERO then 0 else if IsNan(bits) then QUIET_NAN else bits
  }

  function CanonicalKey(key: Option<F64>): Option<F64> {
    if key.Some? then Some(CanonicalKeyBits(key.value)) else None
  }

  function Canonicalize(m: PartialMessage): PartialMessage {
    m.(groupKey := CanonicalKey(m.groupKey))
  }

  predicate ValidAggregate(a: Aggregate) {
    && (a.minimum.Some? <==> a.maximum.Some?)
    && (a.count == 0 ==> a.minimum.None? && a.sum == 0 && a.mean == 0 && a.m2 == 0)
    && (a.count != 0 ==> a.minimum.Some?)
  }

  predicate ValidPartial(m: PartialMessage) {
    m.queryId != 0 && m.tabletId != 0 && m.sequence != 0 && ValidAggregate(m.partial)
  }

  predicate ValidTerminal(m: TerminalMessage) {
    m.queryId != 0 && m.tabletId != 0 && m.sequence != 0
  }

  /** Flag bits, lowest first: terminal, key present, minimum present, maximum present. */
  function PartialFlags(m: PartialMessage): (flags: nat)
    ensures flags < 16
  {
    (if m.terminal then 1 else 0) + (if m.groupKey.Some? then 2 else 0)
    + (if m.partial.minimum.Some? then 12 else 0)
  }

  function PartialFields(m: PartialMessage): (f: Fields)
    ensures Fit(PARTIAL_LAYOUT, f)
  {
    Powers();
    var a := m.partial;
    Field(1, Field(0, Field(PARTIAL_FRAME, Field(m.queryId, Field(m.tabletId, Field(m.sequence,
    Field(CanonicalKey(m.groupKey).GetOr(0), Field(a.count, Field(a.sum, Field(a.minimum.GetOr(0),
    Field(a.maximum.GetOr(0), Field(a.mean, Field(a.m2, Field(PartialFlags(m), Field(0, NoFields)))))))))))))))
  }

  function EncodePartial(crc: Checksum, m: PartialMessage): (r: Result<Bytes>)
    ensures r.Success? ==> |r.value| == PARTIAL_FRAME
  {
    PartialTotal();
    if !ValidPartial(m) then Failure(InvalidArgument)
    else Success(Record(crc, PARTIAL_MAGIC, PARTIAL_LAYOUT, PartialFields(m)))
  }

  /** The message a list of raw fields spells, if some encoder could have written them. */
  function PartialFromFields(f: Fields): Result<PartialMessage>
    requires Fit(PARTIAL_LAYOUT, f)
  {
    Powers();
    match f
    case Field(major, Field(minor, Field(length, Field(query, Field(tablet, Field(sequence, Field(key,
         Field(count, Field(sum, Field(minimum, Field(maximum, Field(mean, Field(m2, Field(flags,
         Field(reserved, NoFields))))))))))))))) =>
      if major != 1 || minor != 0 then Failure(NotSupported)
      else if length != PARTIAL_FRAME || flags >= 16 || reserved != 0 then Failure(Corruption)
      else
        var extrema, keyed := flags / 4 % 2 == 1, flags / 2 % 2 == 1;
        if extrema != (flags / 8 == 1) then Failure(Corruption)
        else if key != (if keyed then CanonicalKeyBits(key) else 0) then Failure(Corruption)
        else if !extrema && (minimum != 0 || maximum != 0) then Failure(Corruption)
        else
          var m := PartialMessage(
            query, tablet, sequence, if keyed then Some(key) else None,
            Aggregate(count, sum, if extrema then Some(minimum) else None,
                      if extrema then Some(maximum) else None, mean, m2),
            flags % 2 == 1);
          if ValidPartial(m) then Success(m) else Failure(Corruption)
    case _ => Failure(Corruption)
  }

  function DecodePartial(crc: Checksum, b: Bytes): Result<PartialMessage> {
    PartialTotal();
    if !IsRecord(crc, PARTIAL_MAGIC, PARTIAL_LAYOUT, b) then Failure(Corruption)
    else PartialFromFields(RecordFields(PARTIAL_MAGIC, PARTIAL_LAYOUT, b))
  }

  function TerminalFields(m: TerminalMessage): (f: Fields)
    ensures Fit(TERMINAL_LAYOUT, f)
  {
    Powers();
    Field(1, Field(0, Field(TERMINAL_FRAME, Field(m.queryId, Field(m.tabletId, Field(m.sequence,
    Field(0, NoFields)))))))
  }

  function EncodeTerminal(crc: Checksum, m: TerminalMessage): (r: Result<Bytes>)
    ensures r.Success? ==> |r.value| == TERMINAL_FRAME
  {
    TerminalTotal();
    if !ValidTerminal(m) then Failure(InvalidArgument)
    else Success(Record(crc, TERMINAL_MAGIC, TERMINAL_LAYOUT, TerminalFields(m)))
  }

  function TerminalFromFields(f: Fields): Result<TerminalMessage>
    requires Fit(TERMINAL_LAYOUT, f)
  {
    Powers();
    match f
    case Field(major, Field(minor, Field(length, Field(query, Field(tablet, Field(sequence,
         Field(reserved, NoFields))))))) =>
      if major != 1 || minor != 0 then Failure(NotSupported)
      else if length != TERMINAL_FRAME || reserved != 0 then Failure(Corruption)
      else
        var m := TerminalMessage(query, tablet, sequence);
        if ValidTerminal(m) then Success(m) else Failure(Corruption)
    case _ => Failure(Corruption)
  }

  function DecodeTerminal(crc: Checksum, b: Bytes): Result<TerminalMessage> {
    TerminalTotal();
    if !IsRecord(crc, TERMINAL_MAGIC, TERMINAL_LAYOUT, b) then Failure(Corruption)
    else TerminalFromFields(RecordFields(TERMINAL_MAGIC, TERMINAL_LAYOUT, b))
  }

  lemma PartialFieldsInverse(m: PartialMessage)
    requires ValidPartial(m)
    ensures PartialFromFields(PartialFields(m)) == Success(Canonicalize(m))
  {
    var flags := PartialFlags(m);
    assert flags / 4 % 2 == 1 <==> m.partial.minimum.Some?;
    assert flags / 2 % 2 == 1 <==> m.groupKey.Some?;
  }

  lemma PartialFromFieldsInverse(f: Fields)
    requires Fit(PARTIAL_LAYOUT, f) && PartialFromFields(f).Success?
    ensures PartialFields(PartialFromFields(f).value) == f
  {
    var flags := f.rest.rest.rest.rest.rest.rest.rest.rest.rest.rest.rest.rest.rest.value;
    assert PartialFlags(PartialFromFields(f).value) == flags;
  }

  /** Decoding what was encoded gives the message back with its group key made canonical. */
  lemma PartialRoundTrip(crc: Checksum, m: PartialMessage)
    requires ValidPartial(m)
    ensures EncodePartial(crc, m).Success?
    ensures DecodePartial(crc, EncodePartial(crc, m).value) == Success(Canonicalize(m))
  {
    RecordReads(crc, PARTIAL_MAGIC, PARTIAL_LAYOUT, PartialFields(m));
    PartialFieldsInverse(m);
  }

  /** Only canonical bytes decode: whatever decodes re-encodes to the same bytes. */
  lemma PartialCanonical(crc: Checksum, b: Bytes)
    requires DecodePartial(crc, b).Success?
    ensures EncodePartial(crc, DecodePartial(crc, b).value) == Success(b)
  {
    RecordWrites(crc, PARTIAL_MAGIC, PARTIAL_LAYOUT, b);
    PartialFromFieldsInverse(RecordFields(PARTIAL_MAGIC, PARTIAL_LAYOUT, b));
  }

  lemma TerminalRoundTrip(crc: Checksum, m: TerminalMessage)
    requires ValidTerminal(m)
    ensures EncodeTerminal(crc, m).Success?
    ensures DecodeTerminal(crc, EncodeTerminal(crc, m).value) == Success(m)
  {
    RecordReads(crc, TERMINAL_MAGIC, TERMINAL_LAYOUT, TerminalFields(m));
  }

  lemma TerminalCanonical(crc: Checksum, b: Bytes)
    requires DecodeTerminal(crc, b).Success?
    ensures EncodeTerminal(crc, DecodeTerminal(crc, b).value) == Success(b)
  {
    RecordWrites(crc, TERMINAL_MAGIC, TERMINAL_LAYOUT, b);
  }
}
