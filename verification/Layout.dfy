/** Little-endian fixed-width fields, and frames closed by a checksum. */
module Layout {
  import opened Common

  type Checksum = Bytes -> U32

  function Pow256(width: nat): (p: nat)
    ensures p >= 1
  {
    if width == 0 then 1 else 256 * Pow256(width - 1)
  }

  /** The low `width` bytes of `n`, least significant first. */
  function ToLe(n: nat, width: nat): (b: Bytes)
    ensures |b| == width
  {
    if width == 0 then [] else [n % 256] + ToLe(n / 256, width - 1)
  }

  function FromLe(b: Bytes): (n: nat)
    ensures n < Pow256(|b|)
  {
    if b == [] then 0 else b[0] + 256 * FromLe(b[1..])
  }

  lemma {:induction false} FromToLe(n: nat, width: nat)
    requires n < Pow256(width)
    ensures FromLe(ToLe(n, width)) == n
  {
    if width > 0 {
      FromToLe(n / 256, width - 1);
      assert ToLe(n, width)[1..] == ToLe(n / 256, width - 1);
    }
  }

  lemma {:induction false} ToFromLe(b: Bytes)
    ensures ToLe(FromLe(b), |b|) == b
  {
    if b != [] {
      ToFromLe(b[1..]);
      assert b == [b[0]] + b[1..];
    }
  }

  lemma Powers()
    ensures Pow256(1) == 0x100
    ensures Pow256(2) == 0x1_0000
    ensures Pow256(4) == 0x1_0000_0000
    ensures Pow256(8) == 0x1_0000_0000_0000_0000
    ensures Pow256(16) == 0x1_0000_0000_0000_0000_0000_0000_0000_0000
  {
  }

  /** A frame layout: field widths in wire order, and the field values in the same order. */
  datatype Widths = End | Width(bytes: nat, rest: Widths)
  datatype Fields = NoFields | Field(value: nat, rest: Fields)

  function Total(widths: Widths): nat {
    match widths
    case End => 0
    case Width(w, rest) => w + Total(rest)
  }

  predicate Fit(widths: Widths, fields: Fields)
    decreases widths
  {
    match widths
    case End => fields.NoFields?
    case Width(w, rest) => fields.Field? && fields.value < Pow256(w) && Fit(rest, fields.rest)
  }

  /** The fields written one after the other, each in its own width. */
  function WriteFields(widths: Widths, fields: Fields): (b: Bytes)
    requires Fit(widths, fields)
    ensures |b| == Total(widths)
    decreases widths
  {
    match widths
    case End => []
    case Width(w, rest) => ToLe(fields.value, w) + WriteFields(rest, fields.rest)
  }

  /** The fields read back in order, as a cursor over `b` would. */
  function ReadFields(widths: Widths, b: Bytes): (fields: Fields)
    requires |b| == Total(widths)
    ensures Fit(widths, fields)
    decreases widths
  {
    match widths
    case End => NoFields
    case Width(w, rest) => Field(FromLe(b[..w]), ReadFields(rest, b[w..]))
  }

  lemma {:induction false} ReadWritten(widths: Widths, fields: Fields)
    requires Fit(widths, fields)
    ensures ReadFields(widths, WriteFields(widths, fields)) == fields
    decreases widths
  {
    match widths
    case End =>
    case Width(w, rest) =>
      var b := WriteFields(widths, fields);
      FromToLe(fields.value, w);
      assert b[..w] == ToLe(fields.value, w);
      assert b[w..] == WriteFields(rest, fields.rest);
      ReadWritten(rest, fields.rest);
  }

  lemma {:induction false} WriteRead(widths: Widths, b: Bytes)
    requires |b| == Total(widths)
    ensures WriteFields(widths, ReadFields(widths, b)) == b
    decreases widths
  {
    match widths
    case End =>
    case Width(w, rest) =>
      ToFromLe(b[..w]);
      WriteRead(rest, b[w..]);
      assert b == b[..w] + b[w..];
  }

  /** `b` closed by its own four-byte checksum. */
  function Seal(crc: Checksum, b: Bytes): (s: Bytes)
    ensures |s| == |b| + 4
  {
    b + ToLe(crc(b), 4)
  }

  predicate Sealed(crc: Checksum, s: Bytes) {
    |s| >= 4 && FromLe(s[|s| - 4..]) == crc(s[..|s| - 4])
  }

  lemma SealIsSealed(crc: Checksum, b: Bytes)
    ensures Sealed(crc, Seal(crc, b))
    ensures Seal(crc, b)[..|b|] == b
  {
    var s := Seal(crc, b);
    Powers();
    FromToLe(crc(b), 4);
    assert s[..|b|] == b && s[|b|..] == ToLe(crc(b), 4);
  }

  lemma SealedIsSeal(crc: Checksum, s: Bytes)
    requires Sealed(crc, s)
    ensures s == Seal(crc, s[..|s| - 4])
  {
    ToFromLe(s[|s| - 4..]);
    assert s == s[..|s| - 4] + s[|s| - 4..];
  }

  /** A checksummed record: magic, then fields, then the checksum of both. */
  function Record(crc: Checksum, magic: Bytes, widths: Widths, fields: Fields): (b: Bytes)
    requires Fit(widths, fields)
    ensures |b| == |magic| + Total(widths) + 4
  {
    Seal(crc, magic + WriteFields(widths, fields))
  }

  predicate IsRecord(crc: Checksum, magic: Bytes, widths: Widths, b: Bytes) {
    |b| == |magic| + Total(widths) + 4 && b[..|magic|] == magic && Sealed(crc, b)
  }

  function RecordFields(magic: Bytes, widths: Widths, b: Bytes): (fields: Fields)
    requires |b| == |magic| + Total(widths) + 4
    ensures Fit(widths, fields)
  {
    ReadFields(widths, b[|magic|..|b| - 4])
  }

  lemma RecordReads(crc: Checksum, magic: Bytes, widths: Widths, fields: Fields)
    requires Fit(widths, fields)
    ensures IsRecord(crc, magic, widths, Record(crc, magic, widths, fields))
    ensures RecordFields(magic, widths, Record(crc, magic, widths, fields)) == fields
  {
    var body := WriteFields(widths, fields);
    var b := Record(crc, magic, widths, fields);
    SealIsSealed(crc, magic + body);
    ReadWritten(widths, fields);
    assert b[..|magic|] == magic by { assert b[..|magic|] == b[..|b| - 4][..|magic|]; }
    assert b[|magic|..|b| - 4] == body;
  }

  lemma RecordWrites(crc: Checksum, magic: Bytes, widths: Widths, b: Bytes)
    requires IsRecord(crc, magic, widths, b)
    ensures Record(crc, magic, widths, RecordFields(magic, widths, b)) == b
  {
    SealedIsSeal(crc, b);
    WriteRead(widths, b[|magic|..|b| - 4]);
    assert b[..|b| - 4] == magic + b[|magic|..|b| - 4];
  }
}
