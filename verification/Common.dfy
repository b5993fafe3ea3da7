/** Vocabulary shared by every layer of the grouped-query path. */
module Common {

  type Byte = x: int | 0 <= x < 0x100
  type U16 = x: int | 0 <= x < 0x1_0000
  type U32 = x: int | 0 <= x < 0x1_0000_0000
  type U64 = x: int | 0 <= x < 0x1_0000_0000_0000_0000
  type Bytes = seq<Byte>

  const U64_MAX: U64 := 0xFFFF_FFFF_FFFF_FFFF

  /** A UUID is the number its sixteen wire bytes spell, low byte first; the nil UUID is zero. */
  type Uuid = x: int | 0 <= x < 0x1_0000_0000_0000_0000_0000_0000_0000_0000

  type NodeId = U64

  datatype Option<+T> = None | Some(value: T) {
    function GetOr(default: T): T {
      if Some? then value else default
    }
  }

  datatype StatusCode =
    | Ok
    | Cancelled
    | InvalidArgument
    | OutOfRange
    | NotFound
    | AlreadyExists
    | Corruption
    | IoError
    | ResourceExhausted
    | Unavailable
    | NotSupported
    | Unauthenticated
    | Internal

  type FailureCode = c: StatusCode | c != Ok witness Internal

  /** Status texts are not modelled: a failure is its code. */
  datatype Result<+T> = Success(value: T) | Failure(code: FailureCode)

  function Min(a: int, b: int): int {
    if a <= b then a else b
  }
}
