/**
 The incremental frame reader: it fills a header first, learns the frame length from it, then fills
 the frame. The request reader and the response reader are this reader over their two formats.
 */
module FrameReader {
  import opened Common

  datatype Format<!T> = Format(
    header: nat, capacity: nat, frameLength: Bytes -> Result<nat>, decode: Bytes -> Result<T>) {
    /** An accepted header announces a frame longer than itself that fits the reader's storage. */
    ghost predicate Bounded() {
      && 0 < header <= capacity
      && forall h :: frameLength(h).Success? ==> header < frameLength(h).value <= capacity
    }
  }

  /** What a byte string begins with. */
  datatype First<+T> = Incomplete | Damaged(code: FailureCode) | Whole(length: nat, value: T)

  function FirstFrame<T>(fmt: Format<T>, s: Bytes): First<T> {
    if |s| < fmt.header then Incomplete
    else match fmt.frameLength(s[..fmt.header])
      case Failure(code) => Damaged(code)
      case Success(n) =>
        if |s| < n then Incomplete
        else match fmt.decode(s[..n])
          case Failure(code) => Damaged(code)
          case Success(value) => Whole(n, value)
  }

  /** A reader between calls: the bytes of an unfinished frame, or a failure that sticks. */
  datatype Tail = Pending(bytes: Bytes) | Broken(code: FailureCode)

  datatype Parsed<+T> = Parsed(frames: seq<T>, tail: Tail)

  /** The one-shot decoder of a whole stream. */
  ghost function Parse<T>(fmt: Format<T>, s: Bytes): Parsed<T>
    requires fmt.Bounded()
    decreases |s|
  {
    match FirstFrame(fmt, s)
    case Incomplete => Parsed([], Pending(s))
    case Damaged(code) => Parsed([], Broken(code))
    case Whole(n, value) =>
      var rest := Parse(fmt, s[n..]);
      Parsed([value] + rest.frames, rest.tail)
  }

  datatype ReadStep<+T> = ReadStep(consumed: nat, frame: Option<T>)

  /** Between calls a reader never holds a whole frame, nor a header it should have rejected. */
  predicate Resting<T>(fmt: Format<T>, tail: Tail) {
    tail.Pending? ==> FirstFrame(fmt, tail.bytes).Incomplete?
  }

  /** What a string begins with does not change when more bytes follow. */
  lemma FirstFrameExtends<T>(fmt: Format<T>, s: Bytes, more: Bytes)
    requires fmt.Bounded()
    ensures !FirstFrame(fmt, s).Incomplete? ==> FirstFrame(fmt, s + more) == FirstFrame(fmt, s)
  {
    if |s| >= fmt.header {
      assert (s + more)[..fmt.header] == s[..fmt.header];
      var length := fmt.frameLength(s[..fmt.header]);
      if length.Success? && |s| >= length.value {
        assert (s + more)[..length.value] == s[..length.value];
      }
    }
  }

  lemma WholeExceedsPending<T>(fmt: Format<T>, held: Bytes, input: Bytes)
    requires fmt.Bounded() && FirstFrame(fmt, held).Incomplete?
    ensures var f := FirstFrame(fmt, held + input); f.Whole? ==> |held| < f.length <= |held| + |input|
  {
    if |held| >= fmt.header {
      assert (held + input)[..fmt.header] == held[..fmt.header];
    }
  }

  /** One call of the reader: at most one frame leaves, and what is not needed stays with the caller. */
  function Step<T>(fmt: Format<T>, tail: Tail, input: Bytes): (step: (Result<ReadStep<T>>, Tail))
    requires fmt.Bounded() && Resting(fmt, tail)
    ensures Resting(fmt, step.1)
    ensures tail.Pending? && step.0.Success? && input != [] ==> step.0.value.consumed > 0
  {
    match tail
    case Broken(code) => (Failure(code), tail)
    case Pending(held) =>
      WholeExceedsPending(fmt, held, input);
      match FirstFrame(fmt, held + input)
      case Incomplete => (Success(ReadStep(|input|, None)), Pending(held + input))
      case Damaged(code) => (Failure(code), Broken(code))
      case Whole(n, value) => (Success(ReadStep(n - |held|, Some(value))), Pending([]))
  }

  class Reader<T> {
    const fmt: Format<T>
    const storage: array<Byte>
    var buffered: nat
    var expected: Option<nat>
    var failure: Option<FailureCode>

    ghost predicate Valid()
      reads this, storage
    {
      && fmt.Bounded() && storage.Length == fmt.capacity
      && (failure.None? ==>
            && buffered < storage.Length
            && (expected.None? ==> buffered < fmt.header)
            && (expected.Some? ==>
                  && fmt.header <= buffered < expected.value
                  && fmt.frameLength(storage[..fmt.header]) == Success(expected.value)))
    }

    ghost function View(): Tail
      reads this, storage
      requires Valid()
    {
      if failure.Some? then Broken(failure.value) else Pending(storage[..buffered])
    }

    lemma ViewRests()
      requires Valid()
      ensures Resting(fmt, View())
    {
      if failure.None? && expected.Some? {
        assert storage[..buffered][..fmt.header] == storage[..fmt.header];
      }
    }

    constructor (fmt: Format<T>)
      requires fmt.Bounded()
      ensures Valid() && fresh(storage) && this.fmt == fmt && View() == Pending([])
    {
      this.fmt := fmt;
      storage := new Byte[fmt.capacity](_ => 0);
      buffered, expected, failure := 0, None, None;
    }

    /** Copies `count` bytes of `input` behind the bytes already held. */
    method Append(input: Bytes, start: nat, count: nat)
      requires start + count <= |input| && buffered + count <= storage.Length
      modifies this`buffered, storage
      ensures buffered == old(buffered) + count
      ensures storage[..buffered] == old(storage[..buffered]) + input[start..start + count]
    {
      var i := 0;
      while i < count
        invariant i <= count && buffered == old(buffered)
        invariant storage[..buffered + i] == old(storage[..buffered]) + input[start..start + i]
      {
        storage[buffered + i] := input[start + i];
        i := i + 1;
      }
      buffered := buffered + count;
    }

    /** Completes the header as far as `input` allows and judges it once it is whole. */
    method FillHeader(input: Bytes) returns (consumed: nat)
      requires Valid() && failure.None? && expected.None?
      modifies this, storage
      ensures Valid() && consumed == Min(|input|, fmt.header - old(buffered))
      ensures failure.None? ==> View() == Pending(old(storage[..buffered]) + input[..consumed])
      ensures match FirstFrame(fmt, old(storage[..buffered]) + input[..consumed])
        case Damaged(code) => failure == Some(code)
        case _ => failure.None? && (expected.None? ==> consumed == |input|)
    {
      ghost var held := storage[..buffered];
      consumed := Min(|input|, fmt.header - buffered);
      Append(input, 0, consumed);
      assert storage[..buffered] == held + input[..consumed];
      if buffered == fmt.header {
        var length := fmt.frameLength(storage[..fmt.header]);
        assert (held + input[..consumed])[..fmt.header] == storage[..fmt.header];
        if length.Failure? {
          failure := Some(length.code);
        } else {
          expected := Some(length.value);
        }
      }
    }

    /** Completes the frame as far as `input` allows and decodes it once it is whole. */
    method FillFrame(input: Bytes) returns (r: Result<ReadStep<T>>)
      requires Valid() && failure.None? && expected.Some?
      modifies this, storage
      ensures Valid()
      ensures Resting(fmt, old(View())) && (r, View()) == Step(fmt, old(View()), input)
    {
      ViewRests();
      ghost var whole := storage[..buffered] + input;
      assert whole[..fmt.header] == storage[..fmt.header];
      var consumed := Min(|input|, expected.value - buffered);
      Append(input, 0, consumed);
      assert storage[..buffered] == whole[..buffered];
      if buffered != expected.value {
        assert whole[..buffered] == whole;
        assert storage[..fmt.header] == whole[..fmt.header];
        return Success(ReadStep(consumed, None));
      }
      var decoded := fmt.decode(storage[..expected.value]);
      if decoded.Failure? {
        failure := Some(decoded.code);
        return Failure(decoded.code);
      }
      buffered, expected := 0, None;
      assert storage[..0] == [];
      return Success(ReadStep(consumed, Some(decoded.value)));
    }

    /** Takes at most one frame from `input`; the rest stays with the caller. */
    method Consume(input: Bytes) returns (r: Result<ReadStep<T>>)
      requires Valid()
      modifies this, storage
      ensures Valid()
      ensures Resting(fmt, old(View())) && (r, View()) == Step(fmt, old(View()), input)
    {
      ViewRests();
      if failure.Some? {
        return Failure(failure.value);
      }
      var consumed := 0;
      if expected.None? {
        ghost var held := storage[..buffered];
        consumed := FillHeader(input);
        FirstFrameExtends(fmt, held + input[..consumed], input[consumed..]);
        assert held + input[..consumed] + input[consumed..] == held + input;
        if failure.Some? {
          return Failure(failure.value);
        }
        if expected.None? {
          assert held + input[..consumed] == held + input;
          return Success(ReadStep(consumed, None));
        }
      } else {
        assert input[consumed..] == input;
      }
      r := FillFrame(input[consumed..]);
      if r.Success? {
        r := Success(r.value.(consumed := r.value.consumed + consumed));
      }
    }
  }
}
