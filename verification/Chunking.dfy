/** However a stream is cut into chunks, the incremental reader yields what one-shot parsing yields. */
module Chunking {
  import opened Common
  import opened FrameReader

  function Concat<T>(parts: seq<seq<T>>): seq<T> {
    if parts == [] then [] else parts[0] + Concat(parts[1..])
  }

  lemma ConcatCons<T>(x: seq<T>, xs: seq<seq<T>>)
    ensures Concat([x] + xs) == x + Concat(xs)
  {
  }

  lemma Associates<T>(x: seq<T>, y: seq<T>, z: seq<T>)
    ensures (x + y) + z == x + (y + z)
  {
  }

  lemma {:induction false} ConcatAppends<T>(a: seq<seq<T>>, b: seq<seq<T>>)
    ensures Concat(a + b) == Concat(a) + Concat(b)
  {
    if a == [] {
      assert a + b == b;
    } else {
      assert a + b == [a[0]] + (a[1..] + b);
      ConcatCons(a[0], a[1..] + b);
      ConcatAppends(a[1..], b);
      Associates(a[0], Concat(a[1..]), Concat(b));
    }
  }

  lemma ConcatLast<T>(parts: seq<seq<T>>)
    requires parts != []
    ensures Concat(parts) == Concat(parts[..|parts| - 1]) + parts[|parts| - 1]
  {
    var init, last := parts[..|parts| - 1], parts[|parts| - 1];
    assert parts == init + [last];
    ConcatAppends(init, [last]);
    assert Concat([last]) == last + Concat([]);
  }

  /** One received chunk: the reader is called again with what it left until nothing is left. */
  function Drain<T>(fmt: Format<T>, tail: Tail, chunk: Bytes): (p: Parsed<T>)
    requires fmt.Bounded() && Resting(fmt, tail)
    ensures Resting(fmt, p.tail)
    decreases |chunk|
  {
    if chunk == [] || tail.Broken? then Parsed([], tail)
    else
      var (r, next) := Step(fmt, tail, chunk);
      if r.Failure? then Parsed([], next)
      else
        WholeExceedsPending(fmt, tail.bytes, chunk);
        var rest := Drain(fmt, next, chunk[r.value.consumed..]);
        Parsed((if r.value.frame.Some? then [r.value.frame.value] else []) + rest.frames, rest.tail)
  }

  ghost function Feed<T>(fmt: Format<T>, tail: Tail, chunks: seq<Bytes>): (p: Parsed<T>)
    requires fmt.Bounded() && Resting(fmt, tail)
    decreases |chunks|
  {
    if chunks == [] then Parsed([], tail)
    else
      var first := Drain(fmt, tail, chunks[0]);
      var rest := Feed(fmt, first.tail, chunks[1..]);
      Parsed(first.frames + rest.frames, rest.tail)
  }

  lemma ParsePending<T>(fmt: Format<T>, held: Bytes)
    requires fmt.Bounded() && FirstFrame(fmt, held).Incomplete?
    ensures Parse(fmt, held) == Parsed([], Pending(held))
  {
  }

  lemma {:induction false} DrainIsParse<T>(fmt: Format<T>, held: Bytes, chunk: Bytes)
    requires fmt.Bounded() && FirstFrame(fmt, held).Incomplete?
    ensures Drain(fmt, Pending(held), chunk) == Parse(fmt, held + chunk)
    decreases |chunk|
  {
    var whole := held + chunk;
    if chunk == [] {
      assert whole == held;
    } else {
      WholeExceedsPending(fmt, held, chunk);
      var f := FirstFrame(fmt, whole);
      if f.Whole? {
        var left := chunk[f.length - |held|..];
        assert left == whole[f.length..];
        DrainIsParse(fmt, [], left);
        assert [] + left == left;
      } else if f.Incomplete? {
        assert chunk[|chunk|..] == [];
        assert Drain(fmt, Pending(whole), []) == Parsed([], Pending(whole));
      }
    }
  }

  /** Parsing goes on from where it stopped. */
  lemma {:induction false} ParseContinues<T>(fmt: Format<T>, a: Bytes, b: Bytes)
    requires fmt.Bounded()
    ensures var p := Parse(fmt, a);
      Parse(fmt, a + b) ==
        if p.tail.Broken? then p
        else var rest := Parse(fmt, p.tail.bytes + b); Parsed(p.frames + rest.frames, rest.tail)
    decreases |a|
  {
    FirstFrameExtends(fmt, a, b);
    match FirstFrame(fmt, a)
    case Incomplete =>
    case Damaged(_) =>
    case Whole(n, value) =>
      assert (a + b)[n..] == a[n..] + b;
      ParseContinues(fmt, a[n..], b);
      var p := Parse(fmt, a[n..]);
      if p.tail.Pending? {
        var rest := Parse(fmt, p.tail.bytes + b);
        assert [value] + (p.frames + rest.frames) == ([value] + p.frames) + rest.frames;
      }
  }

  lemma {:induction false} BrokenFeedsNothing<T>(fmt: Format<T>, code: FailureCode, chunks: seq<Bytes>)
    requires fmt.Bounded()
    ensures Feed(fmt, Broken(code), chunks) == Parsed([], Broken(code))
  {
    if chunks != [] {
      BrokenFeedsNothing(fmt, code, chunks[1..]);
    }
  }

  lemma {:induction false} FeedIsParse<T>(fmt: Format<T>, held: Bytes, chunks: seq<Bytes>)
    requires fmt.Bounded() && FirstFrame(fmt, held).Incomplete?
    ensures Feed(fmt, Pending(held), chunks) == Parse(fmt, held + Concat(chunks))
    decreases |chunks|
  {
    if chunks == [] {
      assert held + [] == held;
      ParsePending(fmt, held);
    } else {
      var first := Drain(fmt, Pending(held), chunks[0]);
      DrainIsParse(fmt, held, chunks[0]);
      ParseContinues(fmt, held + chunks[0], Concat(chunks[1..]));
      Associates(held, chunks[0], Concat(chunks[1..]));
      if first.tail.Broken? {
        BrokenFeedsNothing(fmt, first.tail.code, chunks[1..]);
      } else {
        FeedIsParse(fmt, first.tail.bytes, chunks[1..]);
      }
    }
  }

  /**
   Chunking independence: every way of cutting a stream, damaged or not, gives the frames and the
   final reader state that the whole stream gives at once.
   */
  lemma ChunkingIndependence<T>(fmt: Format<T>, chunks: seq<Bytes>, others: seq<Bytes>)
    requires fmt.Bounded() && 0 < fmt.header && Concat(chunks) == Concat(others)
    ensures Feed(fmt, Pending([]), chunks) == Feed(fmt, Pending([]), others) == Parse(fmt, Concat(chunks))
  {
    FeedIsParse(fmt, [], chunks);
    FeedIsParse(fmt, [], others);
    assert [] + Concat(chunks) == Concat(chunks);
    assert [] + Concat(others) == Concat(others);
  }

  /** `b` is one whole frame holding `value`. */
  predicate IsFrame<T(==)>(fmt: Format<T>, b: Bytes, value: T) {
    FirstFrame(fmt, b) == Whole(|b|, value)
  }

  predicate AreFrames<T(==)>(fmt: Format<T>, frames: seq<Bytes>, values: seq<T>) {
    |frames| == |values| && forall i :: 0 <= i < |frames| ==> IsFrame(fmt, frames[i], values[i])
  }

  /** Frames laid end to end parse back one by one, with nothing left over. */
  lemma {:induction false} FramesParse<T>(fmt: Format<T>, frames: seq<Bytes>, values: seq<T>)
    requires fmt.Bounded() && AreFrames(fmt, frames, values)
    ensures Parse(fmt, Concat(frames)) == Parsed(values, Pending([]))
    decreases |frames|
  {
    if frames != [] {
      var rest := Concat(frames[1..]);
      FirstFrameExtends(fmt, frames[0], rest);
      assert IsFrame(fmt, frames[0], values[0]);
      assert Concat(frames)[|frames[0]|..] == rest;
      FramesParse(fmt, frames[1..], values[1..]);
      assert values == [values[0]] + values[1..];
    }
  }

  /** A stream that parses without remainder is a list of whole frames laid end to end. */
  lemma {:induction false} ParseSplits<T>(fmt: Format<T>, s: Bytes) returns (frames: seq<Bytes>)
    requires fmt.Bounded() && Parse(fmt, s).tail == Pending([])
    ensures AreFrames(fmt, frames, Parse(fmt, s).frames) && Concat(frames) == s
    decreases |s|
  {
    match FirstFrame(fmt, s)
    case Incomplete => frames := [];
    case Whole(n, value) =>
      var rest := ParseSplits(fmt, s[n..]);
      frames := [s[..n]] + rest;
      assert s[..n][..fmt.header] == s[..fmt.header] && s[..n][..n] == s[..n];
      assert IsFrame(fmt, s[..n], value);
      assert frames[1..] == rest && s == s[..n] + s[n..];
  }
}
