/** The writing half of the TLS server: an ordered list of frames sent through short writes. */
module ResponseWriter {
  import opened Common
  import opened Chunking

  /** One frame and how much of it has been sent. */
  datatype Cursor = Cursor(frame: Bytes, written: nat) {
    predicate Sound() {
      written <= |frame|
    }
    function PendingWrite(): Bytes
      requires Sound()
    {
      frame[written..]
    }
    predicate Finished() {
      written == |frame|
    }
    function ConsumeWritten(n: nat): Result<Cursor>
      requires Sound()
    {
      if n > |frame| - written then Failure(InvalidArgument) else Success(Cursor(frame, written + n))
    }
  }

  predicate AllSound(writers: seq<Cursor>) {
    forall i :: 0 <= i < |writers| ==> writers[i].Sound()
  }

  /** Every byte the list still owes, in order. */
  function Owed(writers: seq<Cursor>): Bytes
    requires AllSound(writers)
  {
    if writers == [] then [] else writers[0].PendingWrite() + Owed(writers[1..])
  }

  function Fresh(frames: seq<Bytes>): (writers: seq<Cursor>)
    ensures AllSound(writers)
  {
    seq(|frames|, i requires 0 <= i < |frames| => Cursor(frames[i], 0))
  }

  lemma {:induction false} FreshOwesEverything(frames: seq<Bytes>)
    ensures Owed(Fresh(frames)) == Concat(frames)
    decreases |frames|
  {
    if frames != [] {
      FreshOwesEverything(frames[1..]);
      assert Fresh(frames)[1..] == Fresh(frames[1..]);
    }
  }

  /** One socket write of `n` bytes out of the unsent frames; a write that takes nothing is a failure. */
  function WriteOnce(unsent: seq<Cursor>, n: nat): (r: Option<(Bytes, seq<Cursor>)>)
    requires AllSound(unsent) && unsent != []
    ensures r.Some? ==> AllSound(r.value.1)
  {
    var offered := unsent[0].PendingWrite();
    if n == 0 || n > |offered| then None
    else
      var c := Cursor(unsent[0].frame, unsent[0].written + n);
      Some((offered[..n], if c.Finished() then unsent[1..] else [c] + unsent[1..]))
  }

  /** A run of socket writes: what each one sent, and what is left; none if a write failed. */
  function WriteAll(unsent: seq<Cursor>, schedule: seq<nat>): (r: Option<(seq<Bytes>, seq<Cursor>)>)
    requires AllSound(unsent)
    ensures r.Some? ==> AllSound(r.value.1)
    decreases |schedule|
  {
    if schedule == [] || unsent == [] then Some(([], unsent))
    else match WriteOnce(unsent, schedule[0])
      case None => None
      case Some((chunk, left)) =>
        match WriteAll(left, schedule[1..])
        case None => None
        case Some((chunks, end)) => Some(([chunk] + chunks, end))
  }

  /** A write counts exactly when it sent something and no more than was offered: the rest of the first frame. */
  lemma WriteOnceExactly(unsent: seq<Cursor>, n: nat)
    requires AllSound(unsent) && unsent != []
    ensures WriteOnce(unsent, n).Some? <==> 0 < n <= |unsent[0].frame| - unsent[0].written
    ensures WriteOnce(unsent, n).Some? ==>
      var (sent, left) := WriteOnce(unsent, n).value;
      && sent == unsent[0].frame[unsent[0].written..unsent[0].written + n]
      && (left == unsent[1..] <==> unsent[0].written + n == |unsent[0].frame|)
  {
  }

  lemma WriteOnceConserves(unsent: seq<Cursor>, n: nat)
    requires AllSound(unsent) && unsent != [] && WriteOnce(unsent, n).Some?
    ensures WriteOnce(unsent, n).value.0 + Owed(WriteOnce(unsent, n).value.1) == Owed(unsent)
  {
  }

  /** In every run of short writes the bytes sent and the bytes still owed make up the frames, in order. */
  lemma {:induction false} WriteAllConserves(unsent: seq<Cursor>, schedule: seq<nat>)
    requires AllSound(unsent) && WriteAll(unsent, schedule).Some?
    ensures Concat(WriteAll(unsent, schedule).value.0) + Owed(WriteAll(unsent, schedule).value.1) == Owed(unsent)
    decreases |schedule|
  {
    if schedule != [] && unsent != [] {
      var (chunk, left) := WriteOnce(unsent, schedule[0]).value;
      var (chunks, end) := WriteAll(left, schedule[1..]).value;
      WriteOnceConserves(unsent, schedule[0]);
      WriteAllConserves(left, schedule[1..]);
      ConcatCons(chunk, chunks);
      Associates(chunk, Concat(chunks), Owed(end));
    }
  }

  class Writer {
    var writers: seq<Cursor>
    var index: nat
    var failure: Option<FailureCode>

    /** Frames before `index` are sent; the one at `index` and those behind it are not. */
    ghost predicate Valid()
      reads this
    {
      && index <= |writers| && AllSound(writers[index..])
      && forall i :: index <= i < |writers| ==> !writers[i].Finished()
    }

    predicate Complete()
      reads this
    {
      failure.None? && index == |writers|
    }

    constructor (frames: seq<Bytes>)
      requires forall i :: 0 <= i < |frames| ==> frames[i] != []
      ensures Valid() && failure.None? && Owed(writers[index..]) == Concat(frames)
    {
      writers, index, failure := Fresh(frames), 0, None;
      FreshOwesEverything(frames);
      assert Fresh(frames)[0..] == Fresh(frames);
    }

    /** The bytes offered to the socket next. */
    function PendingWrite(): Bytes
      reads this
      requires Valid() && index < |writers|
    {
      writers[index..][0].PendingWrite()
    }

    /** The socket took the first `n` of the offered bytes. */
    method Advance(n: nat)
      requires Valid() && failure.None? && index < |writers|
      modifies this
      ensures Valid()
      ensures match WriteOnce(old(writers[index..]), n)
        case None => failure == Some(if n == 0 then Unavailable else InvalidArgument) && writers == [] && index == 0
        case Some((_, left)) => failure.None? && writers[index..] == left
    {
      if n == 0 {
        failure, writers, index := Some(Unavailable), [], 0;
        return;
      }
      ghost var rest := writers[index + 1..];
      assert writers[index..] == [writers[index]] + rest;
      var consumed := writers[index..][0].ConsumeWritten(n);
      if consumed.Failure? {
        failure, writers, index := Some(consumed.code), [], 0;
        return;
      }
      writers := writers[index := consumed.value];
      assert writers[index..] == [consumed.value] + rest;
      if consumed.value.Finished() {
        index := index + 1;
        assert writers[index..] == rest;
      }
    }
  }
}
