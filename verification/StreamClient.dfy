/** The reading half of the TLS client: bytes in, one judged response stream out. */
module StreamClient {
  import opened Common
  import opened Layout
  import opened ResponseFrames
  import opened FrameReader
  import opened Chunking
  import opened GroupedStreams

  function ResponseFormat(crc: Checksum): Format<Response> {
    Format(RESPONSE_HEADER, PARTIAL_LENGTH, h => ResponseFrameLength(crc, h), b => DecodeResponse(crc, b))
  }

  lemma ResponseFormatBounded(crc: Checksum)
    ensures ResponseFormat(crc).Bounded()
  {
  }

  /** A byte string is one whole response frame exactly when the one-shot decoder takes it. */
  lemma ResponseFrameIsDecoded(crc: Checksum, b: Bytes, r: Response)
    ensures IsFrame(ResponseFormat(crc), b, r) <==> DecodeResponse(crc, b) == Success(r)
  {
    if |b| >= RESPONSE_HEADER {
      ResponseHeaderCheckExact(crc, b[..RESPONSE_HEADER], b);
    }
    assert b[..|b|] == b;
  }

  /** The client once a chunk has been taken apart: its frames judged in order, then its remainder. */
  function Received(id: Identity, maxFrames: nat, seen: seq<Response>, p: Parsed<Response>): ClientState {
    match AcceptAll(id, maxFrames, Reading(seen), p.frames)
    case Failed(code) => Failed(code)
    case Complete(rs) => if p.tail == Pending([]) then Complete(rs) else Failed(Corruption)
    case Reading(rs) => if p.tail.Broken? then Failed(p.tail.code) else Reading(rs)
  }


  /** The outcome of a chunk, one frame further. */
  lemma ReceivedCons(id: Identity, maxFrames: nat, seen: seq<Response>, f: Response, later: Parsed<Response>)
    ensures Received(id, maxFrames, seen, Parsed([f] + later.frames, later.tail)) ==
      match AcceptResponse(id, maxFrames, seen, f)
      case Failed(code) => Failed(code)
      case Complete(rs) => if later == Parsed([], Pending([])) then Complete(rs) else Failed(Corruption)
      case Reading(rs) => Received(id, maxFrames, rs, later)
  {
    assert ([f] + later.frames)[1..] == later.frames;
    var next := AcceptResponse(id, maxFrames, seen, f);
    assert AcceptAll(id, maxFrames, Reading(seen), [f] + later.frames) == AcceptAll(id, maxFrames, next, later.frames);
  }

  /** One call of the reader, seen from the whole chunk. */
  lemma DrainStep(fmt: Format<Response>, tail: Tail, chunk: Bytes)
    requires fmt.Bounded() && Resting(fmt, tail) && tail.Pending? && chunk != []
    ensures
      var (r, next) := Step(fmt, tail, chunk);
      if r.Failure? then Drain(fmt, tail, chunk) == Parsed([], Broken(r.code))
      else
        && 0 < r.value.consumed <= |chunk| && next.Pending?
        && var later := Drain(fmt, next, chunk[r.value.consumed..]);
        && Drain(fmt, tail, chunk) ==
             (if r.value.frame.Some? then Parsed([r.value.frame.value] + later.frames, later.tail) else later)
        && (r.value.frame.Some? ==> (later == Parsed([], Pending([])) <==> r.value.consumed == |chunk|))
  {
  }

  class Client {
    const id: Identity
    const maxFrames: nat
    const reader: Reader<Response>
    var state: ClientState

    ghost predicate Valid()
      reads this, reader, reader.storage
    {
      && reader.Valid()
      && (state.Reading? ==> reader.failure.None?)
    }

    constructor (crc: Checksum, id: Identity, maxFrames: nat)
      ensures Valid() && fresh(reader) && fresh(reader.storage)
      ensures this.id == id && this.maxFrames == maxFrames && reader.fmt == ResponseFormat(crc)
      ensures state == Reading([]) && reader.View() == Pending([])
    {
      ResponseFormatBounded(crc);
      this.id, this.maxFrames := id, maxFrames;
      reader := new Reader(ResponseFormat(crc));
      state := Reading([]);
    }

    /** The client, given `rest` of a chunk, will end in `goal` with the reader at `last`. */
    ghost predicate HeadsFor(rest: Bytes, goal: ClientState, last: Tail)
      reads this, reader, reader.storage
    {
      && Valid() && Resting(reader.fmt, reader.View())
      && if state.Reading? then
           var p := Drain(reader.fmt, reader.View(), rest);
           p.tail == last && Received(id, maxFrames, state.responses, p) == goal
         else state == goal
    }

    /** Offers the unread rest of a chunk to the reader once, and judges the frame it may yield. */
    method ReadOne(rest: Bytes, ghost goal: ClientState, ghost last: Tail) returns (consumed: nat)
      requires HeadsFor(rest, goal, last) && state.Reading? && rest != []
      modifies this, reader, reader.storage
      ensures state.Reading? ==> 0 < consumed
      ensures consumed <= |rest| && HeadsFor(rest[consumed..], goal, last)
    {
      DrainStep(reader.fmt, reader.View(), rest);
      var step := reader.Consume(rest);
      reader.ViewRests();
      if step.Failure? {
        state, consumed := Failed(step.code), 0;
        return;
      }
      consumed := step.value.consumed;
      if step.value.frame.Some? {
        ReceivedCons(id, maxFrames, state.responses, step.value.frame.value,
                     Drain(reader.fmt, reader.View(), rest[consumed..]));
        state := AcceptResponse(id, maxFrames, state.responses, step.value.frame.value);
        if state.Complete? && consumed != |rest| {
          state := Failed(Corruption);
        }
      }
    }

    /** One successful socket read. */
    method Receive(chunk: Bytes)
      requires Valid() && state.Reading?
      modifies this, reader, reader.storage
      ensures Valid() && Resting(reader.fmt, old(reader.View()))
      ensures state == Received(id, maxFrames, old(state).responses, Drain(reader.fmt, old(reader.View()), chunk))
      ensures state.Reading? ==> reader.View() == Drain(reader.fmt, old(reader.View()), chunk).tail
    {
      reader.ViewRests();
      ghost var whole := Drain(reader.fmt, reader.View(), chunk);
      ghost var goal := Received(id, maxFrames, state.responses, whole);
      var rest := chunk;
      while rest != [] && state.Reading?
        invariant HeadsFor(rest, goal, whole.tail)
        decreases |rest|, state.Reading?
      {
        var consumed := ReadOne(rest, goal, whole.tail);
        rest := rest[consumed..];
      }
    }
  }
}
