/** What the client makes of a byte stream, and what reaches it through short writes and short reads. */
module WirePipe {
  import opened Common
  import opened Layout
  import opened ResponseFrames
  import opened FrameReader
  import opened Chunking
  import opened GroupedStreams
  import opened StreamClient
  import opened ResponseWriter

  // ---- The client over a whole run of reads ----

  /** The client and its reader after the given reads; a client that is done reads no further. */
  function ReceiveAll(crc: Checksum, id: Identity, maxFrames: nat, chunks: seq<Bytes>): (end: (ClientState, Tail))
    ensures Resting(ResponseFormat(crc), end.1)
    decreases |chunks|
  {
    ResponseFormatBounded(crc);
    if chunks == [] then (Reading([]), Pending([]))
    else
      var (st, tail) := ReceiveAll(crc, id, maxFrames, chunks[..|chunks| - 1]);
      if !st.Reading? then (st, tail)
      else
        var p := Drain(ResponseFormat(crc), tail, chunks[|chunks| - 1]);
        (Received(id, maxFrames, st.responses, p), p.tail)
  }

  /** The client object is where these reads lead. */
  ghost predicate HasRead(client: Client, crc: Checksum, chunks: seq<Bytes>)
    reads client, client.reader, client.reader.storage
  {
    var end := ReceiveAll(crc, client.id, client.maxFrames, chunks);
    && client.Valid() && client.reader.fmt == ResponseFormat(crc)
    && client.state == end.0 && (client.state.Reading? ==> client.reader.View() == end.1)
  }

  lemma OneMoreRead(crc: Checksum, id: Identity, maxFrames: nat, chunks: seq<Bytes>, chunk: Bytes)
    requires ReceiveAll(crc, id, maxFrames, chunks).0.Reading? && ResponseFormat(crc).Bounded()
    ensures
      var (st, tail) := ReceiveAll(crc, id, maxFrames, chunks);
      var p := Drain(ResponseFormat(crc), tail, chunk);
      ReceiveAll(crc, id, maxFrames, chunks + [chunk]) == (Received(id, maxFrames, st.responses, p), p.tail)
  {
    assert (chunks + [chunk])[..|chunks|] == chunks;
  }

  method ReadNext(client: Client, crc: Checksum, chunk: Bytes, ghost chunks: seq<Bytes>)
    requires HasRead(client, crc, chunks) && client.state.Reading?
    modifies client, client.reader, client.reader.storage
    ensures HasRead(client, crc, chunks + [chunk])
  {
    ResponseFormatBounded(crc);
    OneMoreRead(crc, client.id, client.maxFrames, chunks, chunk);
    client.Receive(chunk);
  }

  lemma LedThere(client: Client, crc: Checksum, done: seq<Bytes>, rest: seq<Bytes>)
    requires HasRead(client, crc, done) && (rest == [] || !client.state.Reading?)
    ensures client.state == ReceiveAll(crc, client.id, client.maxFrames, done + rest).0
  {
    assert (done + rest)[..|done|] == done;
    DoneStays(crc, client.id, client.maxFrames, done + rest, |done|);
  }

  lemma Shifts(done: seq<Bytes>, rest: seq<Bytes>)
    requires rest != []
    ensures (done + [rest[0]]) + rest[1..] == done + rest
  {
  }

  /** A client object given these reads one by one, until it is done, ends as `ReceiveAll` says. */
  method ReadEach(client: Client, crc: Checksum, chunks: seq<Bytes>)
    requires HasRead(client, crc, []) && client.state.Reading?
    modifies client, client.reader, client.reader.storage
    ensures client.state == ReceiveAll(crc, client.id, client.maxFrames, chunks).0
  {
    ghost var done: seq<Bytes> := [];
    var rest := chunks;
    assert done + rest == chunks;
    while rest != [] && client.state.Reading?
      invariant HasRead(client, crc, done) && done + rest == chunks
      decreases |rest|
    {
      Shifts(done, rest);
      ReadNext(client, crc, rest[0], done);
      done, rest := done + [rest[0]], rest[1..];
    }
    LedThere(client, crc, done, rest);
  }

  /** A new client has read nothing. */
  method OpenClient(crc: Checksum, id: Identity, maxFrames: nat) returns (client: Client)
    ensures fresh(client) && fresh(client.reader) && fresh(client.reader.storage)
    ensures client.id == id && client.maxFrames == maxFrames && HasRead(client, crc, []) && client.state.Reading?
  {
    client := new Client(crc, id, maxFrames);
  }

  /** Once a client is done, further reads change nothing. */
  lemma {:induction false} DoneStays(crc: Checksum, id: Identity, maxFrames: nat, chunks: seq<Bytes>, k: nat)
    requires k <= |chunks| && (k < |chunks| ==> !ReceiveAll(crc, id, maxFrames, chunks[..k]).0.Reading?)
    ensures ReceiveAll(crc, id, maxFrames, chunks) == ReceiveAll(crc, id, maxFrames, chunks[..k])
    decreases |chunks|
  {
    if k == |chunks| {
      assert chunks[..k] == chunks;
    } else {
      var init := chunks[..|chunks| - 1];
      assert init[..k] == chunks[..k];
      DoneStays(crc, id, maxFrames, init, k);
    }
  }

  /** The client was still reading when the last of these chunks arrived. */
  predicate ReadToTheEnd(crc: Checksum, id: Identity, maxFrames: nat, chunks: seq<Bytes>) {
    chunks != [] ==> ReceiveAll(crc, id, maxFrames, chunks[..|chunks| - 1]).0.Reading?
  }

  lemma {:induction false} AcceptAllAppends(id: Identity, maxFrames: nat, st: ClientState, a: seq<Response>, b: seq<Response>)
    ensures AcceptAll(id, maxFrames, st, a + b) == AcceptAll(id, maxFrames, AcceptAll(id, maxFrames, st, a), b)
    decreases |a|
  {
    if a == [] {
      assert a + b == b;
    } else if st.Reading? {
      assert (a + b)[1..] == a[1..] + b;
      AcceptAllAppends(id, maxFrames, AcceptResponse(id, maxFrames, st.responses, a[0]), a[1..], b);
    }
  }

  lemma {:induction false} ParseRests(fmt: Format<Response>, s: Bytes)
    requires fmt.Bounded()
    ensures Resting(fmt, Parse(fmt, s).tail)
    decreases |s|
  {
    var f := FirstFrame(fmt, s);
    if f.Whole? {
      ParseRests(fmt, s[f.length..]);
    }
  }

  lemma {:induction false} ReceiveAllIsParse(crc: Checksum, id: Identity, maxFrames: nat, chunks: seq<Bytes>)
    requires ReadToTheEnd(crc, id, maxFrames, chunks)
    ensures ResponseFormat(crc).Bounded()
    ensures
      var p := Parse(ResponseFormat(crc), Concat(chunks));
      ReceiveAll(crc, id, maxFrames, chunks) == (Received(id, maxFrames, [], p), p.tail)
    decreases |chunks|
  {
    ResponseFormatBounded(crc);
    if chunks == [] {
      return;
    }
    var init, last := chunks[..|chunks| - 1], chunks[|chunks| - 1];
    ReceiveAllIsParse(crc, id, maxFrames, init);
    ConcatLast(chunks);
    ReceiveMore(id, maxFrames, ResponseFormat(crc), Concat(init), last);
  }

  /** Receiving `last` after `sofar` is receiving both at once. */
  lemma ReceiveMore(id: Identity, maxFrames: nat, fmt: Format<Response>, sofar: Bytes, last: Bytes)
    requires fmt.Bounded() && Received(id, maxFrames, [], Parse(fmt, sofar)).Reading?
    ensures
      var st, tail := Received(id, maxFrames, [], Parse(fmt, sofar)), Parse(fmt, sofar).tail;
      var whole := Parse(fmt, sofar + last);
      && Resting(fmt, tail)
      && var p := Drain(fmt, tail, last);
      Received(id, maxFrames, st.responses, p) == Received(id, maxFrames, [], whole) && p.tail == whole.tail
  {
    var before := Parse(fmt, sofar);
    ParseRests(fmt, sofar);
    DrainIsParse(fmt, before.tail.bytes, last);
    ParseContinues(fmt, sofar, last);
    AcceptAllAppends(id, maxFrames, Reading([]), before.frames, Parse(fmt, before.tail.bytes + last).frames);
  }

  // ---- Response streams as bytes ----

  predicate Sendable(crc: Checksum, rs: seq<Response>) {
    forall i :: 0 <= i < |rs| ==> EncodeResponse(crc, rs[i]).Success?
  }

  function Frames(crc: Checksum, rs: seq<Response>): seq<Bytes>
    requires Sendable(crc, rs)
  {
    seq(|rs|, i requires 0 <= i < |rs| => EncodeResponse(crc, rs[i]).value)
  }

  predicate AsDecoded(rs: seq<Response>) {
    forall i :: 0 <= i < |rs| ==> CanonicalResponse(rs[i]) == rs[i]
  }

  /** Decoded frame by frame, an encoded stream is the canonical form of what was encoded. */
  lemma FramesDecode(crc: Checksum, rs: seq<Response>, out: seq<Response>)
    requires Sendable(crc, rs) && |out| == |rs| && forall i :: 0 <= i < |rs| ==> out[i] == CanonicalResponse(rs[i])
    ensures AreFrames(ResponseFormat(crc), Frames(crc, rs), out)
  {
    var frames := Frames(crc, rs);
    forall i | 0 <= i < |frames|
      ensures IsFrame(ResponseFormat(crc), frames[i], out[i])
    {
      ResponseRoundTrip(crc, rs[i]);
      ResponseFrameIsDecoded(crc, frames[i], out[i]);
    }
  }

  /** Bytes that are frames for a list are the encodings of that list, and the list is canonical. */
  lemma FramesAreEncodings(crc: Checksum, frames: seq<Bytes>, rs: seq<Response>)
    requires AreFrames(ResponseFormat(crc), frames, rs)
    ensures Sendable(crc, rs) && AsDecoded(rs) && Frames(crc, rs) == frames
  {
    forall i | 0 <= i < |rs|
      ensures EncodeResponse(crc, rs[i]) == Success(frames[i]) && CanonicalResponse(rs[i]) == rs[i]
    {
      assert IsFrame(ResponseFormat(crc), frames[i], rs[i]);
      ResponseFrameIsDecoded(crc, frames[i], rs[i]);
      ResponseCanonical(crc, frames[i]);
      DecodedResponses(crc, rs[i]);
    }
  }

  /**
   Exactly which bytes complete the client: however they are cut into reads, the client completes
   with `rs` if and only if `rs` is a stream it lets through and the bytes are its one encoding.
   */
  lemma ClientCompletesOnExactBytes(crc: Checksum, id: Identity, maxFrames: nat, chunks: seq<Bytes>, rs: seq<Response>)
    requires ReadToTheEnd(crc, id, maxFrames, chunks)
    ensures ReceiveAll(crc, id, maxFrames, chunks).0 == Complete(rs)
      <==> ClientStream(id, maxFrames, rs) && Sendable(crc, rs) && AsDecoded(rs) && Concat(chunks) == Concat(Frames(crc, rs))
  {
    var fmt, s := ResponseFormat(crc), Concat(chunks);
    ReceiveAllIsParse(crc, id, maxFrames, chunks);
    var p := Parse(fmt, s);
    ClientCompletesExactly(id, maxFrames, p.frames, rs);
    if ReceiveAll(crc, id, maxFrames, chunks).0 == Complete(rs) {
      var frames := ParseSplits(fmt, s);
      FramesAreEncodings(crc, frames, rs);
    }
    if ClientStream(id, maxFrames, rs) && Sendable(crc, rs) && AsDecoded(rs) && s == Concat(Frames(crc, rs)) {
      FramesDecode(crc, rs, rs);
      FramesParse(fmt, Frames(crc, rs), rs);
    }
  }

  function Canonical(rs: seq<Response>): seq<Response> {
    seq(|rs|, i requires 0 <= i < |rs| => CanonicalResponse(rs[i]))
  }

  lemma ClientStreamCanonical(id: Identity, maxFrames: nat, rs: seq<Response>)
    requires ClientStream(id, maxFrames, rs)
    ensures ClientStream(id, maxFrames, Canonical(rs))
  {
  }

  /** Short of the last frame, the client of a good stream is still reading. */
  lemma {:induction false} AcceptPrefixReads(id: Identity, maxFrames: nat, rs: seq<Response>, j: nat)
    requires ClientStream(id, maxFrames, rs) && j < |rs|
    ensures AcceptAll(id, maxFrames, Reading([]), rs[..j]) == Reading(rs[..j])
    decreases j
  {
    if j > 0 {
      AcceptPrefixReads(id, maxFrames, rs, j - 1);
      assert rs[..j] == rs[..j - 1] + [rs[j - 1]];
      AcceptAllAppends(id, maxFrames, Reading([]), rs[..j - 1], [rs[j - 1]]);
      ClientStreamAt(id, maxFrames, rs, j - 1);
    }
  }

  /** A strict prefix of a stream of frames parses to fewer frames and an unfinished one. */
  lemma {:induction false} StrictPrefixParses(fmt: Format<Response>, frames: seq<Bytes>, rs: seq<Response>, s: Bytes)
    returns (j: nat)
    requires fmt.Bounded() && AreFrames(fmt, frames, rs) && s < Concat(frames)
    ensures j < |rs| && Parse(fmt, s).frames == rs[..j] && Parse(fmt, s).tail.Pending?
    decreases |frames|
  {
    var f, rest := frames[0], Concat(frames[1..]);
    assert IsFrame(fmt, f, rs[0]);
    if |s| < |f| {
      assert s == f[..|s|];
      if |s| >= fmt.header {
        assert s[..fmt.header] == f[..fmt.header];
      }
      j := 0;
    } else {
      var t := s[|f|..];
      assert s == f + t && t < rest;
      FirstFrameExtends(fmt, f, t);
      var k := StrictPrefixParses(fmt, frames[1..], rs[1..], t);
      j := k + 1;
      assert rs[..j] == [rs[0]] + rs[1..][..k];
    }
  }

  lemma UnfinishedStreamReads(
    crc: Checksum, id: Identity, maxFrames: nat, frames: seq<Bytes>, rs: seq<Response>, pieces: seq<Bytes>)
    requires AreFrames(ResponseFormat(crc), frames, rs) && ClientStream(id, maxFrames, rs)
    requires ReadToTheEnd(crc, id, maxFrames, pieces) && Concat(pieces) < Concat(frames)
    ensures ReceiveAll(crc, id, maxFrames, pieces).0.Reading?
  {
    ReceiveAllIsParse(crc, id, maxFrames, pieces);
    var j := StrictPrefixParses(ResponseFormat(crc), frames, rs, Concat(pieces));
    AcceptPrefixReads(id, maxFrames, rs, j);
  }

  /** However the bytes of a good stream arrive, the client reads on until the last of them. */
  lemma {:induction false} GoodStreamIsReadToTheEnd(
    crc: Checksum, id: Identity, maxFrames: nat, frames: seq<Bytes>, rs: seq<Response>, pieces: seq<Bytes>)
    requires AreFrames(ResponseFormat(crc), frames, rs) && ClientStream(id, maxFrames, rs)
    requires Concat(pieces) <= Concat(frames) && forall i :: 0 <= i < |pieces| ==> pieces[i] != []
    ensures ReadToTheEnd(crc, id, maxFrames, pieces)
    decreases |pieces|
  {
    if pieces != [] {
      var init := pieces[..|pieces| - 1];
      ConcatLast(pieces);
      GoodStreamIsReadToTheEnd(crc, id, maxFrames, frames, rs, init);
      UnfinishedStreamReads(crc, id, maxFrames, frames, rs, init);
    }
  }

  /** No client, whatever its limit, completes on a strict prefix of a good stream. */
  lemma NoPrefixCompletes(id: Identity, most: nat, maxFrames: nat, rs: seq<Response>, j: nat)
    requires ClientStream(id, most, rs) && j < |rs|
    ensures !ClientStream(id, maxFrames, rs[..j])
  {
    if j > 0 {
      assert rs[..j][j - 1] == rs[j - 1] && rs[..j][0] == rs[0];
      assert rs[0].status == Ok && ClientFrame(rs[j - 1], j - 1, |rs|);
    }
  }

  /**
   A client that completed on some of the bytes of a good stream has read all of them, and holds
   exactly that stream.
   */
  lemma CompletedPrefixIsWhole(
    crc: Checksum, id: Identity, most: nat, maxFrames: nat, rs: seq<Response>, chunks: seq<Bytes>)
    requires Sendable(crc, rs) && ClientStream(id, most, rs)
    requires ReadToTheEnd(crc, id, maxFrames, chunks) && ReceiveAll(crc, id, maxFrames, chunks).0.Complete?
    requires Concat(chunks) <= Concat(Frames(crc, rs))
    ensures Concat(chunks) == Concat(Frames(crc, rs))
    ensures ReceiveAll(crc, id, maxFrames, chunks).0 == Complete(Canonical(rs))
  {
    FramesDecode(crc, rs, Canonical(rs));
    ClientStreamCanonical(id, most, rs);
    CompletedIsAllFrames(crc, id, most, maxFrames, Frames(crc, rs), Canonical(rs), chunks);
  }

  lemma CompletedIsAllFrames(
    crc: Checksum, id: Identity, most: nat, maxFrames: nat, frames: seq<Bytes>, rs: seq<Response>, chunks: seq<Bytes>)
    requires AreFrames(ResponseFormat(crc), frames, rs) && ClientStream(id, most, rs)
    requires ReadToTheEnd(crc, id, maxFrames, chunks) && ReceiveAll(crc, id, maxFrames, chunks).0.Complete?
    requires Concat(chunks) <= Concat(frames)
    ensures Concat(chunks) == Concat(frames) && ReceiveAll(crc, id, maxFrames, chunks).0 == Complete(rs)
  {
    var p := Completed(crc, id, maxFrames, chunks);
    if Concat(chunks) < Concat(frames) {
      PrefixNeverCompletes(crc, id, most, maxFrames, frames, rs, chunks);
    }
    FramesParse(ResponseFormat(crc), frames, rs);
  }

  lemma PrefixNeverCompletes(
    crc: Checksum, id: Identity, most: nat, maxFrames: nat, frames: seq<Bytes>, rs: seq<Response>, chunks: seq<Bytes>)
    requires AreFrames(ResponseFormat(crc), frames, rs) && ClientStream(id, most, rs)
    requires ReadToTheEnd(crc, id, maxFrames, chunks) && Concat(chunks) < Concat(frames)
    ensures !ReceiveAll(crc, id, maxFrames, chunks).0.Complete?
  {
    if ReceiveAll(crc, id, maxFrames, chunks).0.Complete? {
      var p := Completed(crc, id, maxFrames, chunks);
      var j := StrictPrefixParses(ResponseFormat(crc), frames, rs, Concat(chunks));
      NoPrefixCompletes(id, most, maxFrames, rs, j);
    }
  }

  /** What a completed client holds is the parse of the bytes it read, with nothing left over. */
  lemma Completed(crc: Checksum, id: Identity, maxFrames: nat, chunks: seq<Bytes>) returns (p: Parsed<Response>)
    requires ReadToTheEnd(crc, id, maxFrames, chunks) && ReceiveAll(crc, id, maxFrames, chunks).0.Complete?
    ensures ResponseFormat(crc).Bounded() && p == Parse(ResponseFormat(crc), Concat(chunks)) && p.tail == Pending([])
    ensures ReceiveAll(crc, id, maxFrames, chunks).0 == Complete(p.frames) && ClientStream(id, maxFrames, p.frames)
  {
    ReceiveAllIsParse(crc, id, maxFrames, chunks);
    p := Parse(ResponseFormat(crc), Concat(chunks));
    ClientCompletesExactly(id, maxFrames, p.frames, ReceiveAll(crc, id, maxFrames, chunks).0.responses);
  }

  /**
   The pipe: whatever sizes the server's writes come in, and however the bytes are cut again into the
   client's reads, a stream the server has finished sending completes the client with that stream.
   */
  lemma PipeDelivers(
    crc: Checksum, id: Identity, maxFrames: nat, rs: seq<Response>, schedule: seq<nat>, pieces: seq<Bytes>)
    requires Sendable(crc, rs) && ClientStream(id, maxFrames, rs)
    requires
      var run := WriteAll(Fresh(Frames(crc, rs)), schedule);
      run.Some? && run.value.1 == [] && Concat(pieces) == Concat(run.value.0)
    requires forall i :: 0 <= i < |pieces| ==> pieces[i] != []
    ensures ReceiveAll(crc, id, maxFrames, pieces).0 == Complete(Canonical(rs))
  {
    var frames := Frames(crc, rs);
    WriteAllConserves(Fresh(frames), schedule);
    FreshOwesEverything(frames);
    BytesDeliver(crc, id, maxFrames, rs, pieces);
  }

  lemma BytesDeliver(crc: Checksum, id: Identity, maxFrames: nat, rs: seq<Response>, pieces: seq<Bytes>)
    requires Sendable(crc, rs) && ClientStream(id, maxFrames, rs)
    requires Concat(pieces) == Concat(Frames(crc, rs))
    requires forall i :: 0 <= i < |pieces| ==> pieces[i] != []
    ensures ReceiveAll(crc, id, maxFrames, pieces).0 == Complete(Canonical(rs))
  {
    FramesDecode(crc, rs, Canonical(rs));
    ClientStreamCanonical(id, maxFrames, rs);
    GoodStreamIsReadToTheEnd(crc, id, maxFrames, Frames(crc, rs), Canonical(rs), pieces);
    WholeFramesComplete(crc, id, maxFrames, Frames(crc, rs), Canonical(rs), pieces);
  }

  /** A client that read exactly the frames of a good stream completes with it. */
  lemma WholeFramesComplete(
    crc: Checksum, id: Identity, maxFrames: nat, frames: seq<Bytes>, rs: seq<Response>, pieces: seq<Bytes>)
    requires AreFrames(ResponseFormat(crc), frames, rs) && ClientStream(id, maxFrames, rs)
    requires ReadToTheEnd(crc, id, maxFrames, pieces) && Concat(pieces) == Concat(frames)
    ensures ReceiveAll(crc, id, maxFrames, pieces).0 == Complete(rs)
  {
    ReceiveAllIsParse(crc, id, maxFrames, pieces);
    FramesParse(ResponseFormat(crc), frames, rs);
    ClientCompletesExactly(id, maxFrames, rs, rs);
  }
}
