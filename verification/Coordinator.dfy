/** The coordinator that retains one stream per tablet and merges complete ones into the query result. */
module Coordinator {
  import opened Common
  import opened ExchangeFrames
  import opened ResponseFrames
  import opened Moments
  import opened Sums

  const MAXIMUM_MESSAGES := 65536

  type Key = Option<F64>
  type Groups = map<Key, Aggregate>

  // ---- One fragment ----

  function Absorb(fl: Floats, groups: Groups, p: Payload): Result<Groups> {
    if p.EmptyTerminal? then Success(groups)
    else
      var key := CanonicalKey(p.partial.groupKey);
      if key !in groups then Success(groups[key := p.partial.partial])
      else match Merge(fl, groups[key], p.partial.partial)
        case Failure(code) => Failure(code)
        case Success(merged) => Success(groups[key := merged])
  }

  /** Rows a payload contributes to a key. */
  function Rows(p: Payload, key: Key): nat {
    if p.Partial? && CanonicalKey(p.partial.groupKey) == key then p.partial.partial.count else 0
  }

  function RowsOf(ps: seq<Payload>, key: Key): nat {
    if ps == [] then 0 else RowsOf(ps[..|ps| - 1], key) + Rows(ps[|ps| - 1], key)
  }

  predicate Mentions(ps: seq<Payload>, key: Key) {
    exists i :: 0 <= i < |ps| && ps[i].Partial? && CanonicalKey(ps[i].partial.groupKey) == key
  }

  /** The aggregate a payload holds for a key, if it holds rows. */
  function Own(p: Payload, key: Key): seq<Aggregate> {
    if p.Partial? && CanonicalKey(p.partial.groupKey) == key && p.partial.partial.count > 0 then [p.partial.partial] else []
  }

  /** Everything a stream holds for a key, in the order it came. */
  function Partials(ps: seq<Payload>, key: Key): seq<Aggregate> {
    if ps == [] then [] else Partials(ps[..|ps| - 1], key) + Own(ps[|ps| - 1], key)
  }

  /** What the groups of a stream must be: its keys, each with all of its rows and what its partials come to. */
  ghost predicate Gathers(fl: Floats, groups: Groups, ps: seq<Payload>) {
    && (forall key :: key in groups <==> Mentions(ps, key))
    && (forall key {:trigger Partials(ps, key)} :: key in groups ==>
          ComesTo(fl, groups[key], RowsOf(ps, key), Partials(ps, key)))
  }

  /** An aggregate of so many rows, made of these partials. */
  ghost predicate ComesTo(fl: Floats, a: Aggregate, rows: nat, parts: seq<Aggregate>) {
    && AllFilled(parts) && CountOf(parts) == rows <= U64_MAX
    && a == Whole(fl, parts)
  }

  lemma MentionsSnoc(ps: seq<Payload>, p: Payload, key: Key)
    ensures Mentions(ps + [p], key) <==> Mentions(ps, key) || (p.Partial? && CanonicalKey(p.partial.groupKey) == key)
    ensures RowsOf(ps + [p], key) == RowsOf(ps, key) + Rows(p, key)
    ensures Partials(ps + [p], key) == Partials(ps, key) + Own(p, key)
    ensures !Mentions(ps, key) ==> RowsOf(ps, key) == 0 && Partials(ps, key) == []
  {
    var all := ps + [p];
    assert all[..|ps|] == ps && all[|ps|] == p;
    assert Mentions(ps, key) ==> Mentions(all, key) by {
      if Mentions(ps, key) {
        var i :| 0 <= i < |ps| && ps[i].Partial? && CanonicalKey(ps[i].partial.groupKey) == key;
        assert all[i] == ps[i];
      }
    }
    UnmentionedHasNoRows(ps, key);
  }

  lemma {:induction false} UnmentionedHasNoRows(ps: seq<Payload>, key: Key)
    ensures !Mentions(ps, key) ==> RowsOf(ps, key) == 0 && Partials(ps, key) == []
  {
    if ps != [] && !Mentions(ps, key) {
      var init := ps[..|ps| - 1];
      assert forall i :: 0 <= i < |init| ==> init[i] == ps[i];
      UnmentionedHasNoRows(init, key);
    }
  }

  /** Nothing yet is what no partials come to, and one aggregate is what it alone comes to. */
  lemma FirstComesTo(fl: Floats, a: Aggregate)
    requires ValidAggregate(a)
    ensures ComesTo(fl, a, a.count, if a.count > 0 then [a] else [])
  {
    if a.count > 0 {
      WholeOfOne(fl, a);
    } else {
      EmptyIsWhole(fl, a);
    }
  }

  /** Merging adds the partials of the one to those of the other, unless the count would overflow. */
  lemma MergeComesTo(fl: Floats, a: Aggregate, rows: nat, parts: seq<Aggregate>, b: Aggregate)
    requires ComesTo(fl, a, rows, parts) && ValidAggregate(b)
    ensures
      var more := if b.count > 0 then parts + [b] else parts;
      && Merge(fl, a, b) == (if rows + b.count <= U64_MAX then Success(Whole(fl, more)) else Failure(OutOfRange))
      && (rows + b.count <= U64_MAX ==> ComesTo(fl, Whole(fl, more), rows + b.count, more))
  {
    if b.count > 0 {
      MergeIsWhole(fl, parts, b);
      CountOfMore(parts, b);
    }
  }

  /** One group changes and the others stay; `good` is whatever is asked of a group. */
  lemma OthersStay(
    groups: Groups, ps: seq<Payload>, p: Payload, v: Aggregate, good: (Aggregate, nat, seq<Aggregate>) -> bool)
    requires p.Partial?
    requires forall key :: key in groups <==> Mentions(ps, key)
    requires forall key :: key in groups ==> good(groups[key], RowsOf(ps, key), Partials(ps, key))
    requires var key := CanonicalKey(p.partial.groupKey); good(v, RowsOf(ps + [p], key), Partials(ps + [p], key))
    ensures var next := groups[CanonicalKey(p.partial.groupKey) := v];
      && (forall key :: key in next <==> Mentions(ps + [p], key))
      && (forall key :: key in next ==> good(next[key], RowsOf(ps + [p], key), Partials(ps + [p], key)))
  {
    var next := groups[CanonicalKey(p.partial.groupKey) := v];
    forall key
      ensures key in next <==> Mentions(ps + [p], key)
      ensures key in next ==> good(next[key], RowsOf(ps + [p], key), Partials(ps + [p], key))
    {
      MentionsSnoc(ps, p, key);
      assert Partials(ps, key) + [] == Partials(ps, key);
    }
  }

  lemma EmptyTerminalAdds(fl: Floats, groups: Groups, ps: seq<Payload>, p: Payload)
    requires Gathers(fl, groups, ps) && p.EmptyTerminal?
    ensures Gathers(fl, groups, ps + [p])
  {
    forall key
      ensures Mentions(ps + [p], key) == Mentions(ps, key)
      ensures RowsOf(ps + [p], key) == RowsOf(ps, key) && Partials(ps + [p], key) == Partials(ps, key)
    {
      MentionsSnoc(ps, p, key);
    }
  }

  /** Absorbing one more payload succeeds exactly when no count overflows, and keeps every row and every partial. */
  lemma AbsorbGathers(fl: Floats, groups: Groups, ps: seq<Payload>, p: Payload)
    requires Gathers(fl, groups, ps) && ValidPayload(p)
    ensures Absorb(fl, groups, p).Success? ==> Gathers(fl, Absorb(fl, groups, p).value, ps + [p])
    ensures Absorb(fl, groups, p).Success? <==>
      (p.Partial? ==> RowsOf(ps + [p], CanonicalKey(p.partial.groupKey)) <= U64_MAX)
    ensures Absorb(fl, groups, p).Failure? ==> Absorb(fl, groups, p).code == OutOfRange
  {
    if p.Partial? {
      AbsorbKey(fl, groups, ps, p);
      if Absorb(fl, groups, p).Success? {
        var v := Absorb(fl, groups, p).value[CanonicalKey(p.partial.groupKey)];
        OthersStay(groups, ps, p, v, (a: Aggregate, rows: nat, parts: seq<Aggregate>) => ComesTo(fl, a, rows, parts));
      }
    } else {
      EmptyTerminalAdds(fl, groups, ps, p);
    }
  }

  /** The one key a partial is for. */
  lemma AbsorbKey(fl: Floats, groups: Groups, ps: seq<Payload>, p: Payload)
    requires Gathers(fl, groups, ps) && ValidPayload(p) && p.Partial?
    ensures
      var key := CanonicalKey(p.partial.groupKey);
      match Absorb(fl, groups, p)
      case Success(next) =>
        && key in next && next == groups[key := next[key]]
        && ComesTo(fl, next[key], RowsOf(ps + [p], key), Partials(ps + [p], key))
      case Failure(code) => code == OutOfRange && RowsOf(ps + [p], key) > U64_MAX
  {
    var key := CanonicalKey(p.partial.groupKey);
    MentionsSnoc(ps, p, key);
    if key in groups {
      AbsorbMore(fl, groups, p, RowsOf(ps, key), Partials(ps, key));
    } else {
      AbsorbFirst(fl, groups, p);
      assert [] + Own(p, key) == Own(p, key);
    }
  }

  lemma AbsorbFirst(fl: Floats, groups: Groups, p: Payload)
    requires ValidPayload(p) && p.Partial? && CanonicalKey(p.partial.groupKey) !in groups
    ensures
      var key := CanonicalKey(p.partial.groupKey);
      match Absorb(fl, groups, p)
      case Success(next) =>
        key in next && next == groups[key := next[key]] && ComesTo(fl, next[key], Rows(p, key), Own(p, key))
      case Failure(_) => false
  {
    FirstComesTo(fl, p.partial.partial);
  }

  lemma AbsorbMore(fl: Floats, groups: Groups, p: Payload, rows: nat, parts: seq<Aggregate>)
    requires ValidPayload(p) && p.Partial? && CanonicalKey(p.partial.groupKey) in groups
    requires ComesTo(fl, groups[CanonicalKey(p.partial.groupKey)], rows, parts)
    ensures
      var key := CanonicalKey(p.partial.groupKey);
      match Absorb(fl, groups, p)
      case Success(next) =>
        next == groups[key := next[key]] && ComesTo(fl, next[key], rows + Rows(p, key), parts + Own(p, key))
      case Failure(code) => code == OutOfRange && rows + Rows(p, key) > U64_MAX
  {
    var key := CanonicalKey(p.partial.groupKey);
    MergeComesTo(fl, groups[key], rows, parts, p.partial.partial);
    assert parts + [] == parts;
  }

  datatype Progress = Progress(messages: seq<Payload>, groups: Groups, terminal: bool)

  /** A retained stream: 1, 2, ... in canonical form, closed by its last message or still open. */
  ghost predicate Retains(fl: Floats, queryId: Uuid, tablet: Uuid, pr: Progress) {
    && (forall i :: 0 <= i < |pr.messages| ==> RetainedAt(queryId, tablet, pr, pr.messages[i], i))
    && (pr.terminal ==> pr.messages != [])
    && Gathers(fl, pr.groups, pr.messages)
  }

  predicate RetainedAt(queryId: Uuid, tablet: Uuid, pr: Progress, p: Payload, i: nat) {
    && ValidPayload(p) && CanonicalPayload(p) == p
    && p.QueryId() == queryId && p.TabletId() == tablet && p.Sequence() == i + 1
    && (p.Closes() <==> pr.terminal && i + 1 == |pr.messages|)
    && (p.EmptyTerminal? ==> |pr.messages| == 1)
  }

  // ---- The coordinator ----

  datatype State = State(
    floats: Floats, queryId: Uuid, maxPerFragment: nat, maxTotal: nat,
    order: seq<Uuid>, fragments: map<Uuid, Progress>, retained: nat, failure: StatusCode)

  predicate Distinct(ts: seq<Uuid>) {
    forall i, j :: 0 <= i < j < |ts| ==> ts[i] != ts[j]
  }

  /** Whether the first `width` wire bytes of `a` come before those of `b`, compared from the first byte on. */
  predicate Precedes(a: nat, b: nat, width: nat) {
    width > 0 && (a % 0x100 < b % 0x100 || (a % 0x100 == b % 0x100 && Precedes(a / 0x100, b / 0x100, width - 1)))
  }

  lemma {:induction false} PrecedesOneWay(a: nat, b: nat, width: nat)
    ensures !(Precedes(a, b, width) && Precedes(b, a, width))
    decreases width
  {
    if width == 0 {
    } else {
      PrecedesOneWay(a / 0x100, b / 0x100, width - 1);
    }
  }

  /** No tablet stands right behind one it should come before. */
  predicate InOrder(ts: seq<Uuid>) {
    forall i :: 0 < i < |ts| ==> !Precedes(ts[i], ts[i - 1], 16)
  }

  function Insert(ts: seq<Uuid>, t: Uuid): (r: seq<Uuid>)
    ensures forall u :: u in r <==> u in ts || u == t
    ensures Distinct(ts) && t !in ts ==> Distinct(r)
    ensures |r| == |ts| + 1
    ensures r[0] == t || (ts != [] && r[0] == ts[0] && !Precedes(t, ts[0], 16))
    ensures InOrder(ts) ==> InOrder(r)
  {
    if ts == [] || Precedes(t, ts[0], 16) then
      assert ts != [] ==> !Precedes(ts[0], t, 16) by {
        if ts != [] {
          PrecedesOneWay(t, ts[0], 16);
        }
      }
      [t] + ts
    else
      var rest := Insert(ts[1..], t);
      assert Distinct(ts) && t !in ts ==> ts[0] !in rest;
      [ts[0]] + rest
  }

  /** The order in which an ordered map keyed by these tablets walks them. */
  function Ascending(ts: seq<Uuid>): (r: seq<Uuid>)
    ensures forall u :: u in r <==> u in ts
    ensures Distinct(ts) ==> Distinct(r)
    ensures |r| == |ts| && InOrder(r)
  {
    if ts == [] then []
    else
      assert ts == ts[..|ts| - 1] + [ts[|ts| - 1]];
      Insert(Ascending(ts[..|ts| - 1]), ts[|ts| - 1])
  }

  predicate ValidLimits(queryId: Uuid, maxPerFragment: nat, maxTotal: nat, tablets: seq<Uuid>) {
    && queryId != 0
    && 0 < maxPerFragment <= maxTotal <= MAXIMUM_MESSAGES && |tablets| <= maxTotal
    && Distinct(tablets) && 0 !in tablets
  }

  function Create(floats: Floats, queryId: Uuid, maxPerFragment: nat, maxTotal: nat, tablets: seq<Uuid>): State {
    State(floats, queryId, maxPerFragment, maxTotal, Ascending(tablets),
          map t | t in tablets :: Progress([], map[], false), 0, Ok)
  }

  function Offer(c: State, p: Payload): (StatusCode, State) {
    if c.failure != Ok then (c.failure, c)
    else if !ValidPayload(p) || p.QueryId() != c.queryId || p.TabletId() !in c.fragments then (InvalidArgument, c)
    else
      var pr := c.fragments[p.TabletId()];
      if p.Sequence() <= |pr.messages| then
        (if pr.messages[p.Sequence() - 1] == CanonicalPayload(p) then Ok else AlreadyExists, c)
      else if pr.terminal then (InvalidArgument, c)
      else if p.EmptyTerminal? && p.Sequence() != 1 then (InvalidArgument, c)
      else if p.Sequence() != |pr.messages| + 1 then (Unavailable, c)
      else if |pr.messages| == c.maxPerFragment || c.retained == c.maxTotal then (ResourceExhausted, c)
      else Retain(c, CanonicalPayload(p), pr)
  }

  function Retain(c: State, p: Payload, pr: Progress): (StatusCode, State) {
    match Absorb(c.floats, pr.groups, p)
    case Failure(code) => (code, c)
    case Success(groups) =>
      (Ok, c.(fragments := c.fragments[p.TabletId() := Progress(pr.messages + [p], groups, p.Closes())],
              retained := c.retained + 1))
  }

  function WorkerFailed(c: State, tablet: Uuid, code: StatusCode): (StatusCode, State) {
    if tablet !in c.fragments || code == Ok then (InvalidArgument, c)
    else if c.fragments[tablet].terminal then (Ok, c)
    else if c.failure != Ok then (c.failure, c)
    else (Ok, c.(failure := code))
  }

  ghost predicate Sound(c: State) {
    && Distinct(c.order)
    && (forall t :: t in c.fragments <==> t in c.order)
    && (forall t :: t in c.fragments ==> Retains(c.floats, c.queryId, t, c.fragments[t]))
  }

  function MessagesOf(c: State, tablet: Uuid): nat {
    if tablet in c.fragments then |c.fragments[tablet].messages| else 0
  }

  /** What is retained is what is counted, and both limits hold. */
  ghost predicate Bounded(c: State) {
    && c.retained == Total(c.order, t => MessagesOf(c, t)) <= c.maxTotal
    && (forall t :: t in c.fragments ==> |c.fragments[t].messages| <= c.maxPerFragment)
  }

  lemma {:induction false} TotalAgrees(ts: seq<Uuid>, f: Uuid -> nat, g: Uuid -> nat)
    requires forall t :: t in ts ==> f(t) == g(t)
    ensures Total(ts, f) == Total(ts, g)
  {
    if ts == [] {
    } else {
      TotalAgrees(ts[..|ts| - 1], f, g);
    }
  }

  /** One tablet holds one message more. */
  lemma {:induction false} TotalGrows(ts: seq<Uuid>, f: Uuid -> nat, g: Uuid -> nat, tablet: Uuid)
    requires Distinct(ts) && tablet in ts && g(tablet) == f(tablet) + 1
    requires forall t :: t in ts && t != tablet ==> f(t) == g(t)
    ensures Total(ts, g) == Total(ts, f) + 1
  {
    var init, last := ts[..|ts| - 1], ts[|ts| - 1];
    if last == tablet {
      TotalAgrees(init, f, g);
    } else {
      TotalGrows(init, f, g, tablet);
    }
  }

  lemma {:induction false} TotalOfNone(ts: seq<Uuid>, f: Uuid -> nat)
    requires forall t :: t in ts ==> f(t) == 0
    ensures Total(ts, f) == 0
  {
    if ts == [] {
    } else {
      TotalOfNone(ts[..|ts| - 1], f);
    }
  }

  /** The retained messages are exactly what was retained, never more than either limit, whatever is offered. */
  lemma OfferKeepsBounded(c: State, p: Payload)
    requires Distinct(c.order) && (forall t :: t in c.fragments <==> t in c.order) && Bounded(c)
    ensures Bounded(Offer(c, p).1)
  {
    var next := Offer(c, p).1;
    if next != c {
      TotalGrows(c.order, t => MessagesOf(c, t), t => MessagesOf(next, t), p.TabletId());
    }
  }

  lemma CreateBounded(floats: Floats, queryId: Uuid, maxPerFragment: nat, maxTotal: nat, tablets: seq<Uuid>)
    ensures Bounded(Create(floats, queryId, maxPerFragment, maxTotal, tablets))
  {
    var c := Create(floats, queryId, maxPerFragment, maxTotal, tablets);
    TotalOfNone(c.order, t => MessagesOf(c, t));
  }

  lemma RetainKeepsStream(c: State, p: Payload)
    requires Sound(c) && ValidPayload(p) && p.QueryId() == c.queryId && p.TabletId() in c.fragments
    requires CanonicalPayload(p) == p
    requires var pr := c.fragments[p.TabletId()];
      !pr.terminal && p.Sequence() == |pr.messages| + 1 && (p.EmptyTerminal? ==> p.Sequence() == 1)
    ensures
      var pr := c.fragments[p.TabletId()];
      var (code, next) := Retain(c, p, pr);
      code == Ok ==> Retains(c.floats, c.queryId, p.TabletId(), next.fragments[p.TabletId()])
  {
    var pr := c.fragments[p.TabletId()];
    AbsorbGathers(c.floats, pr.groups, pr.messages, p);
    var (code, next) := Retain(c, p, pr);
    if code == Ok {
      var out := next.fragments[p.TabletId()];
      forall i | 0 <= i < |out.messages|
        ensures RetainedAt(c.queryId, p.TabletId(), out, out.messages[i], i)
      {
        if i < |pr.messages| {
          assert RetainedAt(c.queryId, p.TabletId(), pr, pr.messages[i], i);
        }
      }
    }
  }

  lemma CreateSound(floats: Floats, queryId: Uuid, maxPerFragment: nat, maxTotal: nat, tablets: seq<Uuid>)
    requires Distinct(tablets)
    ensures Sound(Create(floats, queryId, maxPerFragment, maxTotal, tablets))
  {
  }

  /** Offering touches only the fragment it names, never the failure, and keeps every retained stream sound. */
  lemma OfferKeepsSound(c: State, p: Payload)
    requires Sound(c)
    ensures Sound(Offer(c, p).1) && Offer(c, p).1.failure == c.failure
    ensures Offer(c, p).0 != Ok ==> Offer(c, p).1 == c
    ensures forall t :: t in c.fragments && t != p.TabletId() ==> Offer(c, p).1.fragments[t] == c.fragments[t]
  {
    var (code, next) := Offer(c, p);
    if code == Ok && next != c {
      RetainKeepsStream(c, CanonicalPayload(p));
    }
  }

  /** A payload that is next in its open stream is either retained, in canonical form, or refused without effect. */
  lemma OfferRetains(c: State, p: Payload)
    requires p.TabletId() in c.fragments
    requires !c.fragments[p.TabletId()].terminal && p.Sequence() == |c.fragments[p.TabletId()].messages| + 1
    ensures
      var (code, next) := Offer(c, p);
      && (code != Ok ==> next == c)
      && (code == Ok ==>
            && p.TabletId() in next.fragments
            && next.fragments[p.TabletId()].messages == c.fragments[p.TabletId()].messages + [CanonicalPayload(p)]
            && next.fragments[p.TabletId()].terminal == p.Closes())
  {
  }

  /** What becomes of the payload that is next in its open stream, if its key has so many rows by then. */
  function NextAnswer(c: State, p: Payload, pr: Progress, rows: nat): StatusCode {
    if c.failure != Ok then c.failure
    else if !ValidPayload(p) || p.QueryId() != c.queryId || (p.EmptyTerminal? && pr.messages != []) then InvalidArgument
    else if |pr.messages| >= c.maxPerFragment || c.retained >= c.maxTotal then ResourceExhausted
    else if rows > U64_MAX then OutOfRange
    else Ok
  }

  /** The rows of a payload's key, with its own. */
  function RowsWith(ps: seq<Payload>, p: Payload): nat {
    if p.Partial? then RowsOf(ps, CanonicalKey(p.partial.groupKey)) + p.partial.partial.count else 0
  }

  lemma OfferWhenNext(c: State, p: Payload, rows: nat)
    requires p.TabletId() in c.fragments
    requires var pr := c.fragments[p.TabletId()];
      && !pr.terminal && p.Sequence() == |pr.messages| + 1
      && |pr.messages| <= c.maxPerFragment && c.retained <= c.maxTotal
      && (ValidPayload(p) ==>
            match Absorb(c.floats, pr.groups, CanonicalPayload(p))
            case Success(_) => rows <= U64_MAX
            case Failure(code) => rows > U64_MAX && code == OutOfRange)
    ensures
      var pr := c.fragments[p.TabletId()];
      var (code, next) := Offer(c, p);
      && code == NextAnswer(c, p, pr, rows)
      && (code != Ok ==> next == c)
      && (code == Ok ==>
            && p.TabletId() in next.fragments && next.retained == c.retained + 1
            && next.fragments[p.TabletId()].messages == pr.messages + [CanonicalPayload(p)]
            && next.fragments[p.TabletId()].terminal == p.Closes())
  {
  }

  /**
   A payload that is next in its open stream is retained, in canonical form, exactly when no worker failed,
   it is valid, both limits leave room and its key's count fits; otherwise it is refused without effect.
   */
  lemma OfferNext(c: State, p: Payload)
    requires Sound(c) && Bounded(c) && p.TabletId() in c.fragments
    requires !c.fragments[p.TabletId()].terminal && p.Sequence() == |c.fragments[p.TabletId()].messages| + 1
    ensures
      var pr := c.fragments[p.TabletId()];
      var (code, next) := Offer(c, p);
      && code == NextAnswer(c, p, pr, RowsWith(pr.messages, p))
      && (code != Ok ==> next == c)
      && (code == Ok ==>
            && p.TabletId() in next.fragments && next.retained == c.retained + 1
            && next.fragments[p.TabletId()].messages == pr.messages + [CanonicalPayload(p)]
            && next.fragments[p.TabletId()].terminal == p.Closes())
  {
    var pr := c.fragments[p.TabletId()];
    if ValidPayload(p) {
      assert Retains(c.floats, c.queryId, p.TabletId(), pr);
      AbsorbAnswers(c.floats, pr.groups, pr.messages, CanonicalPayload(p));
      assert RowsWith(pr.messages, CanonicalPayload(p)) == RowsWith(pr.messages, p);
    }
    OfferWhenNext(c, p, RowsWith(pr.messages, p));
  }

  lemma AbsorbAnswers(fl: Floats, groups: Groups, ps: seq<Payload>, p: Payload)
    requires Gathers(fl, groups, ps) && ValidPayload(p)
    ensures
      match Absorb(fl, groups, p)
      case Success(_) => RowsWith(ps, p) <= U64_MAX
      case Failure(code) => RowsWith(ps, p) > U64_MAX && code == OutOfRange
  {
    AbsorbGathers(fl, groups, ps, p);
    if p.Partial? {
      MentionsSnoc(ps, p, CanonicalKey(p.partial.groupKey));
    }
  }

  /**
   What is not next in an open stream, nor a repetition, is refused without effect: anything once a failure
   is latched, under a foreign query or tablet, or behind the end of a stream; and what comes too early.
   */
  lemma OfferRefuses(c: State, p: Payload)
    requires c.failure != Ok || !ValidPayload(p) || p.QueryId() != c.queryId || p.TabletId() !in c.fragments
      || (c.fragments[p.TabletId()].terminal && p.Sequence() > |c.fragments[p.TabletId()].messages|)
      || p.Sequence() > |c.fragments[p.TabletId()].messages| + 1
    ensures Offer(c, p).1 == c
    ensures Offer(c, p).0 ==
      if c.failure != Ok then c.failure
      else if !ValidPayload(p) || p.QueryId() != c.queryId || p.TabletId() !in c.fragments
           || c.fragments[p.TabletId()].terminal || p.EmptyTerminal? then InvalidArgument
      else Unavailable
  {
  }

  /** Only the first failure of a tablet that is not done yet is latched, and it stays. */
  lemma WorkerFailureLatches(c: State, tablet: Uuid, code: StatusCode)
    ensures
      var (answer, d) := WorkerFailed(c, tablet, code);
      var counts := tablet in c.fragments && code != Ok && !c.fragments[tablet].terminal;
      && d == (if counts && c.failure == Ok then c.(failure := code) else c)
      && answer == if counts then c.failure else if tablet in c.fragments && code != Ok then Ok else InvalidArgument
  {
  }

  /** A sequence number already retained changes nothing: the same message again is fine, any other conflicts. */
  lemma RepeatIsHarmless(c: State, p: Payload)
    requires Sound(c) && c.failure == Ok && ValidPayload(p) && p.QueryId() == c.queryId && p.TabletId() in c.fragments
    requires p.Sequence() <= |c.fragments[p.TabletId()].messages|
    ensures Offer(c, p).1 == c
    ensures Offer(c, p).0 == if CanonicalPayload(p) in c.fragments[p.TabletId()].messages then Ok else AlreadyExists
  {
    var pr := c.fragments[p.TabletId()];
    if CanonicalPayload(p) in pr.messages {
      var i :| 0 <= i < |pr.messages| && pr.messages[i] == CanonicalPayload(p);
      assert RetainedAt(c.queryId, p.TabletId(), pr, pr.messages[i], i);
    }
  }

  // ---- The final result ----

  /** Merging one fragment's groups into the total; keys are independent, so their order does not matter. */
  function MergeGroups(fl: Floats, total: Groups, part: Groups): Result<Groups> {
    if exists key :: key in total && key in part && Merge(fl, total[key], part[key]).Failure? then Failure(OutOfRange)
    else Success(map key | key in total.Keys + part.Keys ::
      if key !in part then total[key]
      else if key !in total then part[key]
      else Merge(fl, total[key], part[key]).value)
  }

  function MergeFragments(c: State, order: seq<Uuid>): Result<Groups> {
    if order == [] then Success(map[])
    else
      match MergeFragments(c, order[..|order| - 1])
      case Failure(code) => Failure(code)
      case Success(total) =>
        var tablet := order[|order| - 1];
        if tablet !in c.fragments || !c.fragments[tablet].terminal then Failure(Unavailable)
        else MergeGroups(c.floats, total, c.fragments[tablet].groups)
  }

  function Finish(c: State): Result<Groups> {
    if c.failure != Ok then Failure(c.failure) else MergeFragments(c, c.order)
  }

  function TotalRows(c: State, order: seq<Uuid>, key: Key): nat
    requires forall i :: 0 <= i < |order| ==> order[i] in c.fragments
  {
    if order == [] then 0
    else TotalRows(c, order[..|order| - 1], key) + RowsOf(c.fragments[order[|order| - 1]].messages, key)
  }

  /** What one fragment's partials for a key come to, if it holds rows for it. */
  function Piece(c: State, tablet: Uuid, key: Key): seq<Aggregate>
    requires tablet in c.fragments
  {
    var parts := Partials(c.fragments[tablet].messages, key);
    if parts == [] then [] else [Whole(c.floats, parts)]
  }

  /** One piece for each fragment that holds rows for the key, fragments in order. */
  function Pieces(c: State, order: seq<Uuid>, key: Key): seq<Aggregate>
    requires forall i :: 0 <= i < |order| ==> order[i] in c.fragments
  {
    if order == [] then [] else Pieces(c, order[..|order| - 1], key) + Piece(c, order[|order| - 1], key)
  }

  predicate MentionedBy(c: State, order: seq<Uuid>, key: Key)
    requires forall i :: 0 <= i < |order| ==> order[i] in c.fragments
  {
    exists i :: 0 <= i < |order| && Mentions(c.fragments[order[i]].messages, key)
  }

  /**
   The groups over several fragments: every key any of them mentions, with the rows of all of them, and
   what the fragments' pieces come to.
   */
  ghost predicate Totals(c: State, order: seq<Uuid>, groups: Groups)
    requires forall i :: 0 <= i < |order| ==> order[i] in c.fragments
  {
    && (forall key :: key in groups <==> MentionedBy(c, order, key))
    && (forall key {:trigger Pieces(c, order, key)} :: key in groups ==>
          ComesTo(c.floats, groups[key], TotalRows(c, order, key), Pieces(c, order, key)))
  }

  ghost predicate AllFit(c: State, order: seq<Uuid>)
    requires forall i :: 0 <= i < |order| ==> order[i] in c.fragments
  {
    forall key :: TotalRows(c, order, key) <= U64_MAX
  }

  lemma MentionedByLast(c: State, order: seq<Uuid>, key: Key)
    requires order != [] && forall i :: 0 <= i < |order| ==> order[i] in c.fragments
    ensures MentionedBy(c, order, key) <==>
      MentionedBy(c, order[..|order| - 1], key) || Mentions(c.fragments[order[|order| - 1]].messages, key)
    ensures !MentionedBy(c, order, key) ==> TotalRows(c, order, key) == 0 && Pieces(c, order, key) == []
    decreases |order|
  {
    var init, last := order[..|order| - 1], |order| - 1;
    if MentionedBy(c, init, key) {
      var i :| 0 <= i < |init| && Mentions(c.fragments[init[i]].messages, key);
      assert order[i] == init[i];
    }
    if MentionedBy(c, order, key) {
      var i :| 0 <= i < |order| && Mentions(c.fragments[order[i]].messages, key);
      assert i < last ==> init[i] == order[i];
    } else {
      UnmentionedHasNoRows(c.fragments[order[last]].messages, key);
      if init != [] {
        MentionedByLast(c, init, key);
      }
    }
  }

  /** What one key of a merge must come to. */
  ghost predicate KeyMerges(
    fl: Floats, total: Groups, part: Groups, key: Key, mentioned: bool, rows: nat, parts: seq<Aggregate>)
  {
    && (mentioned <==> key in total || key in part)
    && (key in total && key !in part ==> ComesTo(fl, total[key], rows, parts))
    && (key !in total && key in part ==> ComesTo(fl, part[key], rows, parts))
    && (key in total && key in part ==>
          match Merge(fl, total[key], part[key])
          case Success(merged) => ComesTo(fl, merged, rows, parts)
          case Failure(_) => rows > U64_MAX)
  }

  /** A fragment's own group is its piece. */
  lemma PieceOfGroup(c: State, tablet: Uuid, key: Key)
    requires tablet in c.fragments && Gathers(c.floats, c.fragments[tablet].groups, c.fragments[tablet].messages)
    requires key in c.fragments[tablet].groups
    ensures
      var a := c.fragments[tablet].groups[key];
      && ValidAggregate(a) && a.count == RowsOf(c.fragments[tablet].messages, key)
      && Piece(c, tablet, key) == if a.count > 0 then [a] else []
  {
    var parts := Partials(c.fragments[tablet].messages, key);
    WholeIsValid(c.floats, parts);
    if parts != [] {
      FilledHasExtrema(parts);
    }
  }

  lemma KeyOfMerge(c: State, order: seq<Uuid>, total: Groups, key: Key)
    requires order != [] && forall i :: 0 <= i < |order| ==> order[i] in c.fragments
    requires Gathers(c.floats, c.fragments[order[|order| - 1]].groups, c.fragments[order[|order| - 1]].messages)
    requires Totals(c, order[..|order| - 1], total)
    ensures KeyMerges(c.floats, total, c.fragments[order[|order| - 1]].groups, key,
                      MentionedBy(c, order, key), TotalRows(c, order, key), Pieces(c, order, key))
  {
    var init, tablet := order[..|order| - 1], order[|order| - 1];
    var pr := c.fragments[tablet];
    MentionedByLast(c, order, key);
    if init != [] {
      MentionedByLast(c, init, key);
    }
    UnmentionedHasNoRows(pr.messages, key);
    if key in pr.groups {
      PieceOfGroup(c, tablet, key);
    }
    OneKeyMerges(c.floats, total, pr.groups, key, MentionedBy(c, order, key), TotalRows(c, init, key),
                 Pieces(c, init, key), RowsOf(pr.messages, key), Piece(c, tablet, key));
  }

  /** One key, from what it came to before and the piece it gains. */
  lemma OneKeyMerges(
    fl: Floats, total: Groups, part: Groups, key: Key, mentioned: bool, rows: nat, parts: seq<Aggregate>,
    more: nat, piece: seq<Aggregate>)
    requires mentioned <==> key in total || key in part
    requires if key in total then ComesTo(fl, total[key], rows, parts) else rows == 0 && parts == []
    requires if key in part
      then ValidAggregate(part[key]) && more == part[key].count && piece == if more > 0 then [part[key]] else []
      else more == 0 && piece == []
    ensures KeyMerges(fl, total, part, key, mentioned, rows + more, parts + piece)
  {
    assert parts + [] == parts && [] + piece == piece;
    if key in part {
      if key in total {
        MergeComesTo(fl, total[key], rows, parts, part[key]);
      } else {
        FirstComesTo(fl, part[key]);
      }
    }
  }

  lemma MergeKeywise(
    fl: Floats, total: Groups, part: Groups, mentioned: Key -> bool, rows: Key -> nat, parts: Key -> seq<Aggregate>)
    requires forall key :: KeyMerges(fl, total, part, key, mentioned(key), rows(key), parts(key))
    ensures MergeGroups(fl, total, part).Success? <==>
      forall key :: key in total && key in part ==> rows(key) <= U64_MAX
    ensures MergeGroups(fl, total, part).Success? ==>
      var merged := MergeGroups(fl, total, part).value;
      && (forall key :: key in merged <==> mentioned(key))
      && (forall key :: key in merged ==> ComesTo(fl, merged[key], rows(key), parts(key)))
  {
  }

  lemma MergeGroupsTotals(c: State, order: seq<Uuid>, total: Groups)
    requires order != [] && forall i :: 0 <= i < |order| ==> order[i] in c.fragments
    requires Gathers(c.floats, c.fragments[order[|order| - 1]].groups, c.fragments[order[|order| - 1]].messages)
    requires Totals(c, order[..|order| - 1], total)
    ensures
      var part := c.fragments[order[|order| - 1]].groups;
      var r := MergeGroups(c.floats, total, part);
      && (r.Success? <==> forall key :: key in total && key in part ==> TotalRows(c, order, key) <= U64_MAX)
      && (r.Success? ==> Totals(c, order, r.value))
  {
    var part := c.fragments[order[|order| - 1]].groups;
    forall key
      ensures KeyMerges(c.floats, total, part, key, MentionedBy(c, order, key), TotalRows(c, order, key),
                        Pieces(c, order, key))
    {
      KeyOfMerge(c, order, total, key);
    }
    MergeKeywise(c.floats, total, part, key => MentionedBy(c, order, key), key => TotalRows(c, order, key),
                 key => Pieces(c, order, key));
  }

  lemma GatheredRowsFit(fl: Floats, groups: Groups, ps: seq<Payload>, key: Key)
    requires Gathers(fl, groups, ps)
    ensures RowsOf(ps, key) <= U64_MAX && (key !in groups ==> RowsOf(ps, key) == 0)
  {
    UnmentionedHasNoRows(ps, key);
    assert key in groups ==> ComesTo(fl, groups[key], RowsOf(ps, key), Partials(ps, key));
  }

  lemma UnsharedFits(c: State, order: seq<Uuid>, total: Groups, key: Key)
    requires order != [] && forall i :: 0 <= i < |order| ==> order[i] in c.fragments
    requires Totals(c, order[..|order| - 1], total) && TotalRows(c, order[..|order| - 1], key) <= U64_MAX
    requires Gathers(c.floats, c.fragments[order[|order| - 1]].groups, c.fragments[order[|order| - 1]].messages)
    requires !(key in total && key in c.fragments[order[|order| - 1]].groups)
    ensures TotalRows(c, order, key) <= U64_MAX
  {
    var init, pr := order[..|order| - 1], c.fragments[order[|order| - 1]];
    GatheredRowsFit(c.floats, pr.groups, pr.messages, key);
    if init != [] {
      MentionedByLast(c, init, key);
    }
  }

  /** One more fragment keeps every count in range exactly when the shared keys stay in range. */
  lemma AllFitLast(c: State, order: seq<Uuid>, total: Groups)
    requires order != [] && forall i :: 0 <= i < |order| ==> order[i] in c.fragments
    requires Totals(c, order[..|order| - 1], total) && AllFit(c, order[..|order| - 1])
    requires Gathers(c.floats, c.fragments[order[|order| - 1]].groups, c.fragments[order[|order| - 1]].messages)
    ensures AllFit(c, order) <==>
      forall key :: key in total && key in c.fragments[order[|order| - 1]].groups ==> TotalRows(c, order, key) <= U64_MAX
  {
    forall key | !(key in total && key in c.fragments[order[|order| - 1]].groups)
      ensures TotalRows(c, order, key) <= U64_MAX
    {
      assert TotalRows(c, order[..|order| - 1], key) <= U64_MAX;
      UnsharedFits(c, order, total, key);
    }
  }

  lemma AllFitInit(c: State, order: seq<Uuid>)
    requires order != [] && forall i :: 0 <= i < |order| ==> order[i] in c.fragments
    ensures AllFit(c, order) ==> AllFit(c, order[..|order| - 1])
  {
    var init := order[..|order| - 1];
    if AllFit(c, order) {
      forall key
        ensures TotalRows(c, init, key) <= U64_MAX
      {
        assert TotalRows(c, order, key) <= U64_MAX;
      }
    }
  }

  /** Every fragment in `order` is closed. */
  predicate AllClosed(c: State, order: seq<Uuid>)
    requires forall i :: 0 <= i < |order| ==> order[i] in c.fragments
  {
    forall i :: 0 <= i < |order| ==> c.fragments[order[i]].terminal
  }

  lemma AllClosedLast(c: State, order: seq<Uuid>)
    requires order != [] && forall i :: 0 <= i < |order| ==> order[i] in c.fragments
    ensures AllClosed(c, order) <==>
      AllClosed(c, order[..|order| - 1]) && c.fragments[order[|order| - 1]].terminal
  {
  }

  lemma {:induction false} MergeFragmentsTotals(c: State, order: seq<Uuid>)
    requires Sound(c) && forall i :: 0 <= i < |order| ==> order[i] in c.fragments
    ensures MergeFragments(c, order).Success? <==> AllClosed(c, order) && AllFit(c, order)
    ensures MergeFragments(c, order).Success? ==> Totals(c, order, MergeFragments(c, order).value)
  {
    if order == [] {
      return;
    }
    var init, last := order[..|order| - 1], order[|order| - 1];
    MergeFragmentsTotals(c, init);
    AllFitInit(c, order);
    AllClosedLast(c, order);
    assert Retains(c.floats, c.queryId, last, c.fragments[last]);
    if MergeFragments(c, init).Success? {
      MergeGroupsTotals(c, order, MergeFragments(c, init).value);
      AllFitLast(c, order, MergeFragments(c, init).value);
    }
  }

  /**
   No row is lost or invented. The query finishes exactly when no worker failed, every tablet's stream
   is closed and no count overflows; each key then counts the rows of all tablets that mention it, and each
   of its fields is folded from the partials, by fragment and then over the fragments in order.
   */
  lemma FinishConservesRows(c: State)
    requires Sound(c)
    ensures Finish(c).Success? <==>
      c.failure == Ok && (forall t :: t in c.fragments ==> c.fragments[t].terminal) && AllFit(c, c.order)
    ensures Finish(c).Success? ==> Totals(c, c.order, Finish(c).value)
  {
    MergeFragmentsTotals(c, c.order);
  }

  /** The walk over the fragments meets an open one, and nothing overflowed before it. */
  ghost predicate MeetsOpen(c: State, order: seq<Uuid>, k: nat)
    requires k < |order| && forall i :: 0 <= i < |order| ==> order[i] in c.fragments
  {
    !c.fragments[order[k]].terminal && AllClosed(c, order[..k]) && AllFit(c, order[..k])
  }

  lemma {:induction false} MergeFragmentsCode(c: State, order: seq<Uuid>)
    requires Sound(c) && forall i :: 0 <= i < |order| ==> order[i] in c.fragments
    ensures MergeFragments(c, order).Failure? ==>
      MergeFragments(c, order).code ==
      if exists k :: 0 <= k < |order| && MeetsOpen(c, order, k) then Unavailable else OutOfRange
  {
    if order == [] || MergeFragments(c, order).Success? {
      return;
    }
    var init := order[..|order| - 1];
    MergeFragmentsTotals(c, init);
    LastCode(c, order, init);
    if MergeFragments(c, init).Failure? {
      MergeFragmentsCode(c, init);
      InitDecides(c, order, init);
    } else {
      LastDecides(c, order, init, |order| - 1);
    }
  }

  lemma LastCode(c: State, order: seq<Uuid>, init: seq<Uuid>)
    requires order != [] && init == order[..|order| - 1] && order[|order| - 1] in c.fragments
    requires MergeFragments(c, order).Failure?
    ensures MergeFragments(c, order).code ==
      if MergeFragments(c, init).Failure? then MergeFragments(c, init).code
      else if c.fragments[order[|order| - 1]].terminal then OutOfRange else Unavailable
  {
  }

  lemma InitDecides(c: State, order: seq<Uuid>, init: seq<Uuid>)
    requires forall i :: 0 <= i < |order| ==> order[i] in c.fragments
    requires order != [] && init == order[..|order| - 1] && !(AllClosed(c, init) && AllFit(c, init))
    ensures (exists k :: 0 <= k < |order| && MeetsOpen(c, order, k)) <==>
      (exists k :: 0 <= k < |init| && MeetsOpen(c, init, k))
  {
    forall k | 0 <= k < |init|
      ensures MeetsOpen(c, init, k) <==> MeetsOpen(c, order, k)
    {
      assert init[..k] == order[..k];
    }
    assert !MeetsOpen(c, order, |init|);
  }

  lemma LastDecides(c: State, order: seq<Uuid>, init: seq<Uuid>, last: nat)
    requires forall i :: 0 <= i < |order| ==> order[i] in c.fragments
    requires order != [] && last == |order| - 1 && init == order[..last] && AllClosed(c, init) && AllFit(c, init)
    ensures (exists k :: 0 <= k < |order| && MeetsOpen(c, order, k)) <==> !c.fragments[order[last]].terminal
  {
    if !c.fragments[order[last]].terminal {
      assert MeetsOpen(c, order, last);
    }
    forall k | 0 <= k < last
      ensures !MeetsOpen(c, order, k)
    {
      assert init[k] == order[k];
    }
  }

  /** An unfinished query is reported as its latched failure, a stream still open, or else a count out of range. */
  lemma FinishCode(c: State)
    requires Sound(c) && Finish(c).Failure?
    ensures Finish(c).code ==
      if c.failure != Ok then c.failure
      else if exists k :: 0 <= k < |c.order| && MeetsOpen(c, c.order, k) then Unavailable else OutOfRange
  {
    if c.failure == Ok {
      MergeFragmentsCode(c, c.order);
    }
  }

  lemma OneOfTotals(c: State, order: seq<Uuid>, groups: Groups, key: Key)
    requires forall i :: 0 <= i < |order| ==> order[i] in c.fragments
    requires Totals(c, order, groups)
    ensures key in groups <==> MentionedBy(c, order, key)
    ensures key in groups ==> ComesTo(c.floats, groups[key], TotalRows(c, order, key), Pieces(c, order, key))
    ensures key in groups ==> groups[key].count == TotalRows(c, order, key)
  {
  }

  /** One key of a finished query. */
  lemma FinishedKey(c: State, groups: Groups, key: Key)
    requires Sound(c) && Finish(c) == Success(groups)
    ensures key in groups <==> MentionedBy(c, c.order, key)
    ensures key in groups ==> ComesTo(c.floats, groups[key], TotalRows(c, c.order, key), Pieces(c, c.order, key))
    ensures key in groups ==>
      groups[key].count == TotalRows(c, c.order, key) && groups[key] == Whole(c.floats, Pieces(c, c.order, key))
  {
    FinishConservesRows(c);
    OneOfTotals(c, c.order, groups, key);
  }
}
