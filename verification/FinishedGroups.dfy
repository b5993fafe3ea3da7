/** What a finished group says about every partial that went into it, whatever fragment it came in. */
module FinishedGroups {
  import opened Common
  import opened ExchangeFrames
  import opened Moments
  import opened Coordinator

  /** Every partial that holds rows for a key, fragments in order. */
  function EveryPartial(c: State, order: seq<Uuid>, key: Key): seq<Aggregate>
    requires forall i :: 0 <= i < |order| ==> order[i] in c.fragments
  {
    if order == [] then []
    else EveryPartial(c, order[..|order| - 1], key) + Partials(c.fragments[order[|order| - 1]].messages, key)
  }

  lemma PartialsFilled(c: State, tablet: Uuid, key: Key)
    requires Sound(c) && tablet in c.fragments
    ensures AllFilled(Partials(c.fragments[tablet].messages, key))
  {
    var pr := c.fragments[tablet];
    assert Retains(c.floats, c.queryId, tablet, pr);
    UnmentionedHasNoRows(pr.messages, key);
    assert key in pr.groups ==> ComesTo(c.floats, pr.groups[key], RowsOf(pr.messages, key), Partials(pr.messages, key));
  }

  ghost predicate FragmentsFilled(c: State, order: seq<Uuid>, key: Key)
    requires forall i :: 0 <= i < |order| ==> order[i] in c.fragments
  {
    forall i :: 0 <= i < |order| ==> AllFilled(Partials(c.fragments[order[i]].messages, key))
  }

  lemma SoundIsFilled(c: State, key: Key)
    requires Sound(c)
    ensures FragmentsFilled(c, c.order, key)
  {
    forall i | 0 <= i < |c.order|
      ensures AllFilled(Partials(c.fragments[c.order[i]].messages, key))
    {
      PartialsFilled(c, c.order[i], key);
    }
  }

  lemma ExtremaAppend(a: seq<Aggregate>, b: seq<Aggregate>)
    ensures Minima(a + b) == Minima(a) + Minima(b) && Maxima(a + b) == Maxima(a) + Maxima(b)
  {
  }

  // ---- Sum ----

  /** What the fragments' pieces add up to, where no fragment rounds. */
  lemma {:induction false} PiecesTotal(c: State, order: seq<Uuid>, key: Key, value: F64 -> real)
    requires forall i :: 0 <= i < |order| ==> order[i] in c.fragments
    requires forall i :: 0 <= i < |order| ==> NothingRounds(c.floats, value, Partials(c.fragments[order[i]].messages, key))
    ensures TotalOf(value, Pieces(c, order, key)) == TotalOf(value, EveryPartial(c, order, key))
  {
    if order == [] {
    } else {
      var init, parts := order[..|order| - 1], Partials(c.fragments[order[|order| - 1]].messages, key);
      PiecesTotal(c, init, key, value);
      TotalAppends(value, EveryPartial(c, init, key), parts);
      if parts == [] {
        assert Pieces(c, init, key) + [] == Pieces(c, init, key);
      } else {
        SumIsTotal(c.floats, value, parts);
        TotalAppends(value, Pieces(c, init, key), [Whole(c.floats, parts)]);
        TotalOfOne(value, Whole(c.floats, parts));
      }
    }
  }

  lemma TotalOfOne(value: F64 -> real, a: Aggregate)
    ensures TotalOf(value, [a]) == value(a.sum)
  {
    assert [a][..0] == [];
    assert TotalOf(value, [a][..0]) == 0.0;
  }

  /** No addition that goes into a key rounds, within fragments or between them. */
  predicate KeyExact(c: State, order: seq<Uuid>, key: Key, value: F64 -> real)
    requires forall i :: 0 <= i < |order| ==> order[i] in c.fragments
  {
    && NothingRounds(c.floats, value, Pieces(c, order, key))
    && forall i :: 0 <= i < |order| ==> NothingRounds(c.floats, value, Partials(c.fragments[order[i]].messages, key))
  }

  lemma SumOfPieces(c: State, order: seq<Uuid>, key: Key, a: Aggregate, rows: nat, value: F64 -> real)
    requires (forall i :: 0 <= i < |order| ==> order[i] in c.fragments) && KeyExact(c, order, key, value)
    requires ComesTo(c.floats, a, rows, Pieces(c, order, key)) && rows > 0
    ensures value(a.sum) == TotalOf(value, EveryPartial(c, order, key))
  {
    PiecesTotal(c, order, key, value);
    SumIsTotal(c.floats, value, Pieces(c, order, key));
  }

  lemma SumOfTotals(c: State, groups: Groups, key: Key, value: F64 -> real)
    requires Sound(c) && Totals(c, c.order, groups) && key in groups && groups[key].count > 0
    requires KeyExact(c, c.order, key, value)
    ensures value(groups[key].sum) == TotalOf(value, EveryPartial(c, c.order, key))
  {
    OneOfTotals(c, c.order, groups, key);
    SumOfPieces(c, c.order, key, groups[key], TotalRows(c, c.order, key), value);
  }

  /** Where no addition rounds, the finished sum of a key is the sum of those of all its partials, of all tablets. */
  lemma FinishedSum(c: State, groups: Groups, key: Key, value: F64 -> real)
    requires Sound(c) && Finish(c) == Success(groups) && key in groups && groups[key].count > 0
    requires KeyExact(c, c.order, key, value)
    ensures value(groups[key].sum) == TotalOf(value, EveryPartial(c, c.order, key))
  {
    FinishConservesRows(c);
    SumOfTotals(c, groups, key, value);
  }

  // ---- Minimum ----

  /** The partials of the fragments that do not start the key with a NaN minimum. */
  function LowPartials(c: State, order: seq<Uuid>, key: Key): seq<Aggregate>
    requires forall i :: 0 <= i < |order| ==> order[i] in c.fragments
  {
    if order == [] then []
    else
      var parts := Partials(c.fragments[order[|order| - 1]].messages, key);
      LowPartials(c, order[..|order| - 1], key) + if parts != [] && IsNan(Minima(parts)[0]) then [] else parts
  }

  /** Some number of `some` is no further up than `v`. */
  predicate Floor(some: seq<F64>, v: F64) {
    exists i :: 0 <= i < |some| && !IsNan(some[i]) && Magnitude(some[i]) <= Magnitude(v)
  }

  /** The numbers of `some` are taken from `all`, and below every number of `all` there is one of them. */
  ghost predicate ReachesDown(some: seq<F64>, all: seq<F64>) {
    && (forall i :: 0 <= i < |some| && !IsNan(some[i]) ==> some[i] in all)
    && (forall j {:trigger Floor(some, all[j])} :: 0 <= j < |all| && !IsNan(all[j]) ==> Floor(some, all[j]))
  }

  lemma LowCarries(v: F64, some: seq<F64>, all: seq<F64>)
    requires IsLeast(v, some) && ReachesDown(some, all)
    ensures IsLeast(v, all)
  {
    var k :| 0 <= k < |some| && some[k] == v;
    forall j | 0 <= j < |all| && !IsNan(all[j])
      ensures Magnitude(v) <= Magnitude(all[j])
    {
      assert Floor(some, all[j]);
    }
  }

  lemma LowOneMore(some: seq<F64>, all: seq<F64>, v: F64, more: seq<F64>)
    requires ReachesDown(some, all) && (if IsNan(v) then more == [] else IsLeast(v, more))
    ensures ReachesDown(some + [v], all + more)
  {
    var next, every := some + [v], all + more;
    forall j | 0 <= j < |every| && !IsNan(every[j])
      ensures Floor(next, every[j])
    {
      if j < |all| {
        assert Floor(some, all[j]);
        var i :| 0 <= i < |some| && !IsNan(some[i]) && Magnitude(some[i]) <= Magnitude(all[j]);
        assert next[i] == some[i];
      } else {
        assert every[j] == more[j - |all|] && next[|some|] == v;
      }
    }
  }

  lemma {:induction false} LowPiecesReach(c: State, order: seq<Uuid>, key: Key)
    requires (forall i :: 0 <= i < |order| ==> order[i] in c.fragments) && FragmentsFilled(c, order, key)
    ensures ReachesDown(Minima(Pieces(c, order, key)), Minima(LowPartials(c, order, key)))
  {
    if order == [] {
    } else {
      var init, tablet := order[..|order| - 1], order[|order| - 1];
      LowPiecesReach(c, init, key);
      LowLastReaches(c, order, key, Pieces(c, init, key), LowPartials(c, init, key), Partials(c.fragments[tablet].messages, key));
    }
  }

  lemma LowLastReaches(
    c: State, order: seq<Uuid>, key: Key, pieces: seq<Aggregate>, every: seq<Aggregate>, parts: seq<Aggregate>)
    requires order != [] && (forall i :: 0 <= i < |order| ==> order[i] in c.fragments) && AllFilled(parts)
    requires pieces == Pieces(c, order[..|order| - 1], key) && every == LowPartials(c, order[..|order| - 1], key)
    requires parts == Partials(c.fragments[order[|order| - 1]].messages, key) && ReachesDown(Minima(pieces), Minima(every))
    ensures ReachesDown(Minima(Pieces(c, order, key)), Minima(LowPartials(c, order, key)))
  {
    if parts == [] {
      assert pieces + [] == pieces && every + parts == every;
    } else {
      var piece := Whole(c.floats, parts);
      var more := if IsNan(Minima(parts)[0]) then [] else parts;
      MinimumIsLeast(parts);
      ExtremaAppend(pieces, [piece]);
      ExtremaAppend(every, more);
      LowOneMore(Minima(pieces), Minima(every), piece.minimum.value, Minima(more));
      assert Minima([piece]) == [piece.minimum.value];
    }
  }

  /** The first piece has a NaN for its minimum exactly if the very first partial has, and then that one. */
  lemma {:induction false} LowFirstPiece(c: State, order: seq<Uuid>, key: Key)
    requires (forall i :: 0 <= i < |order| ==> order[i] in c.fragments) && FragmentsFilled(c, order, key)
    ensures Pieces(c, order, key) == [] <==> EveryPartial(c, order, key) == []
    ensures Pieces(c, order, key) != [] ==>
      var piece, partial := Minima(Pieces(c, order, key))[0], Minima(EveryPartial(c, order, key))[0];
      (IsNan(piece) <==> IsNan(partial)) && (IsNan(piece) ==> piece == partial)
  {
    if order == [] {
    } else {
      var init, tablet := order[..|order| - 1], order[|order| - 1];
      var parts := Partials(c.fragments[tablet].messages, key);
      LowFirstPiece(c, init, key);
      if parts != [] {
        MinimumIsLeast(parts);
      }
    }
  }

  lemma {:induction false} LowPartialsAmongAll(c: State, order: seq<Uuid>, key: Key)
    requires forall i :: 0 <= i < |order| ==> order[i] in c.fragments
    ensures forall v :: v in Minima(LowPartials(c, order, key)) ==> v in Minima(EveryPartial(c, order, key))
  {
    if order == [] {
    } else {
      var init, tablet := order[..|order| - 1], order[|order| - 1];
      var parts := Partials(c.fragments[tablet].messages, key);
      LowPartialsAmongAll(c, init, key);
      ExtremaAppend(EveryPartial(c, init, key), parts);
      ExtremaAppend(LowPartials(c, init, key), if parts != [] && IsNan(Minima(parts)[0]) then [] else parts);
    }
  }

  /** Exactly when the least of `some` is the least of all. */
  lemma LowExactly(v: F64, some: seq<F64>, all: seq<F64>)
    requires IsLeast(v, some) && forall x :: x in some ==> x in all
    ensures IsLeast(v, all) <==> forall j :: 0 <= j < |all| && !IsNan(all[j]) ==> Floor(some, all[j])
  {
    var k :| 0 <= k < |some| && some[k] == v;
    forall j | 0 <= j < |all| && !IsNan(all[j])
      ensures Floor(some, all[j]) <==> Magnitude(v) <= Magnitude(all[j])
    {
    }
  }

  lemma LowOfPieces(c: State, order: seq<Uuid>, key: Key, a: Aggregate, rows: nat)
    requires (forall i :: 0 <= i < |order| ==> order[i] in c.fragments) && FragmentsFilled(c, order, key)
    requires ComesTo(c.floats, a, rows, Pieces(c, order, key)) && rows > 0
    ensures a.minimum.Some? && EveryPartial(c, order, key) != []
    ensures
      var all, some := Minima(EveryPartial(c, order, key)), Minima(LowPartials(c, order, key));
      && (if IsNan(all[0]) then a.minimum.value == all[0] else IsLeast(a.minimum.value, some))
      && (IsLeast(a.minimum.value, all) <==>
            !IsNan(all[0]) && forall j :: 0 <= j < |all| && !IsNan(all[j]) ==> Floor(some, all[j]))
  {
    var pieces := Pieces(c, order, key);
    LowFirstPiece(c, order, key);
    MinimumIsLeast(pieces);
    var all, some := Minima(EveryPartial(c, order, key)), Minima(LowPartials(c, order, key));
    if !IsNan(all[0]) {
      LowPiecesReach(c, order, key);
      LowCarries(a.minimum.value, Minima(pieces), some);
      LowPartialsAmongAll(c, order, key);
      LowExactly(a.minimum.value, some, all);
    }
  }

  lemma LowOfTotals(c: State, groups: Groups, key: Key)
    requires Sound(c) && Totals(c, c.order, groups) && key in groups && groups[key].count > 0
    ensures groups[key].minimum.Some? && EveryPartial(c, c.order, key) != []
    ensures
      var v, all, some := groups[key].minimum.value, Minima(EveryPartial(c, c.order, key)), Minima(LowPartials(c, c.order, key));
      && (if IsNan(all[0]) then v == all[0] else IsLeast(v, some))
      && (IsLeast(v, all) <==> !IsNan(all[0]) && forall j :: 0 <= j < |all| && !IsNan(all[j]) ==> Floor(some, all[j]))
  {
    OneOfTotals(c, c.order, groups, key);
    SoundIsFilled(c, key);
    LowOfPieces(c, c.order, key, groups[key], TotalRows(c, c.order, key));
  }

  /**
   The finished minimum of a key in all cases: the very first partial's if that is a NaN, otherwise the least over
   the fragments that do not start with one. So it is the least of all partials' minima exactly when the first
   is not a NaN and no number in a fragment that starts with a NaN lies below all those of the others.
   */
  lemma FinishedMinimum(c: State, groups: Groups, key: Key)
    requires Sound(c) && Finish(c) == Success(groups) && key in groups && groups[key].count > 0
    ensures groups[key].minimum.Some? && EveryPartial(c, c.order, key) != []
    ensures
      var v, all, some := groups[key].minimum.value, Minima(EveryPartial(c, c.order, key)), Minima(LowPartials(c, c.order, key));
      && (if IsNan(all[0]) then v == all[0] else IsLeast(v, some))
      && (IsLeast(v, all) <==> !IsNan(all[0]) && forall j :: 0 <= j < |all| && !IsNan(all[j]) ==> Floor(some, all[j]))
  {
    FinishConservesRows(c);
    LowOfTotals(c, groups, key);
  }

  // ---- Maximum ----

  /** The partials of the fragments that do not start the key with a NaN maximum. */
  function HighPartials(c: State, order: seq<Uuid>, key: Key): seq<Aggregate>
    requires forall i :: 0 <= i < |order| ==> order[i] in c.fragments
  {
    if order == [] then []
    else
      var parts := Partials(c.fragments[order[|order| - 1]].messages, key);
      HighPartials(c, order[..|order| - 1], key) + if parts != [] && IsNan(Maxima(parts)[0]) then [] else parts
  }

  /** Some number of `some` is no further down than `v`. */
  predicate Ceiling(some: seq<F64>, v: F64) {
    exists i :: 0 <= i < |some| && !IsNan(some[i]) && Magnitude(v) <= Magnitude(some[i])
  }

  /** The numbers of `some` are taken from `all`, and above every number of `all` there is one of them. */
  ghost predicate ReachesUp(some: seq<F64>, all: seq<F64>) {
    && (forall i :: 0 <= i < |some| && !IsNan(some[i]) ==> some[i] in all)
    && (forall j {:trigger Ceiling(some, all[j])} :: 0 <= j < |all| && !IsNan(all[j]) ==> Ceiling(some, all[j]))
  }

  lemma HighCarries(v: F64, some: seq<F64>, all: seq<F64>)
    requires IsGreatest(v, some) && ReachesUp(some, all)
    ensures IsGreatest(v, all)
  {
    var k :| 0 <= k < |some| && some[k] == v;
    forall j | 0 <= j < |all| && !IsNan(all[j])
      ensures Magnitude(all[j]) <= Magnitude(v)
    {
      assert Ceiling(some, all[j]);
    }
  }

  lemma HighOneMore(some: seq<F64>, all: seq<F64>, v: F64, more: seq<F64>)
    requires ReachesUp(some, all) && (if IsNan(v) then more == [] else IsGreatest(v, more))
    ensures ReachesUp(some + [v], all + more)
  {
    var next, every := some + [v], all + more;
    forall j | 0 <= j < |every| && !IsNan(every[j])
      ensures Ceiling(next, every[j])
    {
      if j < |all| {
        assert Ceiling(some, all[j]);
        var i :| 0 <= i < |some| && !IsNan(some[i]) && Magnitude(all[j]) <= Magnitude(some[i]);
        assert next[i] == some[i];
      } else {
        assert every[j] == more[j - |all|] && next[|some|] == v;
      }
    }
  }

  lemma {:induction false} HighPiecesReach(c: State, order: seq<Uuid>, key: Key)
    requires (forall i :: 0 <= i < |order| ==> order[i] in c.fragments) && FragmentsFilled(c, order, key)
    ensures ReachesUp(Maxima(Pieces(c, order, key)), Maxima(HighPartials(c, order, key)))
  {
    if order == [] {
    } else {
      var init, tablet := order[..|order| - 1], order[|order| - 1];
      HighPiecesReach(c, init, key);
      HighLastReaches(c, order, key, Pieces(c, init, key), HighPartials(c, init, key), Partials(c.fragments[tablet].messages, key));
    }
  }

  lemma HighLastReaches(
    c: State, order: seq<Uuid>, key: Key, pieces: seq<Aggregate>, every: seq<Aggregate>, parts: seq<Aggregate>)
    requires order != [] && (forall i :: 0 <= i < |order| ==> order[i] in c.fragments) && AllFilled(parts)
    requires pieces == Pieces(c, order[..|order| - 1], key) && every == HighPartials(c, order[..|order| - 1], key)
    requires parts == Partials(c.fragments[order[|order| - 1]].messages, key) && ReachesUp(Maxima(pieces), Maxima(every))
    ensures ReachesUp(Maxima(Pieces(c, order, key)), Maxima(HighPartials(c, order, key)))
  {
    if parts == [] {
      assert pieces + [] == pieces && every + parts == every;
    } else {
      var piece := Whole(c.floats, parts);
      var more := if IsNan(Maxima(parts)[0]) then [] else parts;
      MaximumIsGreatest(parts);
      ExtremaAppend(pieces, [piece]);
      ExtremaAppend(every, more);
      HighOneMore(Maxima(pieces), Maxima(every), piece.maximum.value, Maxima(more));
      assert Maxima([piece]) == [piece.maximum.value];
    }
  }

  /** The first piece has a NaN for its maximum exactly if the very first partial has, and then that one. */
  lemma {:induction false} HighFirstPiece(c: State, order: seq<Uuid>, key: Key)
    requires (forall i :: 0 <= i < |order| ==> order[i] in c.fragments) && FragmentsFilled(c, order, key)
    ensures Pieces(c, order, key) == [] <==> EveryPartial(c, order, key) == []
    ensures Pieces(c, order, key) != [] ==>
      var piece, partial := Maxima(Pieces(c, order, key))[0], Maxima(EveryPartial(c, order, key))[0];
      (IsNan(piece) <==> IsNan(partial)) && (IsNan(piece) ==> piece == partial)
  {
    if order == [] {
    } else {
      var init, tablet := order[..|order| - 1], order[|order| - 1];
      var parts := Partials(c.fragments[tablet].messages, key);
      HighFirstPiece(c, init, key);
      if parts != [] {
        MaximumIsGreatest(parts);
      }
    }
  }

  lemma {:induction false} HighPartialsAmongAll(c: State, order: seq<Uuid>, key: Key)
    requires forall i :: 0 <= i < |order| ==> order[i] in c.fragments
    ensures forall v :: v in Maxima(HighPartials(c, order, key)) ==> v in Maxima(EveryPartial(c, order, key))
  {
    if order == [] {
    } else {
      var init, tablet := order[..|order| - 1], order[|order| - 1];
      var parts := Partials(c.fragments[tablet].messages, key);
      HighPartialsAmongAll(c, init, key);
      ExtremaAppend(EveryPartial(c, init, key), parts);
      ExtremaAppend(HighPartials(c, init, key), if parts != [] && IsNan(Maxima(parts)[0]) then [] else parts);
    }
  }

  /** Exactly when the greatest of `some` is the greatest of all. */
  lemma HighExactly(v: F64, some: seq<F64>, all: seq<F64>)
    requires IsGreatest(v, some) && forall x :: x in some ==> x in all
    ensures IsGreatest(v, all) <==> forall j :: 0 <= j < |all| && !IsNan(all[j]) ==> Ceiling(some, all[j])
  {
    var k :| 0 <= k < |some| && some[k] == v;
    forall j | 0 <= j < |all| && !IsNan(all[j])
      ensures Ceiling(some, all[j]) <==> Magnitude(all[j]) <= Magnitude(v)
    {
    }
  }

  lemma HighOfPieces(c: State, order: seq<Uuid>, key: Key, a: Aggregate, rows: nat)
    requires (forall i :: 0 <= i < |order| ==> order[i] in c.fragments) && FragmentsFilled(c, order, key)
    requires ComesTo(c.floats, a, rows, Pieces(c, order, key)) && rows > 0
    ensures a.maximum.Some? && EveryPartial(c, order, key) != []
    ensures
      var all, some := Maxima(EveryPartial(c, order, key)), Maxima(HighPartials(c, order, key));
      && (if IsNan(all[0]) then a.maximum.value == all[0] else IsGreatest(a.maximum.value, some))
      && (IsGreatest(a.maximum.value, all) <==>
            !IsNan(all[0]) && forall j :: 0 <= j < |all| && !IsNan(all[j]) ==> Ceiling(some, all[j]))
  {
    var pieces := Pieces(c, order, key);
    HighFirstPiece(c, order, key);
    MaximumIsGreatest(pieces);
    var all, some := Maxima(EveryPartial(c, order, key)), Maxima(HighPartials(c, order, key));
    if !IsNan(all[0]) {
      HighPiecesReach(c, order, key);
      HighCarries(a.maximum.value, Maxima(pieces), some);
      HighPartialsAmongAll(c, order, key);
      HighExactly(a.maximum.value, some, all);
    }
  }

  lemma HighOfTotals(c: State, groups: Groups, key: Key)
    requires Sound(c) && Totals(c, c.order, groups) && key in groups && groups[key].count > 0
    ensures groups[key].maximum.Some? && EveryPartial(c, c.order, key) != []
    ensures
      var v, all, some := groups[key].maximum.value, Maxima(EveryPartial(c, c.order, key)), Maxima(HighPartials(c, c.order, key));
      && (if IsNan(all[0]) then v == all[0] else IsGreatest(v, some))
      && (IsGreatest(v, all) <==> !IsNan(all[0]) && forall j :: 0 <= j < |all| && !IsNan(all[j]) ==> Ceiling(some, all[j]))
  {
    OneOfTotals(c, c.order, groups, key);
    SoundIsFilled(c, key);
    HighOfPieces(c, c.order, key, groups[key], TotalRows(c, c.order, key));
  }

  /**
   The finished maximum of a key in all cases: the very first partial's if that is a NaN, otherwise the greatest over
   the fragments that do not start with one. So it is the greatest of all partials' maxima exactly when the first
   is not a NaN and no number in a fragment that starts with a NaN lies above all those of the others.
   */
  lemma FinishedMaximum(c: State, groups: Groups, key: Key)
    requires Sound(c) && Finish(c) == Success(groups) && key in groups && groups[key].count > 0
    ensures groups[key].maximum.Some? && EveryPartial(c, c.order, key) != []
    ensures
      var v, all, some := groups[key].maximum.value, Maxima(EveryPartial(c, c.order, key)), Maxima(HighPartials(c, c.order, key));
      && (if IsNan(all[0]) then v == all[0] else IsGreatest(v, some))
      && (IsGreatest(v, all) <==> !IsNan(all[0]) && forall j :: 0 <= j < |all| && !IsNan(all[j]) ==> Ceiling(some, all[j]))
  {
    FinishConservesRows(c);
    HighOfTotals(c, groups, key);
  }
}
