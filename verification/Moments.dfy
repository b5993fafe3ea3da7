/**
 Merging partial aggregates: count, sum, extrema, mean and second moment. The arithmetic is a parameter,
 so the same formulas are read once over the machine's floats and once over the reals.
 */
module Moments {
  import opened Common
  import opened ExchangeFrames

  // ---- The formulas ----

  datatype Ops<!N> = Ops(
    add: (N, N) -> N, subtract: (N, N) -> N, multiply: (N, N) -> N, divide: (N, N) -> N, fromCount: nat -> N)

  /** Floating-point arithmetic, taken as given: counts are exact, the rest is whatever the machine computes. */
  type Floats = Ops<F64>

  /** The mean of two sets of rows, moved from the first towards the second by its share. */
  function MergedMean<N>(ops: Ops<N>, n: nat, mean: N, otherN: nat, otherMean: N): N {
    var delta := ops.subtract(otherMean, mean);
    ops.add(mean, ops.divide(ops.multiply(delta, ops.fromCount(otherN)), ops.fromCount(n + otherN)))
  }

  /** Their sum of squared deviations: both, and what lies between the two means. */
  function MergedM2<N>(ops: Ops<N>, n: nat, mean: N, m2: N, otherN: nat, otherMean: N, otherM2: N): N {
    var delta := ops.subtract(otherMean, mean);
    var between := ops.divide(
      ops.multiply(ops.multiply(ops.multiply(delta, delta), ops.fromCount(n)), ops.fromCount(otherN)),
      ops.fromCount(n + otherN));
    ops.add(m2, ops.add(otherM2, between))
  }

  /** The number a bit pattern stands for, on a scale that keeps its order; both zeros are zero. */
  function Magnitude(bits: F64): int {
    if bits < NEGATIVE_ZERO then bits else NEGATIVE_ZERO - bits
  }

  function PowerOfTwo(n: nat): (r: nat)
    ensures r > 0
  {
    if n == 0 then 1 else 2 * PowerOfTwo(n - 1)
  }

  /** What exponent and fraction stand for, in units of the least positive double. */
  function Scaled(bits: nat): nat {
    var exponent, fraction := bits / 0x10_0000_0000_0000, bits % 0x10_0000_0000_0000;
    if exponent == 0 then fraction else (0x10_0000_0000_0000 + fraction) * PowerOfTwo(exponent - 1)
  }

  lemma ProductGrows(a: nat, b: nat, unit: nat)
    requires a < b && unit > 0
    ensures a * unit < b * unit
  {
  }

  lemma ScaledGrows(bits: nat)
    ensures Scaled(bits) < Scaled(bits + 1)
  {
    var exponent, fraction := bits / 0x10_0000_0000_0000, bits % 0x10_0000_0000_0000;
    if fraction + 1 < 0x10_0000_0000_0000 {
      assert (bits + 1) / 0x10_0000_0000_0000 == exponent && (bits + 1) % 0x10_0000_0000_0000 == fraction + 1;
      if exponent > 0 {
        ProductGrows(0x10_0000_0000_0000 + fraction, 0x10_0000_0000_0000 + fraction + 1, PowerOfTwo(exponent - 1));
      }
    } else {
      assert (bits + 1) / 0x10_0000_0000_0000 == exponent + 1 && (bits + 1) % 0x10_0000_0000_0000 == 0;
      if exponent > 0 {
        ProductGrows(0x10_0000_0000_0000 + fraction, 0x20_0000_0000_0000, PowerOfTwo(exponent - 1));
      }
    }
  }

  lemma {:induction false} ScaledOrders(a: nat, b: nat)
    requires a < b
    ensures Scaled(a) < Scaled(b)
    decreases b - a
  {
    ScaledGrows(a);
    if a + 1 == b {
    } else {
      ScaledOrders(a + 1, b);
    }
  }

  /** The number itself, in those units; infinities lie beyond all others. */
  function Value(bits: F64): int {
    if bits < NEGATIVE_ZERO then Scaled(bits) else 0 - Scaled(bits - NEGATIVE_ZERO)
  }

  /** Magnitudes compare as the numbers do. */
  lemma MagnitudeOrders(a: F64, b: F64)
    ensures Magnitude(a) < Magnitude(b) <==> Value(a) < Value(b)
    ensures Magnitude(a) == Magnitude(b) <==> Value(a) == Value(b)
  {
    var m, n := Magnitude(a), Magnitude(b);
    assert Scaled(0) == 0;
    MagnitudeOneWay(a, b);
    MagnitudeOneWay(b, a);
  }

  lemma MagnitudeOneWay(a: F64, b: F64)
    ensures Magnitude(a) < Magnitude(b) ==> Value(a) < Value(b)
    ensures Magnitude(a) == Magnitude(b) ==> Value(a) == Value(b)
  {
    var m, n := Magnitude(a), Magnitude(b);
    assert Scaled(0) == 0;
    if m < n {
      if m < 0 {
        ScaledOrders(0, -m);
      }
      if 0 < n {
        ScaledOrders(0, n);
      }
      if 0 <= m {
        ScaledOrders(m, n);
      } else if n <= 0 {
        ScaledOrders(-n, -m);
      }
    }
  }

  /** Less as floats compare: never with a NaN on either side. */
  predicate FloatLess(a: F64, b: F64) {
    !IsNan(a) && !IsNan(b) && Magnitude(a) < Magnitude(b)
  }

  /** The second only if it is less; so a NaN in first place stays, and one in second place is passed over. */
  function Smaller(a: F64, b: F64): F64 {
    if FloatLess(b, a) then b else a
  }

  function Larger(a: F64, b: F64): F64 {
    if FloatLess(a, b) then b else a
  }

  function Merge(fl: Floats, a: Aggregate, b: Aggregate): Result<Aggregate> {
    if b.count == 0 then Success(a)
    else if b.minimum.None? || b.maximum.None? then Failure(InvalidArgument)
    else if a.count > U64_MAX - b.count then Failure(OutOfRange)
    else if a.count == 0 then Success(b)
    else if a.minimum.None? || a.maximum.None? then Failure(InvalidArgument)
    else Success(Aggregate(
      a.count + b.count, fl.add(a.sum, b.sum), Some(Smaller(a.minimum.value, b.minimum.value)),
      Some(Larger(a.maximum.value, b.maximum.value)), MergedMean(fl, a.count, a.mean, b.count, b.mean),
      MergedM2(fl, a.count, a.mean, a.m2, b.count, b.mean, b.m2)))
  }

  lemma MergeAddsCounts(fl: Floats, a: Aggregate, b: Aggregate)
    requires ValidAggregate(a) && ValidAggregate(b)
    ensures Merge(fl, a, b).Success? <==> a.count + b.count <= U64_MAX
    ensures Merge(fl, a, b).Success? ==>
      ValidAggregate(Merge(fl, a, b).value) && Merge(fl, a, b).value.count == a.count + b.count
    ensures Merge(fl, a, b).Failure? ==> Merge(fl, a, b).code == OutOfRange
  {
  }

  // ---- What a list of partials comes to, field by field ----

  /** Partials that hold rows. */
  predicate AllFilled(parts: seq<Aggregate>) {
    forall i :: 0 <= i < |parts| ==> ValidAggregate(parts[i]) && parts[i].count > 0
  }

  function CountOf(parts: seq<Aggregate>): nat {
    if parts == [] then 0 else CountOf(parts[..|parts| - 1]) + parts[|parts| - 1].count
  }

  /** The sums added up from the first on. */
  function SumOf(fl: Floats, parts: seq<Aggregate>): F64 {
    if parts == [] then 0
    else if |parts| == 1 then parts[0].sum
    else fl.add(SumOf(fl, parts[..|parts| - 1]), parts[|parts| - 1].sum)
  }

  function MinimumOf(parts: seq<Aggregate>): Option<F64> {
    if parts == [] then None
    else if |parts| == 1 then parts[0].minimum
    else Some(Smaller(MinimumOf(parts[..|parts| - 1]).GetOr(0), parts[|parts| - 1].minimum.GetOr(0)))
  }

  function MaximumOf(parts: seq<Aggregate>): Option<F64> {
    if parts == [] then None
    else if |parts| == 1 then parts[0].maximum
    else Some(Larger(MaximumOf(parts[..|parts| - 1]).GetOr(0), parts[|parts| - 1].maximum.GetOr(0)))
  }

  function MeanOf(fl: Floats, parts: seq<Aggregate>): F64 {
    if parts == [] then 0
    else if |parts| == 1 then parts[0].mean
    else
      var init, last := parts[..|parts| - 1], parts[|parts| - 1];
      MergedMean(fl, CountOf(init), MeanOf(fl, init), last.count, last.mean)
  }

  function M2Of(fl: Floats, parts: seq<Aggregate>): F64 {
    if parts == [] then 0
    else if |parts| == 1 then parts[0].m2
    else
      var init, last := parts[..|parts| - 1], parts[|parts| - 1];
      MergedM2(fl, CountOf(init), MeanOf(fl, init), M2Of(fl, init), last.count, last.mean, last.m2)
  }

  /** All fields together; without partials it is the empty aggregate. */
  function Whole(fl: Floats, parts: seq<Aggregate>): Aggregate {
    Aggregate(Min(CountOf(parts), U64_MAX), SumOf(fl, parts), MinimumOf(parts), MaximumOf(parts), MeanOf(fl, parts),
              M2Of(fl, parts))
  }

  lemma {:induction false} FilledHasExtrema(parts: seq<Aggregate>)
    requires AllFilled(parts) && parts != []
    ensures MinimumOf(parts).Some? && MaximumOf(parts).Some? && CountOf(parts) > 0
  {
    if |parts| == 1 {
    } else {
      FilledHasExtrema(parts[..|parts| - 1]);
    }
  }

  lemma CountOfMore(parts: seq<Aggregate>, b: Aggregate)
    ensures CountOf(parts + [b]) == CountOf(parts) + b.count
  {
    var all := parts + [b];
    assert all[..|all| - 1] == parts && all[|all| - 1] == b;
  }

  lemma WholeOfMore(fl: Floats, parts: seq<Aggregate>, b: Aggregate)
    requires parts != []
    ensures CountOf(parts + [b]) == CountOf(parts) + b.count
    ensures SumOf(fl, parts + [b]) == fl.add(SumOf(fl, parts), b.sum)
    ensures MinimumOf(parts + [b]) == Some(Smaller(MinimumOf(parts).GetOr(0), b.minimum.GetOr(0)))
    ensures MaximumOf(parts + [b]) == Some(Larger(MaximumOf(parts).GetOr(0), b.maximum.GetOr(0)))
    ensures MeanOf(fl, parts + [b]) == MergedMean(fl, CountOf(parts), MeanOf(fl, parts), b.count, b.mean)
    ensures M2Of(fl, parts + [b]) ==
      MergedM2(fl, CountOf(parts), MeanOf(fl, parts), M2Of(fl, parts), b.count, b.mean, b.m2)
  {
    var all := parts + [b];
    assert all[..|all| - 1] == parts && all[|all| - 1] == b;
  }

  lemma WholeOfOne(fl: Floats, b: Aggregate)
    ensures Whole(fl, [b]) == b && CountOf([b]) == b.count
  {
    assert [b][..0] == [];
    assert CountOf([b][..0]) == 0;
  }

  /** Merging into rows that are there. */
  lemma MergeFilled(fl: Floats, a: Aggregate, b: Aggregate)
    requires a.count > 0 && b.count > 0 && a.minimum.Some? && a.maximum.Some? && b.minimum.Some? && b.maximum.Some?
    ensures Merge(fl, a, b) ==
      if a.count + b.count <= U64_MAX then
        Success(Aggregate(
          a.count + b.count, fl.add(a.sum, b.sum), Some(Smaller(a.minimum.value, b.minimum.value)),
          Some(Larger(a.maximum.value, b.maximum.value)), MergedMean(fl, a.count, a.mean, b.count, b.mean),
          MergedM2(fl, a.count, a.mean, a.m2, b.count, b.mean, b.m2)))
      else Failure(OutOfRange)
  {
  }

  /** Merging one more partial that holds rows into what a list came to is what the longer list comes to. */
  lemma MergeIsWhole(fl: Floats, parts: seq<Aggregate>, b: Aggregate)
    requires AllFilled(parts) && CountOf(parts) <= U64_MAX && ValidAggregate(b) && b.count > 0
    ensures Merge(fl, Whole(fl, parts), b) ==
      if CountOf(parts) + b.count <= U64_MAX then Success(Whole(fl, parts + [b])) else Failure(OutOfRange)
  {
    if parts == [] {
      assert parts + [b] == [b];
      WholeOfOne(fl, b);
    } else {
      FilledHasExtrema(parts);
      WholeOfMore(fl, parts, b);
      MergeFilled(fl, Whole(fl, parts), b);
    }
  }

  lemma WholeIsValid(fl: Floats, parts: seq<Aggregate>)
    requires AllFilled(parts)
    ensures ValidAggregate(Whole(fl, parts))
  {
    if parts != [] {
      FilledHasExtrema(parts);
    }
  }

  /** An aggregate without rows is the empty one. */
  lemma EmptyIsWhole(fl: Floats, a: Aggregate)
    requires ValidAggregate(a) && a.count == 0
    ensures a == Whole(fl, [])
  {
  }

  // ---- Sums ----

  /** The sums of all partials as numbers, added without rounding. */
  function TotalOf(value: F64 -> real, parts: seq<Aggregate>): real {
    if parts == [] then 0.0 else TotalOf(value, parts[..|parts| - 1]) + value(parts[|parts| - 1].sum)
  }

  /** No addition on the way through the list rounds. */
  predicate NothingRounds(fl: Floats, value: F64 -> real, parts: seq<Aggregate>) {
    forall i {:trigger SumOf(fl, parts[..i])} :: 0 < i < |parts| ==>
      AddsExactly(fl, value, SumOf(fl, parts[..i]), parts[i].sum)
  }

  predicate AddsExactly(fl: Floats, value: F64 -> real, a: F64, b: F64) {
    value(fl.add(a, b)) == value(a) + value(b)
  }

  /** Where nothing rounds, the sums folded in order are the sum of all. */
  lemma {:induction false} SumIsTotal(fl: Floats, value: F64 -> real, parts: seq<Aggregate>)
    requires parts != [] && NothingRounds(fl, value, parts)
    ensures value(SumOf(fl, parts)) == TotalOf(value, parts)
  {
    var init, last := parts[..|parts| - 1], |parts| - 1;
    if |parts| == 1 {
      assert TotalOf(value, parts[..0]) == 0.0;
    } else {
      forall i | 0 < i < |init|
        ensures AddsExactly(fl, value, SumOf(fl, init[..i]), init[i].sum)
      {
        assert init[..i] == parts[..i];
      }
      SumIsTotal(fl, value, init);
      assert AddsExactly(fl, value, SumOf(fl, parts[..last]), parts[last].sum);
    }
  }

  lemma {:induction false} TotalAppends(value: F64 -> real, a: seq<Aggregate>, b: seq<Aggregate>)
    ensures TotalOf(value, a + b) == TotalOf(value, a) + TotalOf(value, b)
  {
    if b == [] {
      assert a + b == a;
    } else {
      var all, init := a + b, b[..|b| - 1];
      assert all[..|all| - 1] == a + init && all[|all| - 1] == b[|b| - 1];
      TotalAppends(value, a, init);
    }
  }

  // ---- Extrema ----

  /** The least of some numbers: among them, and no number among them is less. */
  predicate IsLeast(v: F64, among: seq<F64>) {
    v in among && !IsNan(v) && forall i :: 0 <= i < |among| && !IsNan(among[i]) ==> Magnitude(v) <= Magnitude(among[i])
  }

  predicate IsGreatest(v: F64, among: seq<F64>) {
    v in among && !IsNan(v) && forall i :: 0 <= i < |among| && !IsNan(among[i]) ==> Magnitude(among[i]) <= Magnitude(v)
  }

  function Minima(parts: seq<Aggregate>): seq<F64> {
    seq(|parts|, i requires 0 <= i < |parts| => parts[i].minimum.GetOr(0))
  }

  function Maxima(parts: seq<Aggregate>): seq<F64> {
    seq(|parts|, i requires 0 <= i < |parts| => parts[i].maximum.GetOr(0))
  }

  /**
   The merged minimum is the least of the partials' minima, unless the first of them is a NaN: that one
   stays. NaNs behind the first are passed over.
   */
  lemma {:induction false} MinimumIsLeast(parts: seq<Aggregate>)
    requires AllFilled(parts) && parts != []
    ensures MinimumOf(parts).Some?
    ensures if IsNan(Minima(parts)[0]) then MinimumOf(parts).value == Minima(parts)[0]
            else IsLeast(MinimumOf(parts).value, Minima(parts))
  {
    FilledHasExtrema(parts);
    if |parts| == 1 {
      assert Minima(parts)[0] == MinimumOf(parts).value;
    } else {
      var init := parts[..|parts| - 1];
      MinimumIsLeast(init);
      assert Minima(parts) == Minima(init) + [parts[|parts| - 1].minimum.GetOr(0)];
    }
  }

  lemma {:induction false} MaximumIsGreatest(parts: seq<Aggregate>)
    requires AllFilled(parts) && parts != []
    ensures MaximumOf(parts).Some?
    ensures if IsNan(Maxima(parts)[0]) then MaximumOf(parts).value == Maxima(parts)[0]
            else IsGreatest(MaximumOf(parts).value, Maxima(parts))
  {
    FilledHasExtrema(parts);
    if |parts| == 1 {
      assert Maxima(parts)[0] == MaximumOf(parts).value;
    } else {
      var init := parts[..|parts| - 1];
      MaximumIsGreatest(init);
      assert Maxima(parts) == Maxima(init) + [parts[|parts| - 1].maximum.GetOr(0)];
    }
  }

  /** So with a NaN among the minima the result depends on the order of the partials. */
  lemma NanMinimumDependsOnOrder(n: Aggregate, v: Aggregate)
    requires n.count > 0 && v.count > 0 && ValidAggregate(n) && ValidAggregate(v)
    requires IsNan(n.minimum.value) && !IsNan(v.minimum.value)
    ensures MinimumOf([n, v]) == n.minimum && MinimumOf([v, n]) == v.minimum
  {
    assert [n, v][..1] == [n] && [v, n][..1] == [v];
  }

  // ---- Over the reals the formulas are exact ----

  function Plus(a: real, b: real): real {
    a + b
  }

  function Minus(a: real, b: real): real {
    a - b
  }

  function Times(a: real, b: real): real {
    a * b
  }

  function Over(a: real, b: real): real {
    if b == 0.0 then 0.0 else a / b
  }

  function AsReal(n: nat): real {
    n as real
  }

  const REALS: Ops<real> := Ops(Plus, Minus, Times, Over, AsReal)

  /** What some numbers exceed a centre by, added up: nothing exactly at their mean. */
  function Balance(xs: seq<real>, c: real): real {
    if xs == [] then 0.0 else Balance(xs[..|xs| - 1], c) + (xs[|xs| - 1] - c)
  }

  /** Their squared deviations from a centre, added up. */
  function Deviation(xs: seq<real>, c: real): real {
    if xs == [] then 0.0 else Deviation(xs[..|xs| - 1], c) + (xs[|xs| - 1] - c) * (xs[|xs| - 1] - c)
  }

  /** Count, mean and second moment of these numbers. */
  predicate Describes(n: nat, mean: real, m2: real, xs: seq<real>) {
    n == |xs| && Balance(xs, mean) == 0.0 && m2 == Deviation(xs, mean)
  }

  lemma {:induction false} BalanceAppends(xs: seq<real>, ys: seq<real>, c: real)
    ensures Balance(xs + ys, c) == Balance(xs, c) + Balance(ys, c)
  {
    if ys == [] {
      assert xs + ys == xs;
    } else {
      var all, init := xs + ys, ys[..|ys| - 1];
      assert all[..|all| - 1] == xs + init && all[|all| - 1] == ys[|ys| - 1];
      BalanceAppends(xs, init, c);
    }
  }

  lemma {:induction false} DeviationAppends(xs: seq<real>, ys: seq<real>, c: real)
    ensures Deviation(xs + ys, c) == Deviation(xs, c) + Deviation(ys, c)
  {
    if ys == [] {
      assert xs + ys == xs;
    } else {
      var all, init := xs + ys, ys[..|ys| - 1];
      assert all[..|all| - 1] == xs + init && all[|all| - 1] == ys[|ys| - 1];
      DeviationAppends(xs, init, c);
    }
  }

  /** `v` taken `n` times. */
  function Repeated(n: nat, v: real): real {
    if n == 0 then 0.0 else Repeated(n - 1, v) + v
  }

  lemma {:induction false} RepeatedIsProduct(n: nat, v: real)
    ensures Repeated(n, v) == (n as real) * v
  {
    if n == 0 {
    } else {
      RepeatedIsProduct(n - 1, v);
      assert (n as real) * v == ((n - 1) as real) * v + v;
    }
  }

  /** Moving the centre moves the balance by the distance, once for every number. */
  lemma {:induction false} BalanceMoves(xs: seq<real>, m: real, c: real)
    ensures Balance(xs, c) == Balance(xs, m) + Repeated(|xs|, m - c)
  {
    if xs == [] {
    } else {
      BalanceMoves(xs[..|xs| - 1], m, c);
    }
  }

  lemma Distributes(p: real, a: real, b: real)
    ensures p * (a + b) == p * a + p * b
  {
  }

  /** `p` times the balance, one number at a time. */
  function Cross(xs: seq<real>, m: real, p: real): real {
    if xs == [] then 0.0 else Cross(xs[..|xs| - 1], m, p) + p * (xs[|xs| - 1] - m)
  }

  lemma {:induction false} CrossIsProduct(xs: seq<real>, m: real, p: real)
    ensures Cross(xs, m, p) == p * Balance(xs, m)
  {
    if xs == [] {
    } else {
      var init := xs[..|xs| - 1];
      CrossIsProduct(init, m, p);
      Distributes(p, Balance(init, m), xs[|xs| - 1] - m);
    }
  }

  lemma Shift(x: real, m: real, c: real)
    ensures (x - c) * (x - c) == (x - m) * (x - m) + 2.0 * ((m - c) * (x - m)) + (m - c) * (m - c)
  {
  }

  lemma {:induction false} DeviationMovesFrom(xs: seq<real>, m: real, c: real)
    ensures Deviation(xs, c) == Deviation(xs, m) + 2.0 * Cross(xs, m, m - c) + Repeated(|xs|, (m - c) * (m - c))
  {
    if xs == [] {
    } else {
      DeviationMovesFrom(xs[..|xs| - 1], m, c);
      Shift(xs[|xs| - 1], m, c);
    }
  }

  /** From the mean to any centre, the squared deviations grow by the squared distance, once for every number. */
  lemma DeviationMoves(xs: seq<real>, m: real, c: real, p: real, pp: real)
    requires Balance(xs, m) == 0.0 && p == m - c && pp == p * p
    ensures Deviation(xs, c) == Deviation(xs, m) + Repeated(|xs|, pp)
  {
    assert pp == (m - c) * (m - c);
    assert Cross(xs, m, m - c) == 0.0 by {
      CrossIsProduct(xs, m, m - c);
    }
    DeviationMovesFrom(xs, m, c);
  }

  /** Around a centre where the distances `p` and `q` of two means cancel, both lists together balance. */
  lemma BothAround(
    xs: seq<real>, m: real, ys: seq<real>, k: real, c: real, p: real, pp: real, q: real, qq: real, between: real)
    requires Balance(xs, m) == 0.0 && Balance(ys, k) == 0.0
    requires p == m - c && pp == p * p && q == k - c && qq == q * q
    requires Repeated(|xs|, p) + Repeated(|ys|, q) == 0.0 && between == Repeated(|xs|, pp) + Repeated(|ys|, qq)
    ensures Balance(xs + ys, c) == 0.0 && Deviation(xs + ys, c) == Deviation(xs, m) + (Deviation(ys, k) + between)
  {
    BalanceAppends(xs, ys, c);
    BalanceMoves(xs, m, c);
    BalanceMoves(ys, k, c);
    DeviationAppends(xs, ys, c);
    DeviationMoves(xs, m, c, p, pp);
    DeviationMoves(ys, k, c, q, qq);
  }

  lemma QuotientTimes(p: real, n: real)
    requires n > 0.0
    ensures p / n * n == p
  {
  }

  lemma SameProduct(x: real, y: real, n: real)
    requires n > 0.0 && x * n == y * n
    ensures x == y
  {
    assert (x - y) * n == 0.0;
  }

  lemma SquaresExpand(a: real, b: real, d: real, u: real)
    ensures a * (u * u) + b * ((d - u) * (d - u)) == ((a + b) * u) * u - 2.0 * ((b * d) * u) + (b * d) * d
  {
  }

  lemma Factors(t: real, d: real, u: real, n: real)
    ensures t * u - 2.0 * (t * u) + t * d == t * (d - u)
    ensures t * (d - u) * n == t * (d * n - n * u)
  {
  }

  lemma Reorders(a: real, b: real, d: real)
    ensures (b * d) * (d * (a + b) - b * d) == d * d * a * b
  {
  }

  /** If the first mean moves by `u` and the second by the rest of `d`, the squared distances come to `w`. */
  lemma SquaresMeet(a: real, b: real, d: real, u: real, w: real)
    requires a + b > 0.0 && (a + b) * u == b * d && w * (a + b) == d * d * a * b
    ensures a * (u * u) + b * ((d - u) * (d - u)) == w
  {
    var t, n := b * d, a + b;
    var left := a * (u * u) + b * ((d - u) * (d - u));
    assert left == t * (d - u) by {
      SquaresExpand(a, b, d, u);
      Factors(t, d, u, n);
    }
    assert left * n == w * n by {
      Factors(t, d, u, n);
      Reorders(a, b, d);
    }
    SameProduct(left, w, n);
  }

  /** And the distances cancel. */
  lemma DistancesMeet(a: real, b: real, d: real, u: real)
    requires (a + b) * u == b * d
    ensures a * (0.0 - u) + b * (d - u) == 0.0
  {
  }

  /** The two formulas over the reals, written out. */
  lemma OverReals(n: nat, m: real, m2: real, k: nat, other: real, otherM2: real)
    requires n + k > 0
    ensures
      var a, b := n as real, k as real;
      && MergedMean(REALS, n, m, k, other) == m + (other - m) * b / (a + b)
      && MergedM2(REALS, n, m, m2, k, other, otherM2) == m2 + (otherM2 + (other - m) * (other - m) * a * b / (a + b))
  {
    assert (n + k) as real == n as real + k as real;
  }

  /** The distance the mean moves, and what is added to the second moment, by what they come to over the count. */
  lemma FormulasOver(n: nat, m: real, m2: real, k: nat, other: real, otherM2: real, d: real) returns (u: real, w: real)
    requires n + k > 0 && d == other - m
    ensures MergedMean(REALS, n, m, k, other) == m + u && MergedM2(REALS, n, m, m2, k, other, otherM2) == m2 + (otherM2 + w)
    ensures
      var a, b := n as real, k as real;
      a + b > 0.0 && (a + b) * u == b * d && w * (a + b) == d * d * a * b
  {
    var a, b := n as real, k as real;
    OverReals(n, m, m2, k, other, otherM2);
    u, w := d * b / (a + b), d * d * a * b / (a + b);
    QuotientTimes(d * b, a + b);
    QuotientTimes(d * d * a * b, a + b);
  }

  lemma RepeatedPair(n: nat, p: real, k: nat, q: real, w: real)
    requires (n as real) * p + (k as real) * q == w
    ensures Repeated(n, p) + Repeated(k, q) == w
  {
    RepeatedIsProduct(n, p);
    RepeatedIsProduct(k, q);
  }

  lemma DistancesCancel(n: nat, k: nat, d: real, u: real, p: real, q: real)
    requires (n as real + k as real) * u == (k as real) * d && p == 0.0 - u && q == d - u
    ensures Repeated(n, p) + Repeated(k, q) == 0.0
  {
    DistancesMeet(n as real, k as real, d, u);
    RepeatedPair(n, p, k, q, 0.0);
  }

  lemma SquaresCount(n: nat, k: nat, d: real, u: real, w: real, pp: real, qq: real)
    requires
      var a, b := n as real, k as real;
      a + b > 0.0 && (a + b) * u == b * d && w * (a + b) == d * d * a * b
    requires pp == u * u && qq == (d - u) * (d - u)
    ensures Repeated(n, pp) + Repeated(k, qq) == w
  {
    SquaresMeet(n as real, k as real, d, u, w);
    RepeatedPair(n, pp, k, qq, w);
  }

  /** What the formulas yield: a centre where the distances cancel, and the squared distances to it. */
  lemma FormulasCentre(n: nat, m: real, m2: real, k: nat, other: real, otherM2: real)
    returns (c: real, p: real, pp: real, q: real, qq: real, w: real)
    requires n + k > 0
    ensures MergedMean(REALS, n, m, k, other) == c && MergedM2(REALS, n, m, m2, k, other, otherM2) == m2 + (otherM2 + w)
    ensures p == m - c && pp == p * p && q == other - c && qq == q * q
    ensures Repeated(n, p) + Repeated(k, q) == 0.0 && Repeated(n, pp) + Repeated(k, qq) == w
  {
    var d, u := other - m, 0.0;
    u, w := FormulasOver(n, m, m2, k, other, otherM2, d);
    c, p, pp, q, qq := m + u, 0.0 - u, u * u, d - u, (d - u) * (d - u);
    DistancesCancel(n, k, d, u, p, q);
    SquaresCount(n, k, d, u, w, pp, qq);
  }

  /**
   If two partials describe two lists of numbers, merging them describes both lists together. This is what
   the formulas compute but for rounding.
   */
  lemma MergeDescribesBoth(n: nat, mean: real, m2: real, xs: seq<real>, k: nat, other: real, otherM2: real, ys: seq<real>)
    requires Describes(n, mean, m2, xs) && Describes(k, other, otherM2, ys) && n + k > 0
    ensures Describes(n + k, MergedMean(REALS, n, mean, k, other), MergedM2(REALS, n, mean, m2, k, other, otherM2), xs + ys)
  {
    var c, p, pp, q, qq, w := FormulasCentre(n, mean, m2, k, other, otherM2);
    BothAround(xs, mean, ys, other, c, p, pp, q, qq, w);
  }
}
