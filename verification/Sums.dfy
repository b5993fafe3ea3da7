/** Totals over a sequence, and how they follow a change of one element. */
module Sums {

  function One(b: bool): nat {
    if b then 1 else 0
  }

  /** The sum of `of` over a sequence. */
  function Total<T>(xs: seq<T>, of: T -> nat): nat {
    if xs == [] then 0 else Total(xs[..|xs| - 1], of) + of(xs[|xs| - 1])
  }

  lemma {:induction false} TotalUpdate<T>(xs: seq<T>, i: nat, v: T, of: T -> nat)
    requires i < |xs|
    ensures Total(xs[i := v], of) == Total(xs, of) - of(xs[i]) + of(v) && of(xs[i]) <= Total(xs, of)
  {
    var last := |xs| - 1;
    if i < last {
      assert xs[i := v][..last] == xs[..last][i := v];
      TotalUpdate(xs[..last], i, v, of);
    } else {
      assert xs[i := v][..last] == xs[..last];
    }
  }

  /** Two sequences that differ in one place have totals that differ by that place. */
  lemma TotalFollows<T>(xs: seq<T>, ys: seq<T>, i: nat, of: T -> nat)
    requires i < |xs| == |ys| && forall j :: 0 <= j < |xs| && j != i ==> ys[j] == xs[j]
    ensures Total(ys, of) - Total(xs, of) == of(ys[i]) - of(xs[i])
  {
    assert ys == xs[i := ys[i]];
    TotalUpdate(xs, i, ys[i], of);
  }

  lemma {:induction false} TotalBounded<T>(xs: seq<T>, most: nat, of: T -> nat)
    requires forall i :: 0 <= i < |xs| ==> of(xs[i]) <= most
    ensures Total(xs, of) <= |xs| * most
  {
    if xs == [] {
    } else {
      TotalBounded(xs[..|xs| - 1], most, of);
      assert |xs| * most == (|xs| - 1) * most + most;
    }
  }
}
