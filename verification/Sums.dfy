/** Sums of integer sequences, and the total length of a family of bins. */
module Sums {
  function Sum(xs: seq<int>): int {
    if |xs| == 0 then 0 else Sum(xs[..|xs| - 1]) + xs[|xs| - 1]
  }

  lemma {:induction false} SumUpdate(xs: seq<int>, t: nat, x: int)
    requires t < |xs|
    ensures Sum(xs[t := x]) == Sum(xs) - xs[t] + x
  {
    var ys := xs[t := x];
    if t == |xs| - 1 {
      assert ys[..|xs| - 1] == xs[..|xs| - 1];
    } else {
      assert ys[..|xs| - 1] == xs[..|xs| - 1][t := x];
      SumUpdate(xs[..|xs| - 1], t, x);
    }
  }

  lemma {:induction false} SumNonNegative(xs: seq<int>)
    requires forall i :: 0 <= i < |xs| ==> xs[i] >= 0
    ensures Sum(xs) >= 0
  {
    if |xs| > 0 {
      SumNonNegative(xs[..|xs| - 1]);
    }
  }

  lemma SumAtLeast(xs: seq<int>, i: nat)
    requires i < |xs| && forall k :: 0 <= k < |xs| ==> xs[k] >= 0
    ensures Sum(xs) >= xs[i]
  {
    SumUpdate(xs, i, 0);
    SumNonNegative(xs[i := 0]);
  }

  lemma {:induction false} SumZero(xs: seq<int>)
    requires forall i :: 0 <= i < |xs| ==> xs[i] == 0
    ensures Sum(xs) == 0
  {
    if |xs| > 0 {
      SumZero(xs[..|xs| - 1]);
    }
  }

  function Lengths<T>(bins: seq<seq<T>>): seq<int> {
    seq(|bins|, i requires 0 <= i < |bins| => |bins[i]|)
  }

  /** The number of elements in all bins together. */
  function BinTotal<T>(bins: seq<seq<T>>): int {
    Sum(Lengths(bins))
  }

  lemma BinTotalUpdate<T>(bins: seq<seq<T>>, c: nat, bin: seq<T>)
    requires c < |bins|
    ensures BinTotal(bins[c := bin]) == BinTotal(bins) - |bins[c]| + |bin|
  {
    assert Lengths(bins[c := bin]) == Lengths(bins)[c := |bin|];
    SumUpdate(Lengths(bins), c, |bin|);
  }

  lemma BinTotalNonNegative<T>(bins: seq<seq<T>>)
    ensures BinTotal(bins) >= 0
  {
    SumNonNegative(Lengths(bins));
  }

  lemma BinTotalAtLeast<T>(bins: seq<seq<T>>, c: nat)
    requires c < |bins|
    ensures BinTotal(bins) >= |bins[c]|
  {
    SumAtLeast(Lengths(bins), c);
  }
}
