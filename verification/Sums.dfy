/** Sums over a sequence, with one entry changed or added. */
module Sums {

  function Sum(xs: seq<int>): int
  {
    if xs == [] then 0 else xs[0] + Sum(xs[1..])
  }

  lemma {:induction false} SumAppend(xs: seq<int>, x: int)
    ensures Sum(xs + [x]) == Sum(xs) + x
  {
    if xs == [] {
      assert [x][1..] == [];
    } else {
      SumAppend(xs[1..], x);
      assert (xs + [x])[1..] == xs[1..] + [x];
    }
  }

  lemma {:induction false} SumUpdate(xs: seq<int>, i: nat, x: int)
    requires i < |xs|
    ensures Sum(xs[i := x]) == Sum(xs) - xs[i] + x
  {
    if i == 0 {
      assert xs[0 := x][1..] == xs[1..];
    } else {
      SumUpdate(xs[1..], i - 1, x);
      assert xs[i := x][1..] == xs[1..][i - 1 := x];
    }
  }

  lemma {:induction false} SumLinear(xs: seq<int>, ys: seq<int>, zs: seq<int>, a: int, b: int)
    requires |xs| == |ys| == |zs|
    requires forall i :: 0 <= i < |xs| ==> zs[i] == a * xs[i] + b * ys[i]
    ensures Sum(zs) == a * Sum(xs) + b * Sum(ys)
  {
    if xs != [] {
      SumLinear(xs[1..], ys[1..], zs[1..], a, b);
      assert a * (xs[0] + Sum(xs[1..])) == a * xs[0] + a * Sum(xs[1..]);
      assert b * (ys[0] + Sum(ys[1..])) == b * ys[0] + b * Sum(ys[1..]);
    }
  }

  lemma {:induction false} SumMonotone(xs: seq<int>, ys: seq<int>)
    requires |xs| == |ys| && forall i :: 0 <= i < |xs| ==> xs[i] <= ys[i]
    ensures Sum(xs) <= Sum(ys)
  {
    if xs != [] {
      SumMonotone(xs[1..], ys[1..]);
    }
  }
}
