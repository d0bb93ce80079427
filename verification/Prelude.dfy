/** Small definitions every module uses: optional values and sums of integer sequences. */
module Prelude {

  datatype Option<+T> = None | Some(value: T)

  function Min(a: int, b: int): int { if a <= b then a else b }

  function Max(a: int, b: int): int { if a >= b then a else b }

  function Sum(xs: seq<int>): int {
    if |xs| == 0 then 0 else Sum(xs[..|xs| - 1]) + xs[|xs| - 1]
  }

  lemma {:induction false} SumUpdate(xs: seq<int>, i: nat, x: int)
    requires i < |xs|
    ensures Sum(xs[i := x]) == Sum(xs) - xs[i] + x
  {
    var n := |xs| - 1;
    if i == n {
      assert xs[i := x][..n] == xs[..n];
    } else {
      SumUpdate(xs[..n], i, x);
      assert xs[i := x][..n] == xs[..n][i := x];
    }
  }

  lemma {:induction false} SumPositive(xs: seq<int>)
    requires Sum(xs) > 0
    ensures exists i :: 0 <= i < |xs| && xs[i] > 0
  {
    var n := |xs| - 1;
    if xs[n] <= 0 {
      SumPositive(xs[..n]);
      var i :| 0 <= i < n && xs[..n][i] > 0;
      assert xs[i] > 0;
    }
  }

  lemma {:induction false} SumZero(xs: seq<int>)
    requires forall i :: 0 <= i < |xs| ==> xs[i] == 0
    ensures Sum(xs) == 0
  {
    if |xs| > 0 {
      SumZero(xs[..|xs| - 1]);
    }
  }
}
