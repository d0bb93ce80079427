/** Repeats and positions in a sequence. */
module Sequences {

  predicate Distinct<T(==)>(xs: seq<T>) { forall i, j :: 0 <= i < j < |xs| ==> xs[i] != xs[j] }

  lemma {:induction false} DistinctMultiset<T>(xs: seq<T>)
    ensures Distinct(xs) <==> forall x :: x in xs ==> multiset(xs)[x] == 1
  {
    if |xs| > 0 {
      var n := |xs| - 1;
      DistinctMultiset(xs[..n]);
      assert xs == xs[..n] + [xs[n]];
      if Distinct(xs) {
        forall x | x in xs ensures multiset(xs)[x] == 1 {
          assert xs[n] !in xs[..n];
        }
      } else if forall x :: x in xs ==> multiset(xs)[x] == 1 {
        assert xs[n] in xs && multiset(xs)[xs[n]] == multiset(xs[..n])[xs[n]] + 1;
        assert xs[n] !in xs[..n];
        forall x | x in xs[..n] ensures multiset(xs[..n])[x] == 1 {
          assert x in xs;
        }
        assert false;
      }
    }
  }

  lemma DistinctConcat<T>(xs: seq<T>, ys: seq<T>)
    requires Distinct(xs) && Distinct(ys) && forall x :: x in xs ==> x !in ys
    ensures Distinct(xs + ys)
  {
    forall i, j | 0 <= i < j < |xs + ys| ensures (xs + ys)[i] != (xs + ys)[j] {
      assert i < |xs| ==> (xs + ys)[i] in xs;
      assert j >= |xs| ==> (xs + ys)[j] in ys;
    }
  }

  /** The position of the first `x`, or the length of `xs` without one. */
  function IndexOf<T(==)>(xs: seq<T>, x: T): (i: nat)
    ensures i <= |xs|
    ensures i < |xs| ==> xs[i] == x
    ensures forall k :: 0 <= k < i ==> xs[k] != x
  {
    if |xs| == 0 || xs[0] == x then 0 else 1 + IndexOf(xs[1..], x)
  }

  function Without<T>(xs: seq<T>, i: nat): seq<T>
    requires i < |xs|
  {
    xs[..i] + xs[i + 1..]
  }

  lemma WithoutOne<T>(xs: seq<T>, i: nat)
    requires i < |xs| && Distinct(xs)
    ensures |Without(xs, i)| == |xs| - 1 && Distinct(Without(xs, i))
    ensures forall x :: x in Without(xs, i) <==> x in xs && x != xs[i]
  {
    var rest := Without(xs, i);
    assert forall k :: 0 <= k < |rest| ==> rest[k] == xs[if k < i then k else k + 1];
    forall x | x in xs && x != xs[i] ensures x in rest {
      var k :| 0 <= k < |xs| && xs[k] == x;
      assert rest[if k < i then k else k - 1] == x;
    }
  }

  /** The elements of a set, each once, in any order. */
  ghost predicate Lists<T(!new)>(list: seq<T>, all: set<T>) { Distinct(list) && forall x :: x in list <==> x in all }

  ghost function SomeList<T(!new)>(all: set<T>): (list: seq<T>)
    ensures Lists(list, all)
    decreases |all|
  {
    if all == {} then []
    else
      var x :| x in all;
      var rest := SomeList(all - {x});
      assert x !in rest;
      rest + [x]
  }
}
