/** Lexicographic order on code sequences, and insertion sort by any strict weak order. */
module Ordering {
  import opened Sequences

  /** The code points of a text. Their order is also the order of the UTF-8 bytes. */
  function Codes(text: string): seq<nat> { seq(|text|, i requires 0 <= i < |text| => text[i] as int) }

  /** Compares code by code; a proper prefix comes first. */
  predicate LexLess(a: seq<nat>, b: seq<nat>) {
    |b| > 0 && (|a| == 0 || a[0] < b[0] || (a[0] == b[0] && LexLess(a[1..], b[1..])))
  }

  /** The sequences agree before `n`; there `a` ends, or has the smaller code. */
  predicate DiffersAt(a: seq<nat>, b: seq<nat>, n: nat) {
    n <= |a| && n < |b| && a[..n] == b[..n] && (n == |a| || a[n] < b[n])
  }

  lemma {:induction false} SameHead(a: seq<nat>, b: seq<nat>, n: nat)
    requires 0 < n <= |a| && n <= |b| && a[..n] == b[..n]
    ensures a[0] == b[0]
  {
    assert a[..n][0] == b[..n][0];
  }

  /** The first difference decides. */
  lemma {:induction false} LexLessExactly(a: seq<nat>, b: seq<nat>)
    ensures LexLess(a, b) <==> exists n: nat :: DiffersAt(a, b, n)
  {
    if |b| > 0 && (|a| == 0 || a[0] < b[0]) {
      assert DiffersAt(a, b, 0);
    } else if |b| > 0 && a[0] == b[0] {
      LexLessExactly(a[1..], b[1..]);
      if n: nat :| DiffersAt(a[1..], b[1..], n) {
        assert a[..n + 1] == [a[0]] + a[1..][..n] && b[..n + 1] == [b[0]] + b[1..][..n];
        assert DiffersAt(a, b, n + 1);
      }
      if n: nat :| DiffersAt(a, b, n) {
        assert n > 0 && a[1..][..n - 1] == a[..n][1..] && b[1..][..n - 1] == b[..n][1..];
        assert DiffersAt(a[1..], b[1..], n - 1);
      }
    } else {
      forall n: nat | 0 < n <= |a| && n <= |b| && a[..n] == b[..n] ensures a[0] == b[0] {
        SameHead(a, b, n);
      }
    }
  }

  lemma {:induction false} LexAsymmetric(a: seq<nat>, b: seq<nat>)
    ensures LexLess(a, b) ==> !LexLess(b, a)
  {
    if |a| > 0 && |b| > 0 {
      LexAsymmetric(a[1..], b[1..]);
    }
  }

  lemma {:induction false} LexTransitive(a: seq<nat>, b: seq<nat>, c: seq<nat>)
    ensures LexLess(a, b) && LexLess(b, c) ==> LexLess(a, c)
  {
    if |a| > 0 && |b| > 0 && |c| > 0 {
      LexTransitive(a[1..], b[1..], c[1..]);
    }
  }

  /** Two different sequences are ordered one way or the other. */
  lemma {:induction false} LexTotal(a: seq<nat>, b: seq<nat>)
    ensures a == b || LexLess(a, b) || LexLess(b, a)
  {
    if |a| > 0 && |b| > 0 {
      LexTotal(a[1..], b[1..]);
      assert a == [a[0]] + a[1..] && b == [b[0]] + b[1..];
    }
  }

  lemma LexNegativelyTransitive(a: seq<nat>, b: seq<nat>, c: seq<nat>)
    ensures !LexLess(a, b) && !LexLess(b, c) ==> !LexLess(a, c)
  {
    LexTotal(a, b);
    LexTotal(b, c);
    LexTransitive(c, b, a);
    LexAsymmetric(a, c);
  }

  // ----- Insertion sort --------------------------------------------------------------------------

  ghost predicate StrictWeak<T(!new)>(less: (T, T) -> bool) {
    && (forall a, b :: less(a, b) ==> !less(b, a))
    && (forall a, b, c :: !less(a, b) && !less(b, c) ==> !less(a, c))
  }

  predicate Sorted<T>(xs: seq<T>, less: (T, T) -> bool) {
    forall i, j :: 0 <= i < j < |xs| ==> !less(xs[j], xs[i])
  }

  /** Puts `x` behind every element that is not greater, so equal elements keep their order. */
  function Insert<T>(xs: seq<T>, x: T, less: (T, T) -> bool): seq<T> {
    var n := |xs| - 1;
    if |xs| == 0 || !less(x, xs[n]) then xs + [x] else Insert(xs[..n], x, less) + [xs[n]]
  }

  function Sort<T>(xs: seq<T>, less: (T, T) -> bool): seq<T> {
    if |xs| == 0 then [] else Insert(Sort(xs[..|xs| - 1], less), xs[|xs| - 1], less)
  }

  lemma {:induction false} InsertMultiset<T>(xs: seq<T>, x: T, less: (T, T) -> bool)
    ensures multiset(Insert(xs, x, less)) == multiset(xs) + multiset{x}
  {
    var n := |xs| - 1;
    if |xs| > 0 {
      InsertMultiset(xs[..n], x, less);
      assert xs == xs[..n] + [xs[n]];
    }
  }

  lemma {:induction false} SortMultiset<T>(xs: seq<T>, less: (T, T) -> bool)
    ensures multiset(Sort(xs, less)) == multiset(xs)
  {
    if |xs| > 0 {
      var n := |xs| - 1;
      SortMultiset(xs[..n], less);
      InsertMultiset(Sort(xs[..n], less), xs[n], less);
      assert xs == xs[..n] + [xs[n]];
    }
  }

  lemma {:induction false} InsertSorted<T(!new)>(xs: seq<T>, x: T, less: (T, T) -> bool)
    requires StrictWeak(less) && Sorted(xs, less)
    ensures Sorted(Insert(xs, x, less), less)
  {
    var n := |xs| - 1;
    if |xs| > 0 && less(x, xs[n]) {
      InsertSorted(xs[..n], x, less);
      InsertMultiset(xs[..n], x, less);
      var ys := Insert(xs[..n], x, less);
      forall i | 0 <= i < |ys| ensures !less(xs[n], ys[i]) {
        assert ys[i] in multiset(ys);
        assert ys[i] == x || ys[i] in xs[..n];
      }
    } else if |xs| > 0 {
      forall i | 0 <= i < |xs| ensures !less(x, xs[i]) {
        assert i == n || !less(xs[n], xs[i]);
      }
    }
  }

  lemma {:induction false} SortSorted<T(!new)>(xs: seq<T>, less: (T, T) -> bool)
    requires StrictWeak(less)
    ensures Sorted(Sort(xs, less), less)
  {
    if |xs| > 0 {
      SortSorted(xs[..|xs| - 1], less);
      InsertSorted(Sort(xs[..|xs| - 1], less), xs[|xs| - 1], less);
    }
  }

  /** Sorting a sequence without repeats keeps it so. */
  lemma SortPermutes<T>(xs: seq<T>, less: (T, T) -> bool)
    ensures |Sort(xs, less)| == |xs|
    ensures forall x :: x in Sort(xs, less) <==> x in xs
  {
    SortMultiset(xs, less);
    var ys := Sort(xs, less);
    assert |multiset(ys)| == |ys| && |multiset(xs)| == |xs|;
    forall x ensures x in ys <==> x in xs {
      assert x in ys <==> x in multiset(ys);
      assert x in xs <==> x in multiset(xs);
    }
  }

  lemma SortDistinct<T>(xs: seq<T>, less: (T, T) -> bool)
    requires Distinct(xs)
    ensures Distinct(Sort(xs, less))
  {
    SortMultiset(xs, less);
    SortPermutes(xs, less);
    DistinctMultiset(xs);
    DistinctMultiset(Sort(xs, less));
  }
}
