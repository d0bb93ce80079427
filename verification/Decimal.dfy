/** Decimal digit strings, the numbers they denote, and the few string operations the source uses on them. */
module Decimal {
  import opened Ordering
  import opened Sequences

  // ----- Powers of ten -----------------------------------------------------------------------------

  /** `v` times ten to the power `k`. */
  function Scale(v: int, k: nat): int { if k == 0 then v else 10 * Scale(v, k - 1) }

  lemma {:induction false} ScaleAdd(v: int, a: nat, b: nat)
    ensures Scale(Scale(v, a), b) == Scale(v, a + b)
  {
    if b > 0 {
      ScaleAdd(v, a, b - 1);
    }
  }

  lemma {:induction false} ScaleGap(x: int, y: int, k: nat)
    requires x < y
    ensures Scale(x, k) + Scale(1, k) <= Scale(y, k)
  {
    if k > 0 {
      ScaleGap(x, y, k - 1);
    }
  }

  lemma {:induction false} ScaleOne(k: nat, m: nat)
    requires k <= m
    ensures 0 < Scale(1, k) <= Scale(1, m) && Scale(0, k) == 0
    decreases m
  {
    if k < m {
      ScaleOne(k, m - 1);
    } else if k > 0 {
      ScaleOne(k - 1, m - 1);
    }
  }

  /** Scaling keeps the order of two numbers. */
  lemma {:induction false} ScaleOrder(x: int, y: int, k: nat)
    ensures Scale(x, k) < Scale(y, k) <==> x < y
  {
    ScaleOne(k, k);
    if x < y {
      ScaleGap(x, y, k);
    } else if y < x {
      ScaleGap(y, x, k);
    }
  }

  lemma {:induction false} LeadingDigit(x: int, y: int, r: int, s: int, k: nat)
    requires 0 <= r < Scale(1, k) && 0 <= s < Scale(1, k)
    ensures Scale(x, k) + r < Scale(y, k) + s <==> x < y || (x == y && r < s)
    ensures Scale(x, k) + r == Scale(y, k) + s <==> x == y && r == s
  {
    if x < y {
      ScaleGap(x, y, k);
    } else if y < x {
      ScaleGap(y, x, k);
    }
  }

  // ----- Digit strings -------------------------------------------------------------------------------

  predicate IsDigit(c: char) { '0' <= c <= '9' }

  predicate IsDigits(s: string) { forall i :: 0 <= i < |s| ==> IsDigit(s[i]) }

  function DigitValue(c: char): (d: nat)
    ensures d < 10
  {
    if IsDigit(c) then c as int - '0' as int else 0
  }

  /** The number that the digits of `s` denote. */
  function Digits(s: string): nat {
    if |s| == 0 then 0 else Digits(s[..|s| - 1]) * 10 + DigitValue(s[|s| - 1])
  }

  function Zeros(n: nat): string { seq(n, _ => '0') }

  lemma {:induction false} DigitsConcat(a: string, b: string)
    ensures Digits(a + b) == Scale(Digits(a), |b|) + Digits(b)
  {
    if |b| == 0 {
      assert a + b == a;
    } else {
      DigitsConcat(a, b[..|b| - 1]);
      assert (a + b)[..|a + b| - 1] == a + b[..|b| - 1];
    }
  }

  lemma {:induction false} DigitsBound(s: string)
    ensures Digits(s) < Scale(1, |s|)
  {
    if |s| > 0 {
      DigitsBound(s[..|s| - 1]);
    }
  }

  /** Without a leading zero, the digits denote at least the power of ten of their count. */
  lemma {:induction false} DigitsLower(s: string)
    requires |s| > 0 && IsDigits(s) && s[0] != '0'
    ensures Scale(1, |s| - 1) <= Digits(s)
  {
    if |s| > 1 {
      DigitsLower(s[..|s| - 1]);
    }
  }

  lemma {:induction false} DigitsZeros(n: nat)
    ensures Digits(Zeros(n)) == 0
  {
    if n > 0 {
      DigitsZeros(n - 1);
      assert Zeros(n)[..n - 1] == Zeros(n - 1);
    }
  }

  lemma {:induction false} DigitsPad(s: string, n: nat)
    ensures Digits(s + Zeros(n)) == Scale(Digits(s), n)
    ensures Digits(Zeros(n) + s) == Digits(s)
  {
    DigitsZeros(n);
    DigitsConcat(s, Zeros(n));
    DigitsConcat(Zeros(n), s);
    ScaleOne(|s|, |s|);
  }

  lemma {:induction false} DigitsHead(s: string)
    requires |s| > 0
    ensures Digits(s) == Scale(DigitValue(s[0]), |s| - 1) + Digits(s[1..])
  {
    assert s == s[..1] + s[1..];
    DigitsConcat(s[..1], s[1..]);
  }

  /** Digit strings of one length compare as text exactly as they compare as numbers. */
  lemma {:induction false} TextOrderIsNumeric(a: string, b: string)
    requires |a| == |b| && IsDigits(a) && IsDigits(b)
    ensures LexLess(Codes(a), Codes(b)) <==> Digits(a) < Digits(b)
    ensures a == b <==> Digits(a) == Digits(b)
  {
    if |a| == 0 {
      return;
    }
    TextOrderIsNumeric(a[1..], b[1..]);
    assert Codes(a)[1..] == Codes(a[1..]) && Codes(b)[1..] == Codes(b[1..]);
    assert a == [a[0]] + a[1..] && b == [b[0]] + b[1..];
    DigitsHead(a);
    DigitsHead(b);
    DigitsBound(a[1..]);
    DigitsBound(b[1..]);
    LeadingDigit(DigitValue(a[0]), DigitValue(b[0]), Digits(a[1..]), Digits(b[1..]), |a| - 1);
  }

  // ----- Trimming and cutting ------------------------------------------------------------------------

  /** `s` without its leading zeros. */
  function TrimLeft(s: string): string { if |s| > 0 && s[0] == '0' then TrimLeft(s[1..]) else s }

  lemma {:induction false} TrimLeftDrops(s: string)
    ensures |TrimLeft(s)| <= |s| && s == Zeros(|s| - |TrimLeft(s)|) + TrimLeft(s)
    ensures |TrimLeft(s)| > 0 ==> TrimLeft(s)[0] != '0'
  {
    if |s| > 0 && s[0] == '0' {
      TrimLeftDrops(s[1..]);
      assert s == ['0'] + s[1..];
      assert ['0'] + Zeros(|s| - 1 - |TrimLeft(s)|) == Zeros(|s| - |TrimLeft(s)|);
    } else {
      assert Zeros(0) + s == s;
    }
  }

  lemma {:induction false} TrimLeftDigits(s: string)
    requires IsDigits(s)
    ensures IsDigits(TrimLeft(s)) && Digits(TrimLeft(s)) == Digits(s)
    ensures |TrimLeft(s)| <= |s| && (|TrimLeft(s)| > 0 ==> TrimLeft(s)[0] != '0')
  {
    var t := TrimLeft(s);
    TrimLeftDrops(s);
    DigitsPad(t, |s| - |t|);
    assert forall i :: 0 <= i < |t| ==> t[i] == s[|s| - |t| + i];
  }

  /** `s` without its trailing zeros. */
  function TrimRight(s: string): string { if |s| > 0 && s[|s| - 1] == '0' then TrimRight(s[..|s| - 1]) else s }

  lemma {:induction false} TrimRightDrops(s: string)
    ensures |TrimRight(s)| <= |s| && s == TrimRight(s) + Zeros(|s| - |TrimRight(s)|)
    ensures |TrimRight(s)| > 0 ==> TrimRight(s)[|TrimRight(s)| - 1] != '0'
  {
    if |s| > 0 && s[|s| - 1] == '0' {
      TrimRightDrops(s[..|s| - 1]);
      assert s == s[..|s| - 1] + ['0'];
      assert Zeros(|s| - 1 - |TrimRight(s)|) + ['0'] == Zeros(|s| - |TrimRight(s)|);
    } else {
      assert s + Zeros(0) == s;
    }
  }

  lemma {:induction false} TrimRightDigits(s: string)
    requires IsDigits(s)
    ensures |TrimRight(s)| <= |s| && IsDigits(TrimRight(s)) && Scale(Digits(TrimRight(s)), |s| - |TrimRight(s)|) == Digits(s)
    ensures |TrimRight(s)| > 0 ==> TrimRight(s)[|TrimRight(s)| - 1] != '0'
  {
    var t := TrimRight(s);
    TrimRightDrops(s);
    DigitsPad(t, |s| - |t|);
    assert forall i :: 0 <= i < |t| ==> t[i] == s[i];
  }

  datatype Halves = Halves(before: string, after: string, found: bool)

  /** The text before and after the first `c`. */
  function Cut(s: string, c: char): Halves {
    var i := IndexOf(s, c);
    if i < |s| then Halves(s[..i], s[i + 1..], true) else Halves(s, "", false)
  }

  lemma {:induction false} CutAt(before: string, c: char, after: string)
    requires c !in before
    ensures Cut(before + [c] + after, c) == Halves(before, after, true)
    ensures Cut(before, c) == Halves(before, "", false)
  {
    var s := before + [c] + after;
    var i := IndexOf(s, c);
    assert s[|before|] == c;
    assert forall k :: 0 <= k < |before| ==> s[k] == before[k];
    assert i == |before|;
    assert IndexOf(before, c) == |before|;
  }

  function TrimPrefix(s: string, c: char): string { if |s| > 0 && s[0] == c then s[1..] else s }

  function Lower(c: char): char { if 'A' <= c <= 'Z' then (c as int + 32) as char else c }

  function ToLower(s: string): (t: string)
    ensures |t| == |s|
  {
    seq(|s|, i requires 0 <= i < |s| => Lower(s[i]))
  }
}
