/** Doubles in the ECMAScript layout: the text denotes the same decimal as the digits, and reads back. */
module CanonicalNumbers {
  import opened Prelude
  import opened Decimal
  import opened JsonNumbers

  /** A finite double, written `0.digits * 10^point` with a sign; `digits` are the fewest that identify it. */
  datatype Double = Zero | Finite(negative: bool, digits: string, point: int)

  predicate IsDouble(d: Double) {
    d.Finite? ==> IsLimit(d.digits) && d.digits[|d.digits| - 1] != '0'
  }

  /**
   The magnitude of the double is above 2^53 - 1. Its shortest digits decide: they stand for a decimal that
   is nearer to it than to any other double, and 2^53 - 1 is itself a double.
   */
  predicate Large(d: Double) { d.Finite? && Above(Digits(d.digits), d.point - |d.digits|, SAFE_INTEGER) }

  function Digit(d: nat): char
    requires d < 10
  {
    ('0' as int + d) as char
  }

  function Itoa(n: nat): string { if n < 10 then [Digit(n)] else Itoa(n / 10) + [Digit(n % 10)] }

  function Abs(n: int): nat { if n < 0 then -n else n }

  // ----- The layout ----------------------------------------------------------------------------------

  /** The text that ECMAScript writes for the double. */
  function EcmaScriptNumber(d: Double): string
    requires IsDouble(d)
  {
    if d.Zero? then "0"
    else
      var sign, digits, count, point := if d.negative then "-" else "", d.digits, |d.digits|, d.point;
      if count <= point <= 21 then sign + digits + Zeros(point - count)
      else if 0 < point <= 21 then sign + digits[..point] + "." + digits[point..]
      else if -6 < point <= 0 then sign + "0." + Zeros(-point) + digits
      else
        sign + (digits[..1] + if count > 1 then "." + digits[1..] else "") + "e"
        + (if point - 1 < 0 then "-" else "+") + Itoa(Abs(point - 1))
  }

  function ExponentLayout(negative: bool, digits: string, exponent: int): Number
    requires |digits| > 0
  {
    Number(negative, digits[..1], if |digits| > 1 then Some(digits[1..]) else None,
           Some(Exponent('e', Some(if exponent < 0 then '-' else '+'), Itoa(Abs(exponent)))))
  }

  /** The number token that the layout spells. */
  function Layout(d: Double): Number
    requires IsDouble(d)
  {
    if d.Zero? then Number(false, "0", None, None)
    else
      var digits, count, point := d.digits, |d.digits|, d.point;
      if count <= point <= 21 then Number(d.negative, digits + Zeros(point - count), None, None)
      else if 0 < point <= 21 then Number(d.negative, digits[..point], Some(digits[point..]), None)
      else if -6 < point <= 0 then Number(d.negative, "0", Some(Zeros(-point) + digits), None)
      else ExponentLayout(d.negative, digits, point - 1)
  }

  lemma {:induction false} ItoaReads(n: nat)
    ensures |Itoa(n)| > 0 && IsDigits(Itoa(n)) && Digits(Itoa(n)) == n
  {
    if n < 10 {
      assert Itoa(n)[..0] == "";
    } else {
      ItoaReads(n / 10);
      assert Itoa(n)[..|Itoa(n)| - 1] == Itoa(n / 10);
    }
  }

  lemma {:induction false} LayoutIsNumber(d: Double)
    requires IsDouble(d)
    ensures IsNumber(Layout(d))
  {
    if d.Finite? {
      ItoaReads(Abs(d.point - 1));
    }
  }

  lemma {:induction false} ExponentSpells(sign: string, digits: string, exponent: int)
    requires |digits| > 0 && (sign == "" || sign == "-")
    ensures NumberText(ExponentLayout(sign == "-", digits, exponent))
         == sign + (digits[..1] + if |digits| > 1 then "." + digits[1..] else "") + "e"
            + (if exponent < 0 then "-" else "+") + Itoa(Abs(exponent))
  {
    var n := ExponentLayout(sign == "-", digits, exponent);
    var mark, power := if exponent < 0 then "-" else "+", Itoa(Abs(exponent));
    assert MantissaText(n) == digits[..1] + if |digits| > 1 then "." + digits[1..] else "";
    assert ExponentText(n) == mark + power;
    assert sign + (MantissaText(n) + (['e'] + (mark + power))) == sign + MantissaText(n) + "e" + mark + power;
  }

  lemma {:induction false} PlainSpells(sign: string, whole: string, fraction: Option<string>)
    requires sign == "" || sign == "-"
    ensures NumberText(Number(sign == "-", whole, fraction, None))
         == sign + whole + if fraction.Some? then "." + fraction.value else ""
  {
    var n := Number(sign == "-", whole, fraction, None);
    assert UnsignedText(n) == MantissaText(n);
    assert sign + (whole + if fraction.Some? then "." + fraction.value else "") == NumberText(n);
  }

  lemma {:induction false} PlainLayoutSpells(d: Double)
    requires IsDouble(d) && d.Finite? && 0 < d.point <= 21
    ensures EcmaScriptNumber(d) == NumberText(Layout(d))
  {
    var sign, digits, count, point := if d.negative then "-" else "", d.digits, |d.digits|, d.point;
    if count <= point {
      PlainSpells(sign, digits + Zeros(point - count), None);
      assert sign + (digits + Zeros(point - count)) + "" == sign + digits + Zeros(point - count);
    } else {
      PlainSpells(sign, digits[..point], Some(digits[point..]));
      assert sign + digits[..point] + ("." + digits[point..]) == sign + digits[..point] + "." + digits[point..];
    }
  }

  lemma {:induction false} FractionLayoutSpells(d: Double)
    requires IsDouble(d) && d.Finite? && -6 < d.point <= 0
    ensures EcmaScriptNumber(d) == NumberText(Layout(d))
  {
    var sign, zeros := if d.negative then "-" else "", Zeros(-d.point);
    PlainSpells(sign, "0", Some(zeros + d.digits));
    assert sign + "0" + ("." + (zeros + d.digits)) == sign + "0." + zeros + d.digits;
  }

  lemma {:induction false} ScientificLayoutSpells(d: Double)
    requires IsDouble(d) && d.Finite? && !(-6 < d.point <= 21)
    ensures EcmaScriptNumber(d) == NumberText(Layout(d))
  {
    ExponentSpells(if d.negative then "-" else "", d.digits, d.point - 1);
  }

  lemma {:induction false} ZeroLayoutSpells(d: Double)
    requires d.Zero?
    ensures EcmaScriptNumber(d) == NumberText(Layout(d))
  {
    PlainSpells("", "0", None);
  }

  /** The text is the text of a JSON number token. */
  lemma {:induction false} LayoutSpells(d: Double)
    requires IsDouble(d)
    ensures EcmaScriptNumber(d) == NumberText(Layout(d))
  {
    if d.Zero? {
      ZeroLayoutSpells(d);
    } else if 0 < d.point <= 21 {
      PlainLayoutSpells(d);
    } else if -6 < d.point <= 0 {
      FractionLayoutSpells(d);
    } else {
      ScientificLayoutSpells(d);
    }
  }

  // ----- Reading it back -------------------------------------------------------------------------------

  /** The double that a number token denotes, by its significant digits and its point. */
  function ReadDouble(n: Number): Double {
    var digits := TrimLeft(AllDigits(n));
    if digits == "" then Zero
    else Finite(n.negative, TrimRight(digits), |digits| - |FractionDigits(n)| + ExponentValue(n))
  }

  /** The zeros that the layout writes before and after the digits. */
  function ZerosBefore(d: Double): nat
    requires d.Finite?
  {
    if -6 < d.point <= 0 then 1 - d.point else 0
  }

  function ZerosAfter(d: Double): nat
    requires d.Finite?
  {
    if |d.digits| <= d.point <= 21 then d.point - |d.digits| else 0
  }

  lemma {:induction false} ExponentShape(negative: bool, digits: string, exponent: int)
    requires |digits| > 0
    ensures AllDigits(ExponentLayout(negative, digits, exponent)) == digits
    ensures Shift(ExponentLayout(negative, digits, exponent)) == exponent + 1 - |digits|
  {
    var n := ExponentLayout(negative, digits, exponent);
    ItoaReads(Abs(exponent));
    assert ExponentValue(n) == exponent;
    assert |digits| > 1 ==> digits[..1] + digits[1..] == digits;
    assert |digits| == 1 ==> digits[..1] + "" == digits;
  }

  lemma {:induction false} PlainShape(negative: bool, whole: string, fraction: Option<string>)
    ensures var n := Number(negative, whole, fraction, None);
            && AllDigits(n) == whole + (if fraction.Some? then fraction.value else "")
            && Shift(n) == -|FractionDigits(n)|
  {
  }

  /** The digits of the layout, with the zeros around them, and the power of ten that they stand for. */
  predicate HasShape(d: Double)
    requires IsDouble(d) && d.Finite?
  {
    && AllDigits(Layout(d)) == Zeros(ZerosBefore(d)) + (d.digits + Zeros(ZerosAfter(d)))
    && Shift(Layout(d)) == d.point - |d.digits| - ZerosAfter(d)
  }

  lemma {:induction false} PlainLayoutShape(d: Double)
    requires IsDouble(d) && d.Finite? && 0 < d.point <= 21
    ensures HasShape(d)
  {
    var digits, point := d.digits, d.point;
    var after := digits + Zeros(ZerosAfter(d));
    if |digits| <= point {
      PlainShape(d.negative, after, None);
      assert after + "" == after == Zeros(0) + after;
    } else {
      PlainShape(d.negative, digits[..point], Some(digits[point..]));
      assert digits[..point] + digits[point..] == digits == Zeros(0) + (digits + Zeros(0));
    }
  }

  lemma {:induction false} FractionLayoutShape(d: Double)
    requires IsDouble(d) && d.Finite? && -6 < d.point <= 0
    ensures HasShape(d)
  {
    PlainShape(d.negative, "0", Some(Zeros(-d.point) + d.digits));
    assert "0" + (Zeros(-d.point) + d.digits) == Zeros(1 - d.point) + (d.digits + Zeros(0));
  }

  lemma {:induction false} ScientificLayoutShape(d: Double)
    requires IsDouble(d) && d.Finite? && !(-6 < d.point <= 21)
    ensures HasShape(d)
  {
    ExponentShape(d.negative, d.digits, d.point - 1);
    assert d.digits == Zeros(0) + (d.digits + Zeros(0));
  }

  lemma {:induction false} LayoutShape(d: Double)
    requires IsDouble(d) && d.Finite?
    ensures HasShape(d)
  {
    if 0 < d.point <= 21 {
      PlainLayoutShape(d);
    } else if -6 < d.point <= 0 {
      FractionLayoutShape(d);
    } else {
      ScientificLayoutShape(d);
    }
  }

  lemma {:induction false} TrimLeftPadded(left: nat, digits: string)
    requires |digits| > 0 && digits[0] != '0'
    ensures TrimLeft(Zeros(left) + digits) == digits
  {
    if left > 0 {
      TrimLeftPadded(left - 1, digits);
      assert (Zeros(left) + digits)[1..] == Zeros(left - 1) + digits;
    } else {
      assert Zeros(0) + digits == digits;
    }
  }

  lemma {:induction false} TrimRightPadded(digits: string, right: nat)
    requires |digits| > 0 && digits[|digits| - 1] != '0'
    ensures TrimRight(digits + Zeros(right)) == digits
  {
    if right > 0 {
      TrimRightPadded(digits, right - 1);
      assert (digits + Zeros(right))[..|digits| + right - 1] == digits + Zeros(right - 1);
    } else {
      assert digits + Zeros(0) == digits;
    }
  }

  /** The layout loses nothing: the token reads back as the same sign, digits and point. */
  lemma {:induction false} LayoutReadsBack(d: Double)
    requires IsDouble(d)
    ensures ReadDouble(Layout(d)) == d
  {
    if d.Zero? {
      assert AllDigits(Layout(d)) == "0" && "0"[1..] == "";
    } else {
      LayoutShape(d);
      TrimLeftPadded(ZerosBefore(d), d.digits + Zeros(ZerosAfter(d)));
      TrimRightPadded(d.digits, ZerosAfter(d));
    }
  }

  /** `a * 10^s` and `b * 10^t` are the same number. */
  predicate Same(a: int, s: int, b: int, t: int) { Scale(a, Max(s - t, 0)) == Scale(b, Max(t - s, 0)) }

  /** The layout denotes the decimal that its digits and its point denote. */
  lemma {:induction false} LayoutKeepsValue(d: Double)
    requires IsDouble(d) && d.Finite?
    ensures Same(Digits(AllDigits(Layout(d))), Shift(Layout(d)), Digits(d.digits), d.point - |d.digits|)
  {
    LayoutShape(d);
    DigitsPad(d.digits, ZerosAfter(d));
    DigitsPad(d.digits + Zeros(ZerosAfter(d)), ZerosBefore(d));
  }
}
