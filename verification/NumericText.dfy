/** The length of the plain decimal text that PostgreSQL writes for a JSON number token. */
module NumericText {
  import opened Prelude
  import opened Decimal
  import opened JsonNumbers

  /** The length of the integer part of `0.digits * 10^point`. */
  function IntegerLength(digits: string, point: int): nat {
    if point <= 0 then 1
    else
      var available := Min(point, |digits|);
      var leadingZeros := available - |TrimLeft(digits[..available])|;
      if leadingZeros < available then point - leadingZeros else 1
  }

  /** A token cut into its parts. */
  datatype Parts = Parts(negative: bool, whole: string, fraction: string, exponent: int)

  /** The parts of a token, unless its exponent does not fit an integer. */
  function TokenParts(token: string): Option<Parts> {
    var halves := Cut(ToLower(token), 'e');
    var exponent := if halves.found then Atoi(TrimPrefix(halves.after, '+')) else Some(0);
    if exponent.None? then None
    else
      var mantissa := Cut(TrimPrefix(halves.before, '-'), '.');
      Some(Parts(|halves.before| > 0 && halves.before[0] == '-', mantissa.before, mantissa.after, exponent.value))
  }

  predicate AllZero(p: Parts) { TrimLeft(p.whole + p.fraction) == "" }

  /** The length from the integer digits and the fraction digits that the point and the scale give. */
  function Length(p: Parts, point: int, scale: int): nat {
    IntegerLength(p.whole + p.fraction, point)
    + (if scale > 0 then 1 + scale else 0)
    + (if p.negative && !AllZero(p) then 1 else 0)
  }

  /** The measure in machine integers. */
  function PartsBytes(p: Parts): int {
    Wrap(Length(p, Wrap(|p.whole| + p.exponent), Wrap(|p.fraction| - p.exponent)))
  }

  /** The measure without a limit on integers. */
  function PlainLength(p: Parts): nat { Length(p, |p.whole| + p.exponent, |p.fraction| - p.exponent) }

  /** A token whose exponent does not fit an integer keeps its own length, since PostgreSQL refuses it. */
  function NumericTextBytes(token: string): int {
    match TokenParts(token)
    case None => Wrap(|token|)
    case Some(p) => PartsBytes(p)
  }

  /** The measure of a token as a natural number, for sums that wrap only once they are complete. */
  function NumberSize(token: string): nat { Residue(NumericTextBytes(token)) }

  // ----- What PostgreSQL writes --------------------------------------------------------------------

  datatype Plain = Plain(negative: bool, whole: string, fraction: string)

  function PlainText(p: Plain): string {
    (if p.negative then "-" else "") + p.whole + (if |p.fraction| > 0 then "." + p.fraction else "")
  }

  /**
   `p` is the plain notation of `n`: no leading zeros, as many fraction digits as `n` has less its
   exponent, the same value, and a sign only for a value below zero.
   */
  predicate Renders(p: Plain, n: Number) {
    && IsDigits(p.whole) && |p.whole| > 0 && (|p.whole| > 1 ==> p.whole[0] != '0')
    && IsDigits(p.fraction) && |p.fraction| == Max(0, -Shift(n))
    && Digits(p.whole + p.fraction) == Scale(Digits(AllDigits(n)), Max(0, Shift(n)))
    && (p.negative <==> n.negative && Digits(AllDigits(n)) > 0)
  }

  /** The integer part of `digits`, with its point before the last `scale` of them. */
  function IntegerPart(digits: string, scale: nat): string
    requires scale <= |digits|
  {
    var whole := TrimLeft(digits[..|digits| - scale]);
    if whole == "" then "0" else whole
  }

  function Pad(digits: string, left: nat, right: nat): string { Zeros(left) + digits + Zeros(right) }

  function Padded(n: Number): string { Pad(AllDigits(n), Max(0, -Shift(n)) + 1, Max(0, Shift(n))) }

  /** The plain notation of `n` from digits that reach past its point. */
  function Split(n: Number, digits: string): Plain
    requires |digits| >= Max(0, -Shift(n))
  {
    var scale := Max(0, -Shift(n));
    Plain(n.negative && Digits(AllDigits(n)) > 0, IntegerPart(digits, scale), digits[|digits| - scale..])
  }

  function Rendered(n: Number): Plain { Split(n, Padded(n)) }

  lemma {:induction false} SplitKeepsValue(digits: string, scale: nat)
    requires IsDigits(digits) && scale < |digits|
    ensures var whole, fraction := IntegerPart(digits, scale), digits[|digits| - scale..];
            && IsDigits(whole) && |whole| > 0 && (|whole| > 1 ==> whole[0] != '0')
            && IsDigits(fraction) && Digits(whole + fraction) == Digits(digits)
  {
    var front, fraction := digits[..|digits| - scale], digits[|digits| - scale..];
    TrimLeftDigits(front);
    assert Digits("0") == 0;
    assert digits == front + fraction;
    DigitsConcat(front, fraction);
    DigitsConcat(IntegerPart(digits, scale), fraction);
  }

  lemma {:induction false} PadValue(digits: string, left: nat, right: nat)
    requires IsDigits(digits)
    ensures IsDigits(Pad(digits, left, right)) && |Pad(digits, left, right)| == left + |digits| + right
    ensures Digits(Pad(digits, left, right)) == Scale(Digits(digits), right)
  {
    var front := Zeros(left) + digits;
    assert Digits(front) == Digits(digits) by {
      DigitsPad(digits, left);
    }
    DigitsPad(front, right);
  }

  lemma {:induction false} SplitRenders(n: Number, digits: string)
    requires IsDigits(digits) && |digits| > Max(0, -Shift(n))
    requires Digits(digits) == Scale(Digits(AllDigits(n)), Max(0, Shift(n)))
    ensures Renders(Split(n, digits), n)
  {
    SplitKeepsValue(digits, Max(0, -Shift(n)));
  }

  /** Every token has a plain notation. */
  lemma {:induction false} RenderedRenders(n: Number)
    requires IsNumber(n)
    ensures Renders(Rendered(n), n)
  {
    PadValue(AllDigits(n), Max(0, -Shift(n)) + 1, Max(0, Shift(n)));
    SplitRenders(n, Padded(n));
  }

  // ----- The measure is the length of the plain notation -------------------------------------------

  /** Digits without leading zeros have a length that their value decides. */
  lemma {:induction false} ValueDecidesLength(x: string, y: string, k: nat)
    requires IsLimit(x) && IsLimit(y) && Digits(x) == Scale(Digits(y), k)
    ensures |x| == |y| + k
  {
    DigitsLower(x);
    DigitsBound(x);
    DigitsLower(y);
    DigitsBound(y);
    ScaleAdd(1, |y| - 1, k);
    ScaleAdd(1, |y|, k);
    ScaleOrder(Digits(y), Scale(1, |y| - 1), k);
    ScaleOrder(Digits(y), Scale(1, |y|), k);
    if |x| < |y| + k {
      ScaleOne(|x|, |y| - 1 + k);
    } else if |x| > |y| + k {
      ScaleOne(|y| + k, |x| - 1);
    }
  }

  lemma {:induction false} ZeroHasOneDigit(x: string)
    requires IsDigits(x) && |x| > 0 && (|x| > 1 ==> x[0] != '0') && Digits(x) == 0
    ensures |x| == 1
  {
    if |x| > 1 {
      DigitsLower(x);
      ScaleOne(|x| - 1, |x| - 1);
    }
  }

  /** The length of an integer part whose value is that of `digits`, scaled by `k`. */
  lemma {:induction false} IntegerPartLength(whole: string, digits: string, k: nat)
    requires IsDigits(whole) && |whole| > 0 && (|whole| > 1 ==> whole[0] != '0')
    requires IsDigits(digits) && Digits(whole) == Scale(Digits(digits), k)
    ensures |whole| == if TrimLeft(digits) == "" then 1 else |TrimLeft(digits)| + k
  {
    var trimmed := TrimLeft(digits);
    TrimLeftDigits(digits);
    if trimmed == "" {
      ScaleOne(k, k);
      ZeroHasOneDigit(whole);
    } else {
      DigitsLower(trimmed);
      ScaleOne(|trimmed| - 1, |trimmed| - 1);
      ScaleOne(k, k);
      ScaleOrder(0, Digits(trimmed), k);
      assert whole[0] == '0' ==> Digits(whole) == 0;
      ValueDecidesLength(whole, trimmed, k);
    }
  }

  /** The integer part of a plain notation has the length that the digits and the point give. */
  lemma {:induction false} WholeLength(p: Plain, all: string, shift: int)
    requires IsDigits(all)
    requires IsDigits(p.whole) && |p.whole| > 0 && (|p.whole| > 1 ==> p.whole[0] != '0')
    requires |p.fraction| == Max(0, -shift) && Digits(p.whole + p.fraction) == Scale(Digits(all), Max(0, shift))
    ensures |p.whole| == IntegerLength(all, |all| + shift)
  {
    var point, s := |all| + shift, |p.fraction|;
    DigitsConcat(p.whole, p.fraction);
    DigitsBound(p.fraction);
    if shift >= 0 {
      assert p.fraction == "" && all[..|all|] == all;
      IntegerPartLength(p.whole, all, shift);
      TrimLeftDigits(all);
    } else if point <= 0 {
      DigitsBound(all);
      ScaleOne(|all|, s);
      ScaleOne(s, s);
      LeadingDigit(Digits(p.whole), 0, Digits(p.fraction), Digits(all), s);
      ZeroHasOneDigit(p.whole);
    } else {
      var front, back := all[..point], all[point..];
      assert all == front + back;
      DigitsConcat(front, back);
      DigitsBound(back);
      LeadingDigit(Digits(p.whole), Digits(front), Digits(p.fraction), Digits(back), s);
      IntegerPartLength(p.whole, front, 0);
      TrimLeftDigits(front);
    }
  }

  lemma {:induction false} NonzeroIsNotTrimmed(digits: string)
    requires IsDigits(digits)
    ensures TrimLeft(digits) != "" <==> Digits(digits) > 0
  {
    var t := TrimLeft(digits);
    TrimLeftDigits(digits);
    if t != "" {
      DigitsLower(t);
      ScaleOne(|t| - 1, |t| - 1);
    }
  }

  lemma {:induction false} TokenIsRead(n: Number)
    requires IsNumber(n) && FitsInt(ExponentValue(n))
    ensures TokenParts(NumberText(n)) == Some(Parts(n.negative, n.whole, FractionDigits(n), ExponentValue(n)))
  {
    MarkerCut(n, SignText(n));
    SignTrimmed(n);
    PointCut(n);
    assert !n.negative ==> (SignText(n) + MantissaText(n))[0] == n.whole[0];
    if n.exponent.Some? {
      ExponentIsRead(n);
    }
  }

  lemma {:induction false} PlainLengthIsLength(n: Number, p: Plain)
    requires IsNumber(n) && Renders(p, n)
    ensures PlainLength(Parts(n.negative, n.whole, FractionDigits(n), ExponentValue(n))) == |PlainText(p)|
  {
    WholeLength(p, AllDigits(n), Shift(n));
    NonzeroIsNotTrimmed(AllDigits(n));
  }

  // ----- Machine integers --------------------------------------------------------------------------

  /** The place of the point fits an integer, or there is no digit before it to count. */
  predicate PointFits(p: Parts) { |p.whole| + p.exponent <= INT_MAX || AllZero(p) }

  lemma {:induction false} IntegerLengthBounds(digits: string, point: int)
    ensures 1 <= IntegerLength(digits, point) <= Max(1, point)
    ensures TrimLeft(digits) == "" && point >= |digits| ==> IntegerLength(digits, point) == 1
    ensures TrimLeft(digits) != "" && point > |digits| ==> IntegerLength(digits, point) > point - |digits|
  {
    if point >= |digits| {
      assert digits[..|digits|] == digits;
    }
    if point > 0 {
      TrimLeftDrops(digits[..Min(point, |digits|)]);
    }
  }

  /** A point past the integers wraps to a place before all digits, and the integer part counts as one digit. */
  lemma {:induction false} PointWraps(p: Parts)
    requires |p.whole| + |p.fraction| <= INT_MAX && FitsInt(p.exponent) && |p.whole| + p.exponent > INT_MAX
    ensures PartsBytes(p) == 1 + if p.negative && !AllZero(p) then 1 else 0
    ensures AllZero(p) ==> PlainLength(p) == PartsBytes(p)
    ensures !AllZero(p) ==> PlainLength(p) > PartsBytes(p)
  {
    IntegerLengthBounds(p.whole + p.fraction, |p.whole| + p.exponent);
    WrapAround(|p.whole| + p.exponent - INT_VALUES);
  }

  /** A scale past the integers wraps to none. */
  lemma {:induction false} ScaleWraps(p: Parts)
    requires |p.whole| + |p.fraction| <= INT_MAX && FitsInt(p.exponent) && |p.fraction| - p.exponent > INT_MAX
    ensures 1 <= PartsBytes(p) <= 2 && PlainLength(p) > INT_MAX
  {
    WrapAround(|p.fraction| - p.exponent - INT_VALUES);
  }

  /** The machine measure is exact exactly when the length fits an integer, and so does the place of the point. */
  lemma {:induction false} PartsBytesIsExactly(p: Parts)
    requires |p.whole| + |p.fraction| <= INT_MAX && FitsInt(p.exponent)
    ensures PartsBytes(p) == PlainLength(p) <==> PlainLength(p) <= INT_MAX && PointFits(p)
    ensures PlainLength(p) <= INT_MAX ==> 1 <= PartsBytes(p) <= PlainLength(p)
    ensures PartsBytes(p) <= INT_MAX
  {
    if |p.whole| + p.exponent > INT_MAX {
      PointWraps(p);
    } else if |p.fraction| - p.exponent > INT_MAX {
      ScaleWraps(p);
    } else {
      IntegerLengthBounds(p.whole + p.fraction, |p.whole| + p.exponent);
    }
  }

  lemma {:induction false} PartsAreShort(token: string)
    requires TokenParts(token).Some?
    ensures var p := TokenParts(token).value;
            |p.whole| + |p.fraction| <= |token| && FitsInt(p.exponent)
  {
    var halves := Cut(ToLower(token), 'e');
    var mantissa := Cut(TrimPrefix(halves.before, '-'), '.');
    assert |mantissa.before| + |mantissa.after| <= |halves.before| <= |token|;
  }

  // ----- The measure is the length of the plain notation --------------------------------------------

  lemma {:induction false} PartsBytesIsLength(n: Number, p: Plain)
    requires IsNumber(n) && FitsInt(ExponentValue(n)) && |n.whole| + |FractionDigits(n)| <= INT_MAX && Renders(p, n)
    ensures PartsBytes(Parts(n.negative, n.whole, FractionDigits(n), ExponentValue(n))) == |PlainText(p)|
       <==> |PlainText(p)| <= INT_MAX && (|n.whole| + ExponentValue(n) <= INT_MAX || Digits(AllDigits(n)) == 0)
  {
    PlainLengthIsLength(n, p);
    PartsBytesIsExactly(Parts(n.negative, n.whole, FractionDigits(n), ExponentValue(n)));
    NonzeroIsNotTrimmed(AllDigits(n));
  }

  /**
   The measure of a token is the length of its plain notation exactly when that length fits a machine
   integer, and the place of the point does or the value is zero.
   */
  lemma {:induction false} NumericTextBytesIsLength(n: Number, p: Plain)
    requires IsNumber(n) && FitsInt(ExponentValue(n)) && |NumberText(n)| <= INT_MAX && Renders(p, n)
    ensures NumericTextBytes(NumberText(n)) == |PlainText(p)|
       <==> |PlainText(p)| <= INT_MAX && (|n.whole| + ExponentValue(n) <= INT_MAX || Digits(AllDigits(n)) == 0)
  {
    TokenIsRead(n);
    PartsAreShort(NumberText(n));
    PartsBytesIsLength(n, p);
  }

  const LARGEST_TEXT := "9223372036854775807"

  lemma {:induction false} LargestDigits(s: string)
    requires s == LARGEST_TEXT
    ensures |s| == 19 && IsDigits(s) && DigitValue(s[16]) == 8 && DigitValue(s[17]) == 0 && DigitValue(s[18]) == 7
    ensures FourDigits(s, 0) == 9223 && FourDigits(s, 4) == 3720 && FourDigits(s, 8) == 3685 && FourDigits(s, 12) == 4775
  {
  }

  lemma {:induction false} LargestIsRead(s: string)
    requires s == LARGEST_TEXT
    ensures IsDigits(s) && |s| == 19 && Digits(s) == INT_MAX
  {
    LargestDigits(s);
    FourMoreDigits(s, 0);
    FourMoreDigits(s, 4);
    FourMoreDigits(s, 8);
    FourMoreDigits(s, 12);
    OneMoreDigit(s, 16);
    OneMoreDigit(s, 17);
    OneMoreDigit(s, 18);
    assert s[..19] == s;
  }

  /** The token of one with the largest exponent that fits an integer. */
  function Huge(digits: string): Number { Number(false, "1", None, Some(Exponent('e', None, digits))) }

  /** One followed by 2^63 - 1 zeros has 2^63 digits, and measures one byte. */
  lemma {:induction false} HugeExponentMeasuresOne(digits: string, p: Plain)
    requires digits == LARGEST_TEXT && Renders(p, Huge(digits))
    ensures IsNumber(Huge(digits)) && |PlainText(p)| == INT_MAX + 1 && NumericTextBytes(NumberText(Huge(digits))) == 1
  {
    LargestIsRead(digits);
    TokenIsRead(Huge(digits));
    PlainLengthIsLength(Huge(digits), p);
    var parts := Parts(false, "1", "", INT_MAX);
    PointWraps(parts);
    assert parts.whole + parts.fraction == "1" && "1"[..1] == "1";
  }

  /** A token without an exponent is at least as long as its plain notation, and measured exactly. */
  lemma {:induction false} PlainTokenBound(n: Number)
    requires IsNumber(n) && n.exponent.None? && |NumberText(n)| <= INT_MAX
    ensures 1 <= NumericTextBytes(NumberText(n)) <= |NumberText(n)|
  {
    TokenIsRead(n);
    PartsAreShort(NumberText(n));
    PartsBytesIsExactly(TokenParts(NumberText(n)).value);
    IntegerLengthBounds(AllDigits(n), |n.whole|);
  }
}
