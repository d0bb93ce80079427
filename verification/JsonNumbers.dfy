/** JSON number tokens, the exact decimals they denote, and the two functions that read them as text. */
module JsonNumbers {
  import opened Prelude
  import opened Ordering
  import opened Decimal

  // ----- Tokens ------------------------------------------------------------------------------------

  datatype Exponent = Exponent(marker: char, sign: Option<char>, digits: string)

  datatype Number = Number(negative: bool, whole: string, fraction: Option<string>, exponent: Option<Exponent>)

  predicate IsExponent(e: Exponent) {
    && (e.marker == 'e' || e.marker == 'E')
    && (e.sign.Some? ==> e.sign.value == '+' || e.sign.value == '-')
    && |e.digits| > 0 && IsDigits(e.digits)
  }

  predicate IsNumber(n: Number) {
    && |n.whole| > 0 && IsDigits(n.whole) && (|n.whole| > 1 ==> n.whole[0] != '0')
    && (n.fraction.Some? ==> |n.fraction.value| > 0 && IsDigits(n.fraction.value))
    && (n.exponent.Some? ==> IsExponent(n.exponent.value))
  }

  function SignText(n: Number): string { if n.negative then "-" else "" }

  function MantissaText(n: Number): string { n.whole + if n.fraction.Some? then "." + n.fraction.value else "" }

  function ExponentSign(e: Exponent): string { if e.sign.Some? then [e.sign.value] else "" }

  function ExponentText(n: Number): string {
    if n.exponent.Some? then ExponentSign(n.exponent.value) + n.exponent.value.digits else ""
  }

  function UnsignedText(n: Number): string {
    MantissaText(n) + if n.exponent.Some? then [n.exponent.value.marker] + ExponentText(n) else ""
  }

  function NumberText(n: Number): string { SignText(n) + UnsignedText(n) }

  // ----- What a token denotes ------------------------------------------------------------------------

  function FractionDigits(n: Number): string { if n.fraction.Some? then n.fraction.value else "" }

  function AllDigits(n: Number): string { n.whole + FractionDigits(n) }

  function ExponentValue(n: Number): int {
    if n.exponent.None? then 0
    else if n.exponent.value.sign == Some('-') then -(Digits(n.exponent.value.digits) as int)
    else Digits(n.exponent.value.digits)
  }

  /** The magnitude of `n` is its digits times ten to this power. */
  function Shift(n: Number): int { ExponentValue(n) - |FractionDigits(n)| }

  /** The exact magnitude `digits * 10^shift` is more than `limit`. */
  predicate Above(digits: int, shift: int, limit: int) {
    Scale(digits, Max(shift, 0)) > Scale(limit, Max(-shift, 0))
  }

  // ----- Reading a token as text ---------------------------------------------------------------------

  const INT_MAX := 0x7FFF_FFFF_FFFF_FFFF

  predicate FitsInt(value: int) { -INT_MAX - 1 <= value <= INT_MAX }

  const INT_VALUES := 0x1_0000_0000_0000_0000

  /** The machine integer that a sum or difference leaves: it wraps around. */
  function Wrap(x: int): (r: int)
    ensures FitsInt(r)
    decreases if FitsInt(x) then 0 else if x < 0 then -x else x, 1
  {
    if FitsInt(x) then x else WrapOnce(x)
  }

  function WrapOnce(x: int): (r: int)
    requires !FitsInt(x)
    ensures FitsInt(r)
    decreases if x < 0 then -x else x, 0
  {
    Wrap(if x < 0 then x + INT_VALUES else x - INT_VALUES)
  }

  lemma {:induction false} WrapAround(x: int)
    ensures Wrap(x + INT_VALUES) == Wrap(x)
  {
    if x + INT_VALUES > INT_MAX {
      assert Wrap(x + INT_VALUES) == WrapOnce(x + INT_VALUES);
    } else {
      assert Wrap(x) == WrapOnce(x);
    }
  }

  /** Wrapping a part of a sum early changes nothing. */
  lemma {:induction false} WrapAdd(a: int, b: int)
    ensures Wrap(Wrap(a) + b) == Wrap(a + b)
    decreases if FitsInt(a) then 0 else if a < 0 then -a else a
  {
    if a > INT_MAX {
      assert Wrap(a) == WrapOnce(a);
      WrapAdd(a - INT_VALUES, b);
      WrapAround(a - INT_VALUES + b);
    } else if a < -INT_MAX - 1 {
      assert Wrap(a) == WrapOnce(a);
      WrapAdd(a + INT_VALUES, b);
      WrapAround(a + b);
    }
  }

  /** The natural number that a machine integer is congruent to. */
  function Residue(x: int): nat
    requires FitsInt(x)
  {
    if x < 0 then x + INT_VALUES else x
  }

  lemma {:induction false} ResidueWraps(x: int)
    requires FitsInt(x)
    ensures Wrap(Residue(x)) == x
  {
    WrapAround(x);
  }

  /** Adds a part to a running sum, in machine integers. */
  method Plus(sum: int, part: int, ghost exact: int) returns (next: int)
    requires sum == Wrap(exact)
    ensures next == Wrap(exact + part)
  {
    WrapAdd(exact, part);
    next := Wrap(sum + part);
  }

  /** Adds a part that is itself a machine integer. */
  method PlusWrapped(sum: int, part: int, ghost exact: int, ghost more: int) returns (next: int)
    requires sum == Wrap(exact) && part == Wrap(more)
    ensures next == Wrap(exact + more)
  {
    WrapAdd(exact, part);
    WrapAdd(more, exact);
    next := Wrap(sum + part);
  }

  /** The integer that the text denotes, unless the text is malformed or the integer does not fit. */
  function Atoi(s: string): Option<int> {
    var digits := if |s| > 0 && (s[0] == '+' || s[0] == '-') then s[1..] else s;
    var value := if |s| > 0 && s[0] == '-' then -(Digits(digits) as int) else Digits(digits);
    if |digits| == 0 || !IsDigits(digits) || value > INT_MAX || value < -INT_MAX - 1 then None else Some(value)
  }

  /** Text that lower-casing leaves as it is, and that holds no exponent marker. */
  predicate NoMarker(s: string) { forall i :: 0 <= i < |s| ==> IsDigit(s[i]) || s[i] == '-' || s[i] == '+' || s[i] == '.' }

  lemma {:induction false} LowerAt(before: string, marker: char, after: string)
    requires NoMarker(before) && NoMarker(after) && (marker == 'e' || marker == 'E')
    ensures ToLower(before + [marker] + after) == before + ['e'] + after
    ensures ToLower(before) == before
  {
    assert ToLower(before) == before && ToLower(after) == after;
    assert ToLower(before + [marker] + after) == ToLower(before) + [Lower(marker)] + ToLower(after);
  }

  lemma {:induction false} PartsHaveNoMarker(n: Number)
    requires IsNumber(n)
    ensures NoMarker(MantissaText(n)) && NoMarker(ExponentText(n))
  {
  }

  /** The mantissa and the exponent of a token, cut at its lower-cased marker, with or without its sign. */
  lemma {:induction false} MarkerCut(n: Number, sign: string)
    requires IsNumber(n) && (sign == "" || sign == "-")
    ensures Cut(ToLower(sign + UnsignedText(n)), 'e') == Halves(sign + MantissaText(n), ExponentText(n), n.exponent.Some?)
  {
    var mantissa, exponent := sign + MantissaText(n), ExponentText(n);
    PartsHaveNoMarker(n);
    assert NoMarker(mantissa);
    if n.exponent.Some? {
      var marker := n.exponent.value.marker;
      assert sign + UnsignedText(n) == mantissa + [marker] + exponent;
      LowerAt(mantissa, marker, exponent);
    } else {
      assert sign + UnsignedText(n) == mantissa;
      LowerAt(mantissa, 'e', exponent);
    }
    CutAt(mantissa, 'e', exponent);
  }

  lemma {:induction false} PointCut(n: Number)
    requires IsNumber(n)
    ensures Cut(MantissaText(n), '.') == Halves(n.whole, FractionDigits(n), n.fraction.Some?)
  {
    CutAt(n.whole, '.', FractionDigits(n));
    if n.fraction.Some? {
      assert MantissaText(n) == n.whole + ['.'] + FractionDigits(n);
    } else {
      assert MantissaText(n) == n.whole;
    }
  }

  lemma {:induction false} SignIsPrefix(sign: string, rest: string)
    requires (sign == "" || sign == "-") && |rest| > 0 && rest[0] != '-'
    ensures TrimPrefix(sign + rest, '-') == rest
  {
    assert sign == "-" ==> (sign + rest)[1..] == rest;
    assert sign == "" ==> sign + rest == rest;
  }

  lemma {:induction false} SignTrimmed(n: Number)
    requires IsNumber(n)
    ensures TrimPrefix(SignText(n) + MantissaText(n), '-') == MantissaText(n)
    ensures TrimPrefix(NumberText(n), '-') == UnsignedText(n)
  {
    assert MantissaText(n)[0] == n.whole[0] == UnsignedText(n)[0];
    SignIsPrefix(SignText(n), MantissaText(n));
    SignIsPrefix(SignText(n), UnsignedText(n));
  }

  function Fitting(value: int): Option<int> { if FitsInt(value) then Some(value) else None }

  lemma {:induction false} ExponentIsRead(n: Number)
    requires IsNumber(n) && n.exponent.Some?
    ensures Atoi(ExponentText(n)) == Fitting(ExponentValue(n))
    ensures Atoi(TrimPrefix(ExponentText(n), '+')) == Atoi(ExponentText(n))
    ensures |ExponentText(n)| > 0 && (ExponentText(n)[0] == '-' <==> n.exponent.value.sign == Some('-'))
  {
    var e, text := n.exponent.value, ExponentText(n);
    if e.sign.Some? {
      assert text[0] == e.sign.value && text[1..] == e.digits;
    } else {
      assert text == e.digits;
    }
  }

  // ----- The safe integer limit ------------------------------------------------------------------------

  const SAFE_INTEGER := 9007199254740991
  const SAFE_INTEGER_TEXT := "9007199254740991"

  /** The value `0.all * 10^k` is more than the integer that the `k` digits of `limit` denote. */
  predicate DigitsAbove(all: string, limit: string) {
    var point := |limit|;
    var digits := TrimRight(all);
    var integer := digits[..Min(point, |digits|)] + Zeros(Max(point - |digits|, 0));
    if integer != limit then LexLess(Codes(limit), Codes(integer)) else |digits| > point
  }

  /** The value `0.digits * 10^point` is more than the limit. */
  predicate DigitsExceed(digits: string, point: int, limit: string) {
    if point > |limit| then true
    else if point < |limit| then false
    else DigitsAbove(digits, limit)
  }

  /**
   The decision from the significant digits, the lengths of the two parts and of the whole text, and the
   exponent, which is absent when it does not fit an integer.
   */
  predicate ReadExceeds(
    digits: string, whole: nat, fraction: nat, exponent: Option<int>, negative: bool, length: int, limit: string)
  {
    if digits == "" then false
    else if exponent.None? then !negative
    else if exponent.value < -length then false
    else DigitsExceed(digits, whole - (whole + fraction - |digits|) + exponent.value, limit)
  }

  predicate PartsExceed(whole: string, fraction: string, exponentText: Option<string>, length: int, limit: string) {
    var exponent := if exponentText.Some? then Atoi(exponentText.value) else Some(0);
    var negative := exponentText.Some? && |exponentText.value| > 0 && exponentText.value[0] == '-';
    ReadExceeds(TrimLeft(whole + fraction), |whole|, |fraction|, exponent, negative, length, limit)
  }

  predicate ExceedsSafeInteger(text: string) {
    var parts := Cut(ToLower(TrimPrefix(text, '-')), 'e');
    var mantissa := Cut(parts.before, '.');
    var exponentText := if parts.found then Some(parts.after) else None;
    PartsExceed(mantissa.before, mantissa.after, exponentText, |text|, SAFE_INTEGER_TEXT)
  }

  function FourDigits(s: string, k: nat): nat
    requires k + 4 <= |s|
  {
    1000 * DigitValue(s[k]) + 100 * DigitValue(s[k + 1]) + 10 * DigitValue(s[k + 2]) + DigitValue(s[k + 3])
  }

  lemma {:induction false} OneMoreDigit(s: string, k: nat)
    requires k < |s|
    ensures Digits(s[..k + 1]) == 10 * Digits(s[..k]) + DigitValue(s[k])
  {
    assert s[..k + 1][..k] == s[..k];
  }

  lemma {:induction false} FourMoreDigits(s: string, k: nat)
    requires k + 4 <= |s|
    ensures Digits(s[..k + 4]) == 10_000 * Digits(s[..k]) + FourDigits(s, k)
  {
    OneMoreDigit(s, k);
    OneMoreDigit(s, k + 1);
    OneMoreDigit(s, k + 2);
    OneMoreDigit(s, k + 3);
  }

  lemma {:induction false} SafeIntegerIsLimit(s: string)
    requires s == SAFE_INTEGER_TEXT
    ensures IsLimit(s)
    ensures FourDigits(s, 0) == 9007 && FourDigits(s, 4) == 1992 && FourDigits(s, 8) == 5474 && FourDigits(s, 12) == 991
  {
  }

  lemma {:induction false} SixteenDigits(s: string, a: nat, b: nat, c: nat, d: nat)
    requires |s| == 16
    requires FourDigits(s, 0) == a && FourDigits(s, 4) == b && FourDigits(s, 8) == c && FourDigits(s, 12) == d
    ensures Digits(s) == 10_000 * (10_000 * (10_000 * a + b) + c) + d
  {
    FourMoreDigits(s, 0);
    FourMoreDigits(s, 4);
    FourMoreDigits(s, 8);
    FourMoreDigits(s, 12);
    assert s[..16] == s;
  }

  lemma {:induction false} SafeIntegerText() returns (limit: string)
    ensures limit == SAFE_INTEGER_TEXT && |limit| == 16 && IsLimit(limit) && Digits(limit) == SAFE_INTEGER
  {
    limit := SAFE_INTEGER_TEXT;
    SafeIntegerIsLimit(limit);
    SixteenDigits(limit, 9007, 1992, 5474, 991);
  }

  /** A limit that a point can be compared with: its first digit is not zero. */
  predicate IsLimit(limit: string) { IsDigits(limit) && |limit| > 0 && limit[0] != '0' }

  /** A point beyond the digits of the limit. */
  lemma {:induction false} ManyDigitsExceed(digits: string, shift: int, limit: string)
    requires IsLimit(digits) && IsLimit(limit) && |digits| + shift > |limit|
    ensures Above(Digits(digits), shift, Digits(limit))
  {
    DigitsBound(limit);
    DigitsLower(digits);
    var n, up, down := |digits| - 1, Max(shift, 0), Max(-shift, 0);
    ScaleOrder(Digits(limit), Scale(1, |limit|), down);
    ScaleAdd(1, |limit|, down);
    ScaleOne(|limit| + down, n + up);
    ScaleAdd(1, n, up);
    ScaleOrder(Digits(digits), Scale(1, n), up);
  }

  /** A point before the last digit of the limit. */
  lemma {:induction false} FewDigitsFit(digits: string, shift: int, limit: string)
    requires IsLimit(limit) && |digits| + shift < |limit|
    ensures !Above(Digits(digits), shift, Digits(limit))
  {
    DigitsLower(limit);
    DigitsBound(digits);
    var n, up, down := |digits|, Max(shift, 0), Max(-shift, 0);
    ScaleOrder(Digits(digits), Scale(1, n), up);
    ScaleAdd(1, n, up);
    ScaleOne(n + up, |limit| - 1 + down);
    ScaleAdd(1, |limit| - 1, down);
    ScaleOrder(Digits(limit), Scale(1, |limit| - 1), down);
  }

  /** Trailing zeros of the digits and the power of ten trade places. */
  lemma {:induction false} AboveTrimmed(value: int, zeros: nat, shift: int, limit: int)
    ensures Above(Scale(value, zeros), shift, limit) <==> Above(value, shift + zeros, limit)
  {
    var after := shift + zeros;
    if shift >= 0 {
      ScaleAdd(value, zeros, shift);
      assert zeros + shift == after;
    } else if after >= 0 {
      ScaleAdd(value, after, -shift);
      assert after + -shift == zeros;
      ScaleOrder(limit, Scale(value, after), -shift);
    } else {
      ScaleAdd(limit, -after, zeros);
      assert -after + zeros == -shift;
      ScaleOrder(Scale(limit, -after), value, zeros);
    }
  }

  /** Digits up to the point: the comparison of the padded integer is exact. */
  lemma {:induction false} PaddedComparison(digits: string, limit: string)
    requires IsDigits(digits) && IsDigits(limit) && |digits| <= |limit|
    ensures LexLess(Codes(limit), Codes(digits + Zeros(|limit| - |digits|)))
       <==> Above(Digits(digits), |limit| - |digits|, Digits(limit))
  {
    var zeros := |limit| - |digits|;
    DigitsPad(digits, zeros);
    TextOrderIsNumeric(limit, digits + Zeros(zeros));
  }

  /** Digits beyond the point: what stands after it is more than zero and less than one. */
  lemma {:induction false} FractionDecides(digits: string, limit: string)
    requires IsDigits(digits) && IsDigits(limit) && |digits| > |limit| && digits[|digits| - 1] != '0'
    ensures Above(Digits(digits), |limit| - |digits|, Digits(limit))
       <==> digits[..|limit|] == limit || LexLess(Codes(limit), Codes(digits[..|limit|]))
  {
    var integer, fraction := digits[..|limit|], digits[|limit|..];
    assert digits == integer + fraction;
    DigitsConcat(integer, fraction);
    DigitsBound(fraction);
    assert fraction[|fraction| - 1] == digits[|digits| - 1];
    TextOrderIsNumeric(limit, integer);
    LeadingDigit(Digits(limit), Digits(integer), 0, Digits(fraction), |fraction|);
  }

  lemma {:induction false} DigitsAboveIsExact(all: string, limit: string)
    requires IsDigits(all) && IsDigits(limit)
    ensures DigitsAbove(all, limit) <==> Above(Digits(all), |limit| - |all|, Digits(limit))
  {
    var digits := TrimRight(all);
    TrimRightDigits(all);
    var zeros := |all| - |digits|;
    AboveTrimmed(Digits(digits), zeros, |limit| - |all|, Digits(limit));
    LexAsymmetric(Codes(limit), Codes(limit));
    if |digits| <= |limit| {
      PaddedComparison(digits, limit);
      assert digits[..Min(|limit|, |digits|)] == digits;
    } else {
      FractionDecides(digits, limit);
      assert digits[..|limit|] + Zeros(0) == digits[..|limit|];
    }
  }

  lemma {:induction false} DigitsExceedIsExact(digits: string, point: int, limit: string)
    requires IsLimit(digits) && IsLimit(limit)
    ensures DigitsExceed(digits, point, limit) <==> Above(Digits(digits), point - |digits|, Digits(limit))
  {
    if point > |limit| {
      ManyDigitsExceed(digits, point - |digits|, limit);
    } else if point < |limit| {
      FewDigitsFit(digits, point - |digits|, limit);
    } else {
      DigitsAboveIsExact(digits, limit);
    }
  }

  lemma {:induction false} ZeroIsNotAbove(shift: int, limit: nat)
    ensures !Above(0, shift, limit)
  {
    var up, down := Max(shift, 0), Max(-shift, 0);
    ScaleOne(up, up);
    ScaleOne(down, down);
    ScaleOrder(limit, 0, down);
  }

  /** The decision is exact for every exponent, also one that does not fit an integer. */
  lemma {:induction false} ReadExceedsIsExact(
    digits: string, whole: nat, fraction: nat, exponent: int, negative: bool, length: int, limit: string)
    requires (digits == "" || IsLimit(digits)) && (!FitsInt(exponent) ==> negative == (exponent < 0))
    requires |digits| <= whole + fraction <= length < INT_MAX / 2 && IsLimit(limit) && |limit| < INT_MAX / 2
    ensures ReadExceeds(digits, whole, fraction, Fitting(exponent), negative, length, limit)
       <==> Above(Digits(digits), exponent - fraction, Digits(limit))
  {
    if digits == "" {
      ZeroIsNotAbove(exponent - fraction, Digits(limit));
    } else {
      DigitsExceedIsExact(digits, |digits| + exponent - fraction, limit);
    }
  }

  function ReadExponent(n: Number): Option<string> { if n.exponent.Some? then Some(ExponentText(n)) else None }

  predicate NegativeExponent(n: Number) { n.exponent.Some? && n.exponent.value.sign == Some('-') }

  lemma {:induction false} PartsAreRead(n: Number, length: int, limit: string)
    requires IsNumber(n)
    ensures PartsExceed(n.whole, FractionDigits(n), ReadExponent(n), length, limit)
         == ReadExceeds(TrimLeft(AllDigits(n)), |n.whole|, |FractionDigits(n)|, Fitting(ExponentValue(n)),
                        NegativeExponent(n), length, limit)
  {
    if n.exponent.Some? {
      ExponentIsRead(n);
    }
  }

  lemma {:induction false} AllDigitsTrim(n: Number)
    requires IsNumber(n)
    ensures var digits := TrimLeft(AllDigits(n));
            && (digits == "" || IsLimit(digits)) && |digits| <= |n.whole| + |FractionDigits(n)|
            && Digits(digits) == Digits(AllDigits(n))
  {
    TrimLeftDigits(AllDigits(n));
  }

  lemma {:induction false} PartsExceedIsExact(n: Number, length: int, limit: string)
    requires IsNumber(n) && |n.whole| + |FractionDigits(n)| <= length < INT_MAX / 2
    requires IsLimit(limit) && |limit| < INT_MAX / 2
    ensures PartsExceed(n.whole, FractionDigits(n), ReadExponent(n), length, limit)
       <==> Above(Digits(AllDigits(n)), Shift(n), Digits(limit))
  {
    var digits, whole, fraction, e := TrimLeft(AllDigits(n)), |n.whole|, |FractionDigits(n)|, ExponentValue(n);
    AllDigitsTrim(n);
    ReadExceedsIsExact(digits, whole, fraction, e, NegativeExponent(n), length, limit);
    assert Shift(n) == e - fraction;
    PartsAreRead(n, length, limit);
  }

  lemma {:induction false} TextIsRead(n: Number)
    requires IsNumber(n)
    ensures ExceedsSafeInteger(NumberText(n))
         == PartsExceed(n.whole, FractionDigits(n), ReadExponent(n), |NumberText(n)|, SAFE_INTEGER_TEXT)
  {
    SignTrimmed(n);
    assert "" + UnsignedText(n) == UnsignedText(n) && "" + MantissaText(n) == MantissaText(n);
    MarkerCut(n, "");
    PointCut(n);
  }

  /** The digit comparison decides the number that the token denotes, however it is written. */
  lemma {:induction false} ExceedsSafeIntegerIsExact(n: Number)
    requires IsNumber(n) && |NumberText(n)| < INT_MAX / 2
    ensures ExceedsSafeInteger(NumberText(n)) <==> Above(Digits(AllDigits(n)), Shift(n), SAFE_INTEGER)
  {
    TextIsRead(n);
    var limit := SafeIntegerText();
    PartsExceedIsExact(n, |NumberText(n)|, limit);
  }
}
