/**
 What makes a JSON text canonical, rule by rule and without the writer: no white space, keys in strict order
 of their UTF-16 code units, the shortest escapes with lowercase hexadecimal digits (section 3.2.2.2 of
 RFC 8785), and numbers in the one layout that ECMAScript allows (section 3.2.2.3). Exactly one text of each
 value keeps the rules, and it is the canonical text.
 */
module CanonicalForm {
  import opened Prelude
  import opened Decimal
  import opened JsonNumbers
  import opened JsonSyntax
  import opened JsonTokens
  import opened CanonicalNumbers
  import opened CanonicalJson

  // ----- Code units ----------------------------------------------------------------------------------------

  /** A character outside the basic plane is the surrogate pair that stands for it, and any other is itself. */
  lemma CharUnitsExactly(c: char)
    ensures var units := CharUnits(c);
            if c as int < 0x10000 then units == [c as int]
            else |units| == 2 && IsHigh(units[0]) && IsLow(units[1]) && PairChar(units[0], units[1]) == c
  {
  }

  // ----- Strings -------------------------------------------------------------------------------------------

  /** No hexadecimal digit is written in upper case. */
  predicate Lowercase(p: Piece) { p.Hex? ==> forall i :: 0 <= i < |p.digits| ==> !('A' <= p.digits[i] <= 'F') }

  predicate AllLowercase(pieces: seq<Piece>) { forall i :: 0 <= i < |pieces| ==> Lowercase(pieces[i]) }

  lemma {:induction false} HexDigitIsUnique(c: char)
    requires IsHexDigit(c) && !('A' <= c <= 'F')
    ensures HexDigit(HexValue(c)) == c
  {
  }

  /** Below 0x20, two lowercase escapes with one value are the same. */
  lemma {:induction false} LowHexIsUnique(digits: string)
    requires IsHex(digits) && Lowercase(Hex(digits)) && Unit(digits) < 0x20
    ensures digits == ['0', '0', HexDigit(Unit(digits) / 16), HexDigit(Unit(digits) % 16)]
  {
    forall i | 0 <= i < 4 ensures HexDigit(HexValue(digits[i])) == digits[i] {
      HexDigitIsUnique(digits[i]);
    }
    assert HexValue(digits[0]) == 0 && HexValue(digits[1]) == 0;
    assert digits == [digits[0], digits[1], digits[2], digits[3]];
  }

  /** No piece for a character is shorter than the one written for it, and no other lowercase one is as short. */
  lemma {:induction false} CharPieceIsShortest(c: char, p: Piece)
    requires PieceOk(p) && PieceChar(p) == c
    ensures |PieceText(CharPiece(c))| <= |PieceText(p)| && Lowercase(CharPiece(c))
    ensures |PieceText(CharPiece(c))| == |PieceText(p)| && Lowercase(p) ==> p == CharPiece(c)
  {
    if p.Hex? && CharPiece(c).Hex? && Lowercase(p) {
      LowHexIsUnique(p.digits);
    }
  }

  lemma {:induction false} CanonicalFirst(s: string)
    requires |s| > 0
    ensures CanonicalPieces(s) == [CharPiece(s[0])] + CanonicalPieces(s[1..])
    ensures |PiecesText(CanonicalPieces(s))| == |PieceText(CharPiece(s[0]))| + |PiecesText(CanonicalPieces(s[1..]))|
  {
    assert CanonicalPieces(s)[1..] == CanonicalPieces(s[1..]);
  }

  lemma {:induction false} PairIsLonger(pieces: seq<Piece>)
    requires PiecesOk(pieces) && StartsWithPair(pieces)
    ensures |PiecesText(pieces)| == 12 + |PiecesText(pieces[2..])|
    ensures |Chars(pieces)| > 0 && Chars(pieces)[1..] == Chars(pieces[2..]) && |PieceText(CharPiece(Chars(pieces)[0]))| == 1
  {
    assert pieces[1..][1..] == pieces[2..];
    assert PiecesText(pieces) == PieceText(pieces[0]) + (PieceText(pieces[1]) + PiecesText(pieces[2..]));
  }

  /** No literal that denotes a text is shorter than the canonical one, and no other lowercase one is as short. */
  lemma {:induction false} CanonicalIsShortest(pieces: seq<Piece>)
    requires PiecesOk(pieces)
    ensures |PiecesText(CanonicalPieces(Chars(pieces)))| <= |PiecesText(pieces)|
    ensures |PiecesText(CanonicalPieces(Chars(pieces)))| == |PiecesText(pieces)| && AllLowercase(pieces) ==>
              pieces == CanonicalPieces(Chars(pieces))
    decreases |pieces|
  {
    if |pieces| > 0 {
      var s := Chars(pieces);
      CanonicalFirst(s);
      if StartsWithPair(pieces) {
        CanonicalIsShortest(pieces[2..]);
        PairIsLonger(pieces);
      } else {
        CanonicalIsShortest(pieces[1..]);
        CharPieceIsShortest(s[0], pieces[0]);
        assert s[1..] == Chars(pieces[1..]);
        assert pieces == [pieces[0]] + pieces[1..];
      }
    }
  }

  /** No literal that denotes the same text is shorter, and hexadecimal digits are lowercase. */
  ghost predicate IsShortest(pieces: seq<Piece>) {
    && PiecesOk(pieces) && AllLowercase(pieces)
    && forall q :: PiecesOk(q) && Chars(q) == Chars(pieces) ==> |LiteralText(pieces)| <= |LiteralText(q)|
  }

  /** Of all literals for a text, the canonical one is the only shortest one. */
  lemma {:induction false} ShortestExactly(pieces: seq<Piece>)
    ensures IsShortest(pieces) <==> pieces == CanonicalPieces(Chars(pieces))
  {
    var s := Chars(pieces);
    CanonicalPiecesRead(s);
    if IsShortest(pieces) {
      assert |LiteralText(pieces)| <= |LiteralText(CanonicalPieces(s))|;
      CanonicalIsShortest(pieces);
    } else if pieces == CanonicalPieces(s) {
      forall q | PiecesOk(q) && Chars(q) == s ensures |LiteralText(pieces)| <= |LiteralText(q)| {
        CanonicalIsShortest(q);
      }
      forall i | 0 <= i < |pieces| ensures Lowercase(pieces[i]) {
        CharPieceReads(s[i]);
        CharPieceIsShortest(s[i], CharPiece(s[i]));
      }
    }
  }

  // ----- Numbers -------------------------------------------------------------------------------------------

  predicate IsZero(n: Number) { TrimLeft(AllDigits(n)) == "" }

  /** No zeros that could be left out: none at the end of a fraction, none before an exponent, and no sign of zero. */
  predicate IsBare(n: Number)
    requires IsNumber(n)
  {
    && (IsZero(n) ==> !n.negative)
    && (n.fraction.Some? ==> n.fraction.value[|n.fraction.value| - 1] != '0')
  }

  /** An exponent stands after one digit, has a sign and no leading zeros, and is there only from 10^21 on or below 10^-6. */
  predicate ExponentNeeded(n: Number)
    requires IsNumber(n) && n.exponent.Some?
  {
    var e := n.exponent.value;
    && |n.whole| == 1 && n.whole != "0" && e.marker == 'e'
    && e.digits[0] != '0' && e.sign == Some(if ExponentValue(n) < 0 then '-' else '+')
    && (ExponentValue(n) >= 21 || ExponentValue(n) <= -7)
  }

  /** Without an exponent, the number is below 10^21, and it is zero or at least 10^-6. */
  predicate ExponentNotNeeded(n: Number)
    requires IsNumber(n) && n.exponent.None?
  {
    |n.whole| <= 21 && (n.whole == "0" && n.fraction.Some? ==> |n.fraction.value| - |TrimLeft(n.fraction.value)| <= 5)
  }

  predicate IsEcmaScript(n: Number) {
    IsNumber(n) && IsBare(n) && if n.exponent.Some? then ExponentNeeded(n) else ExponentNotNeeded(n)
  }

  lemma {:induction false} ItoaHasNoZero(n: nat)
    requires n > 0
    ensures |Itoa(n)| > 0 && Itoa(n)[0] != '0'
  {
    if n >= 10 {
      ItoaHasNoZero(n / 10);
    }
  }

  lemma {:induction false} ItoaIsUnique(s: string)
    requires |s| > 0 && IsDigits(s) && s[0] != '0'
    ensures Digits(s) > 0 && Itoa(Digits(s)) == s
  {
    var n := |s| - 1;
    if n == 0 {
      assert s[..0] == "";
      assert s == [Digit(DigitValue(s[0]))];
    } else {
      ItoaIsUnique(s[..n]);
      assert s == s[..n] + [s[n]];
    }
  }

  // The layout keeps the rules.

  lemma {:induction false} FractionZeros(left: nat, digits: string)
    requires IsLimit(digits)
    ensures TrimLeft(Zeros(left) + digits) == digits && |Zeros(left) + digits| - |TrimLeft(Zeros(left) + digits)| == left
  {
    TrimLeftPadded(left, digits);
  }

  lemma {:induction false} LayoutIsNotZero(d: Double)
    requires IsDouble(d) && d.Finite?
    ensures !IsZero(Layout(d))
  {
    LayoutShape(d);
    TrimLeftPadded(ZerosBefore(d), d.digits + Zeros(ZerosAfter(d)));
  }

  lemma {:induction false} ScientificKeepsRules(d: Double)
    requires IsDouble(d) && d.Finite? && !(-6 < d.point <= 21)
    ensures IsEcmaScript(Layout(d))
  {
    LayoutIsNumber(d);
    LayoutIsNotZero(d);
    ItoaHasNoZero(Abs(d.point - 1));
    ItoaReads(Abs(d.point - 1));
  }

  lemma {:induction false} FractionKeepsRules(d: Double)
    requires IsDouble(d) && d.Finite? && -6 < d.point <= 0
    ensures IsEcmaScript(Layout(d))
  {
    var n, fraction := Layout(d), Zeros(-d.point) + d.digits;
    LayoutIsNumber(d);
    LayoutIsNotZero(d);
    FractionZeros(-d.point, d.digits);
    assert n == Number(d.negative, "0", Some(fraction), None);
    assert fraction[|fraction| - 1] == d.digits[|d.digits| - 1];
  }

  lemma {:induction false} PlainKeepsRules(d: Double)
    requires IsDouble(d) && d.Finite? && 0 < d.point <= 21
    ensures IsEcmaScript(Layout(d))
  {
    var n, digits, point := Layout(d), d.digits, d.point;
    LayoutIsNumber(d);
    LayoutIsNotZero(d);
    if |digits| <= point {
      assert n == Number(d.negative, digits + Zeros(point - |digits|), None, None);
    } else {
      assert n == Number(d.negative, digits[..point], Some(digits[point..]), None);
      assert n.whole[0] == digits[0] && digits[point..][|digits| - point - 1] == digits[|digits| - 1];
    }
  }

  lemma {:induction false} LayoutKeepsRules(d: Double)
    requires IsDouble(d)
    ensures IsEcmaScript(Layout(d))
  {
    if d.Zero? {
      assert AllDigits(Layout(d)) == "0" && "0"[1..] == "";
    } else if 0 < d.point <= 21 {
      PlainKeepsRules(d);
    } else if -6 < d.point <= 0 {
      FractionKeepsRules(d);
    } else {
      ScientificKeepsRules(d);
    }
  }

  // The rules leave no other layout.

  lemma {:induction false} ExponentIsLayout(n: Number)
    requires IsEcmaScript(n) && n.exponent.Some?
    ensures IsDouble(ReadDouble(n)) && Layout(ReadDouble(n)) == n
  {
    var digits, e := AllDigits(n), n.exponent.value;
    assert digits[0] == n.whole[0];
    assert TrimLeft(digits) == digits;
    assert digits[|digits| - 1] == if n.fraction.Some? then n.fraction.value[|n.fraction.value| - 1] else n.whole[0];
    assert TrimRight(digits) == digits;
    assert ReadDouble(n) == Finite(n.negative, digits, 1 + ExponentValue(n));
    ItoaIsUnique(e.digits);
    assert digits[..1] == n.whole && digits[1..] == FractionDigits(n);
  }

  lemma {:induction false} WholeIsLayout(n: Number)
    requires IsEcmaScript(n) && n.exponent.None? && n.fraction.None?
    ensures IsDouble(ReadDouble(n)) && Layout(ReadDouble(n)) == n
  {
    assert AllDigits(n) == n.whole;
    if n.whole[0] == '0' {
      assert n.whole == "0" && "0"[1..] == "" && TrimLeft(n.whole) == "";
    } else {
      assert TrimLeft(n.whole) == n.whole;
      TrimRightDrops(n.whole);
      TrimRightStarts(n.whole);
      assert ReadDouble(n) == Finite(n.negative, TrimRight(n.whole), |n.whole|);
    }
  }

  lemma {:induction false} TrimRightStarts(s: string)
    requires IsDigits(s) && |s| > 0 && s[0] != '0'
    ensures IsLimit(TrimRight(s)) && TrimRight(s)[|TrimRight(s)| - 1] != '0'
  {
    if s[|s| - 1] == '0' {
      TrimRightStarts(s[..|s| - 1]);
    }
  }

  lemma {:induction false} MixedIsLayout(n: Number)
    requires IsEcmaScript(n) && n.exponent.None? && n.fraction.Some? && n.whole[0] != '0'
    ensures IsDouble(ReadDouble(n)) && Layout(ReadDouble(n)) == n
  {
    var digits := AllDigits(n);
    assert digits[0] == n.whole[0] && TrimLeft(digits) == digits;
    assert digits[|digits| - 1] == n.fraction.value[|n.fraction.value| - 1] && TrimRight(digits) == digits;
    assert digits[..|n.whole|] == n.whole && digits[|n.whole|..] == n.fraction.value;
    assert ReadDouble(n) == Finite(n.negative, digits, |n.whole|);
  }

  lemma {:induction false} FractionIsLayout(n: Number)
    requires IsEcmaScript(n) && n.exponent.None? && n.fraction.Some? && n.whole[0] == '0'
    ensures IsDouble(ReadDouble(n)) && Layout(ReadDouble(n)) == n
  {
    var fraction := n.fraction.value;
    var digits := TrimLeft(fraction);
    assert n.whole == "0" && AllDigits(n)[1..] == fraction;
    assert TrimLeft(AllDigits(n)) == digits;
    TrimLeftDrops(fraction);
    TrimLeftDigits(fraction);
    assert fraction[|fraction| - 1] != '0';
    assert digits != "";
    assert digits[|digits| - 1] == fraction[|fraction| - 1] && TrimRight(digits) == digits;
    assert ReadDouble(n) == Finite(n.negative, digits, |digits| - |fraction|);
  }

  /** A number keeps the rules exactly when it is the layout of the double that it denotes. */
  lemma {:induction false} EcmaScriptExactly(n: Number)
    ensures IsEcmaScript(n) <==> IsDouble(ReadDouble(n)) && n == Layout(ReadDouble(n))
  {
    if IsEcmaScript(n) {
      if n.exponent.Some? {
        ExponentIsLayout(n);
      } else if n.fraction.None? {
        WholeIsLayout(n);
      } else if n.whole[0] != '0' {
        MixedIsLayout(n);
      } else {
        FractionIsLayout(n);
      }
    } else if IsDouble(ReadDouble(n)) && n == Layout(ReadDouble(n)) {
      LayoutKeepsRules(ReadDouble(n));
    }
  }

  // ----- Documents -----------------------------------------------------------------------------------------

  predicate IsBareItem(i: Item) { i.before == "" && i.after == "" }

  /** The keys of the members, in the order of the text. */
  function KeysOf(members: Members): (keys: seq<string>)
    ensures |keys| > 0
    decreases members
  {
    [Chars(members.member.key)] + if members.MoreMembers? then KeysOf(members.rest) else []
  }

  ghost predicate Canonical(j: Json)
    decreases j
  {
    match j
    case Null => true
    case Bool(_) => true
    case Num(n) => IsEcmaScript(n)
    case Str(pieces) => IsShortest(pieces)
    case EmptyArr(space) => space == ""
    case Arr(items) => CanonicalItems(items)
    case EmptyObj(space) => space == ""
    case Obj(members) => CanonicalMembers(members) && StrictlySorted(KeysOf(members))
  }

  ghost predicate CanonicalItems(items: Items)
    decreases items
  {
    && IsBareItem(items.item) && Canonical(items.item.value)
    && (items.MoreItems? ==> CanonicalItems(items.rest))
  }

  ghost predicate CanonicalMembers(members: Members)
    decreases members
  {
    var m := members.member;
    && m.before == "" && m.after == "" && IsShortest(m.key) && IsBareItem(m.item) && Canonical(m.item.value)
    && (members.MoreMembers? ==> CanonicalMembers(members.rest))
  }

  // The canonical tree keeps the rules.

  lemma {:induction false} WrittenIsShortest(s: string)
    ensures IsShortest(CanonicalPieces(s))
  {
    CanonicalPiecesRead(s);
    ShortestExactly(CanonicalPieces(s));
  }

  lemma {:induction false} TreeKeepsRules(d: Datum)
    ensures Canonical(Tree(d))
    decreases d, 1
  {
    match d {
      case DNumber(double) => LayoutKeepsRules(double);
      case DString(text) => WrittenIsShortest(text);
      case DArray(elements) =>
        if |elements| > 0 {
          ItemsKeepRules(elements);
        }
      case DObject(_) =>
        if |Keys(d)| > 0 {
          KeysAreOrdered(d);
          MembersKeepRules(d, Keys(d));
        }
      case _ =>
    }
  }

  lemma {:induction false} ItemsKeepRules(elements: seq<Datum>)
    requires |elements| > 0
    ensures CanonicalItems(TreeItems(elements))
    decreases elements, 0
  {
    TreeKeepsRules(elements[0]);
    if |elements| > 1 {
      ItemsKeepRules(elements[1..]);
    }
  }

  lemma {:induction false} MembersKeepRules(d: Datum, keys: seq<string>)
    requires d.DObject? && |keys| > 0 && forall k :: k in keys ==> k in d.members
    ensures CanonicalMembers(TreeMembers(d, keys)) && KeysOf(TreeMembers(d, keys)) == keys
    decreases d, 0, |keys|
  {
    TreeKeepsRules(d.members[keys[0]]);
    CanonicalPiecesRead(keys[0]);
    WrittenIsShortest(keys[0]);
    if |keys| > 1 {
      MembersKeepRules(d, keys[1..]);
    }
    assert keys == [keys[0]] + keys[1..];
  }

  // The rules leave no other tree.

  lemma {:induction false} RulesGiveTree(j: Json)
    requires Canonical(j)
    ensures j == Tree(Read(j))
    decreases j, 1
  {
    match j {
      case Num(n) => EcmaScriptExactly(n);
      case Str(pieces) => ShortestExactly(pieces);
      case Arr(items) => ItemsGiveTree(items);
      case Obj(members) => ObjectGivesTree(members);
      case EmptyObj(_) => EmptyObjectGivesTree();
      case _ =>
    }
  }

  lemma {:induction false} EmptyObjectGivesTree()
    ensures Tree(DObject(map[])) == EmptyObj("")
  {
    KeysAreOrdered(DObject(map[]));
  }

  lemma {:induction false} ItemsGiveTree(items: Items)
    requires CanonicalItems(items)
    ensures |ReadItems(items)| > 0 && TreeItems(ReadItems(items)) == items
    decreases items, 0
  {
    RulesGiveTree(items.item.value);
    var elements := ReadItems(items);
    if items.MoreItems? {
      ItemsGiveTree(items.rest);
      assert elements[1..] == ReadItems(items.rest);
    }
  }

  /** Distinct keys lose no member. */
  lemma {:induction false} ReadMembersKeys(members: Members)
    ensures forall k :: k in ReadMembers(members) <==> k in KeysOf(members)
    decreases members
  {
    if members.MoreMembers? {
      ReadMembersKeys(members.rest);
    }
  }

  /** `all` gives every key of the members its value. */
  ghost predicate Holds(all: map<string, Datum>, members: Members)
    decreases members
  {
    var m := members.member;
    && Chars(m.key) in all && all[Chars(m.key)] == Read(m.item.value)
    && (members.MoreMembers? ==> Holds(all, members.rest))
  }

  lemma {:induction false} MoreHold(first: map<string, Datum>, more: map<string, Datum>, members: Members)
    requires Holds(more, members)
    ensures Holds(first + more, members)
    decreases members
  {
    if members.MoreMembers? {
      MoreHold(first, more, members.rest);
    }
  }

  lemma {:induction false} ReadMembersHold(members: Members)
    requires StrictlySorted(KeysOf(members))
    ensures Holds(ReadMembers(members), members)
    decreases members
  {
    if members.MoreMembers? {
      var m, keys := members.member, KeysOf(members);
      assert keys[1..] == KeysOf(members.rest);
      ReadMembersHold(members.rest);
      ReadMembersKeys(members.rest);
      TailMember(keys, keys[0]);
      MoreHold(map[Chars(m.key) := Read(m.item.value)], ReadMembers(members.rest), members.rest);
    }
  }

  lemma {:induction false} MembersGiveTree(members: Members, d: Datum)
    requires CanonicalMembers(members) && d.DObject? && Holds(d.members, members)
    ensures (forall k :: k in KeysOf(members) ==> k in d.members) && TreeMembers(d, KeysOf(members)) == members
    decreases members, 0
  {
    var m, keys := members.member, KeysOf(members);
    RulesGiveTree(m.item.value);
    ShortestExactly(m.key);
    if members.MoreMembers? {
      MembersGiveTree(members.rest, d);
      assert keys[1..] == KeysOf(members.rest);
    }
  }

  lemma {:induction false} ObjectGivesTree(members: Members)
    requires CanonicalMembers(members) && StrictlySorted(KeysOf(members))
    ensures Tree(DObject(ReadMembers(members))) == Obj(members)
    decreases members, 1
  {
    var d, keys := DObject(ReadMembers(members)), KeysOf(members);
    ReadMembersHold(members);
    ReadMembersKeys(members);
    MembersGiveTree(members, d);
    KeysAreOrdered(d);
    SortedUnique(Keys(d), keys);
  }

  /** A document keeps the rules exactly when it is the canonical document of the value that it denotes. */
  lemma {:induction false} CanonicalExactly(j: Json)
    ensures Canonical(j) <==> j == Tree(Read(j))
  {
    if Canonical(j) {
      RulesGiveTree(j);
    } else {
      TreeKeepsRules(Read(j));
    }
  }

  /** Every value has exactly one text that keeps the rules, and that is its canonical text. */
  lemma {:induction false} OneCanonicalText(d: Datum, text: string)
    ensures text == CanonicalText(d) <==> exists j :: Canonical(j) && Read(j) == d && Text(j) == text
  {
    TreeKeepsRules(d);
    TreeReads(d);
    if j :| Canonical(j) && Read(j) == d && Text(j) == text {
      RulesGiveTree(j);
    }
  }
}
