/** The size limit of payloads and results: the exact measure, behind a shortcut for ordinary values. */
module SizeCheck {
  import opened Prelude
  import opened Decimal
  import opened JsonNumbers
  import opened JsonSyntax
  import opened NumericText
  import opened JsonbSize
  import opened JsonbScanner
  import opened ExactSize
  import opened Utf8
  import JsonbText

  // ----- Exponents -----------------------------------------------------------------------------------

  predicate ExponentAt(text: string, i: nat) {
    1 <= i < |text| && (text[i] == 'e' || text[i] == 'E') && IsDigit(text[i - 1])
  }

  ghost predicate HasExponentNumber(text: string) { exists i: nat :: ExponentAt(text, i) }

  method FindExponentNumber(encoded: string) returns (found: bool)
    ensures found <==> HasExponentNumber(encoded)
  {
    var i := 1;
    while i < |encoded|
      invariant 1 <= i
      invariant forall k: nat :: k < i ==> !ExponentAt(encoded, k)
    {
      if (encoded[i] == 'e' || encoded[i] == 'E') && '0' <= encoded[i - 1] <= '9' {
        assert ExponentAt(encoded, i);
        return true;
      }
      i := i + 1;
    }
    return false;
  }

  lemma {:induction false} ExponentWithin(a: string, b: string, c: string)
    ensures HasExponentNumber(b) ==> HasExponentNumber(a + b + c)
  {
    if HasExponentNumber(b) {
      var i: nat :| ExponentAt(b, i);
      assert (a + b + c)[|a| + i] == b[i] && (a + b + c)[|a| + i - 1] == b[i - 1];
      assert ExponentAt(a + b + c, |a| + i);
    }
  }

  /** Without a digit before an exponent marker in the text, no number of the document has an exponent. */
  predicate WithoutExponent(j: Json)
    decreases j
  {
    match j
    case Num(n) => n.exponent.None?
    case Arr(items) => ItemsWithout(items)
    case Obj(members) => MembersWithout(members)
    case _ => true
  }

  predicate ItemsWithout(items: Items)
    decreases items
  {
    WithoutExponent(items.item.value) && (items.MoreItems? ==> ItemsWithout(items.rest))
  }

  predicate MembersWithout(members: Members)
    decreases members
  {
    WithoutExponent(members.member.item.value) && (members.MoreMembers? ==> MembersWithout(members.rest))
  }

  lemma {:induction false} NumberShowsExponent(n: Number)
    requires IsNumber(n) && n.exponent.Some?
    ensures HasExponentNumber(NumberText(n))
  {
    var front := SignText(n) + MantissaText(n);
    assert NumberText(n)[|front|] == n.exponent.value.marker;
    assert NumberText(n)[|front| - 1] == MantissaText(n)[|MantissaText(n)| - 1];
    assert ExponentAt(NumberText(n), |front|);
  }

  lemma {:induction false} NoExponentInText(j: Json)
    requires Valid(j) && !HasExponentNumber(Text(j))
    ensures WithoutExponent(j)
    decreases j
  {
    match j {
      case Num(n) =>
        if n.exponent.Some? {
          NumberShowsExponent(n);
        }
      case Arr(items) =>
        ExponentWithin(['['], ItemsText(items), "");
        assert ['['] + ItemsText(items) + "" == Text(j);
        NoExponentInItems(items);
      case Obj(members) =>
        ExponentWithin(['{'], MembersText(members), "");
        assert ['{'] + MembersText(members) + "" == Text(j);
        NoExponentInMembers(members);
      case _ =>
    }
  }

  lemma {:induction false} NoExponentInItem(i: Item)
    requires ValidItem(i) && !HasExponentNumber(ItemText(i))
    ensures WithoutExponent(i.value)
    decreases i
  {
    ExponentWithin(i.before, Text(i.value), i.after);
    NoExponentInText(i.value);
  }

  lemma {:induction false} NoExponentInItems(items: Items)
    requires ValidItems(items) && !HasExponentNumber(ItemsText(items))
    ensures ItemsWithout(items)
    decreases items
  {
    var item := ItemText(items.item);
    match items {
      case LastItem(_) =>
        ExponentWithin("", item, [']']);
        assert "" + item + [']'] == ItemsText(items);
      case MoreItems(_, rest) =>
        ExponentWithin("", item, [','] + ItemsText(rest));
        assert "" + item + ([','] + ItemsText(rest)) == ItemsText(items);
        ExponentWithin(item + [','], ItemsText(rest), "");
        assert item + [','] + ItemsText(rest) + "" == ItemsText(items);
        NoExponentInItems(rest);
    }
    NoExponentInItem(items.item);
  }

  lemma {:induction false} NoExponentInMember(m: Member)
    requires ValidMember(m) && !HasExponentNumber(MemberText(m))
    ensures WithoutExponent(m.item.value)
    decreases m
  {
    ExponentWithin(KeyText(m) + [':'], ItemText(m.item), "");
    assert KeyText(m) + [':'] + ItemText(m.item) + "" == MemberText(m);
    NoExponentInItem(m.item);
  }

  lemma {:induction false} NoExponentInMembers(members: Members)
    requires ValidMembers(members) && !HasExponentNumber(MembersText(members))
    ensures MembersWithout(members)
    decreases members
  {
    var member := MemberText(members.member);
    match members {
      case LastMember(_) =>
        ExponentWithin("", member, ['}']);
        assert "" + member + ['}'] == MembersText(members);
      case MoreMembers(_, rest) =>
        ExponentWithin("", member, [','] + MembersText(rest));
        assert "" + member + ([','] + MembersText(rest)) == MembersText(members);
        ExponentWithin(member + [','], MembersText(rest), "");
        assert member + [','] + MembersText(rest) + "" == MembersText(members);
        NoExponentInMembers(rest);
    }
    NoExponentInMember(members.member);
  }

  // ----- The measure is at most twice the text ---------------------------------------------------------

  lemma {:induction false} CharsBytesConcat(a: string, b: string)
    ensures CharsBytes(a + b) == CharsBytes(a) + CharsBytes(b)
  {
    if |b| == 0 {
      assert a + b == a;
    } else {
      CharsBytesConcat(a, b[..|b| - 1]);
      assert (a + b)[..|a + b| - 1] == a + b[..|b| - 1];
    }
  }

  lemma {:induction false} PieceBound(p: Piece)
    requires PieceOk(p)
    ensures CharBytes(PieceChar(p)) <= Utf8Bytes(PieceText(p))
    ensures p.Hex? ==> Utf8Bytes(PieceText(p)) >= 6
  {
    Utf8AtLeastLength(PieceText(p));
    if p.Raw? {
      assert PieceText(p)[..0] == "" && Utf8Bytes(PieceText(p)) == RuneLen(p.c);
    }
  }

  /** No escape is shorter than what PostgreSQL writes for the character. */
  lemma {:induction false} PiecesBound(pieces: seq<Piece>)
    requires PiecesOk(pieces)
    ensures CharsBytes(Chars(pieces)) <= Utf8Bytes(PiecesText(pieces))
  {
    if |pieces| == 0 {
      return;
    }
    PieceBound(pieces[0]);
    Utf8Concat(PieceText(pieces[0]), PiecesText(pieces[1..]));
    if StartsWithPair(pieces) {
      PiecesBound(pieces[2..]);
      PieceBound(pieces[1]);
      assert pieces[1..][0] == pieces[1] && pieces[1..][1..] == pieces[2..];
      Utf8Concat(PieceText(pieces[1]), PiecesText(pieces[2..]));
      FirstChar(PairChar(Unit(pieces[0].digits), Unit(pieces[1].digits)), Chars(pieces[2..]));
    } else {
      PiecesBound(pieces[1..]);
      FirstChar(PieceChar(pieces[0]), Chars(pieces[1..]));
    }
  }

  lemma {:induction false} FirstChar(c: char, rest: string)
    ensures CharsBytes([c] + rest) == CharBytes(c) + CharsBytes(rest)
  {
    CharsBytesConcat([c], rest);
    assert [c][..0] == "" && CharsBytes([c]) == CharBytes(c);
  }

  lemma {:induction false} LiteralBound(pieces: seq<Piece>)
    requires PiecesOk(pieces)
    ensures StringBytes(Chars(pieces)) <= Utf8Bytes(LiteralText(pieces))
  {
    PiecesBound(pieces);
    Utf8Three(QUOTE, PiecesText(pieces), QUOTE);
    Utf8AtLeastLength(QUOTE);
  }

  /** If no number has an exponent, `Size` is within twice the UTF-8 bytes of `Text`. */
  lemma {:induction false} SizeBound(j: Json)
    requires Valid(j) && WithoutExponent(j) && Utf8Bytes(Text(j)) <= INT_MAX
    ensures Size(j) <= 2 * Utf8Bytes(Text(j))
    decreases j
  {
    Utf8AtLeastLength(Text(j));
    match j {
      case Null => assert ContentSize(j) == 4;
      case Bool(_) => assert ContentSize(j) <= 5;
      case Num(n) => PlainTokenBound(n); assert ContentSize(j) == NumberSize(NumberText(n));
      case Str(pieces) => LiteralBound(pieces); assert ContentSize(j) == StringBytes(Chars(pieces));
      case EmptyArr(_) => assert ContentSize(j) == 2;
      case EmptyObj(_) => assert ContentSize(j) == 2;
      case Arr(items) => ArrayBound(items);
      case Obj(members) => ObjectBound(members);
    }
  }

  lemma {:induction false} ArrayBound(items: Items)
    requires Valid(Arr(items)) && WithoutExponent(Arr(items)) && Utf8Bytes(Text(Arr(items))) <= INT_MAX
    ensures Size(Arr(items)) <= 2 * Utf8Bytes(Text(Arr(items)))
    decreases items, 1
  {
    Utf8Concat(['['], ItemsText(items));
    Utf8AtLeastLength(['[']);
    ItemsBound(items);
    assert ContentSize(Arr(items)) == ItemsSize(items);
  }

  lemma {:induction false} ObjectBound(members: Members)
    requires Valid(Obj(members)) && WithoutExponent(Obj(members)) && Utf8Bytes(Text(Obj(members))) <= INT_MAX
    ensures Size(Obj(members)) <= 2 * Utf8Bytes(Text(Obj(members)))
    decreases members, 1
  {
    Utf8Concat(['{'], MembersText(members));
    Utf8AtLeastLength(['{']);
    MembersBound(members);
    assert ContentSize(Obj(members)) == SumOver(MemberSizes(members));
  }

  lemma {:induction false} ItemBound(i: Item)
    requires ValidItem(i) && WithoutExponent(i.value) && Utf8Bytes(ItemText(i)) <= INT_MAX
    ensures Size(i.value) <= 2 * Utf8Bytes(ItemText(i))
    decreases i
  {
    Utf8Three(i.before, Text(i.value), i.after);
    SizeBound(i.value);
  }

  /** Each comma or bracket of the text pays for a comma and a space. */
  lemma {:induction false} ItemsBound(items: Items)
    requires ValidItems(items) && ItemsWithout(items) && Utf8Bytes(ItemsText(items)) <= INT_MAX
    ensures ItemsSize(items) + 2 * ItemCount(items) <= 2 * Utf8Bytes(ItemsText(items))
    decreases items, 0
  {
    match items {
      case LastItem(item) =>
        Utf8Concat(ItemText(item), [']']);
        Utf8AtLeastLength([']']);
      case MoreItems(item, rest) =>
        Utf8Three(ItemText(item), [','], ItemsText(rest));
        Utf8AtLeastLength([',']);
        ItemsBound(rest);
    }
    ItemBound(items.item);
  }

  lemma {:induction false} MemberBound(m: Member)
    requires ValidMember(m) && WithoutExponent(m.item.value) && Utf8Bytes(MemberText(m)) <= INT_MAX
    ensures MemberSize(m) <= 2 * Utf8Bytes(MemberText(m))
    decreases m
  {
    LiteralBound(m.key);
    Utf8Three(m.before, LiteralText(m.key), m.after);
    Utf8Three(KeyText(m), [':'], ItemText(m.item));
    Utf8AtLeastLength([':']);
    ItemBound(m.item);
  }

  /** A first member that a later one replaces adds nothing. */
  lemma {:induction false} MergeBound(key: string, size: nat, more: map<string, nat>)
    ensures SumOver(map[key := size] + more) <= size + SumOver(more)
    ensures |map[key := size] + more| <= 1 + |more|
  {
    if key in more {
      assert map[key := size] + more == more;
    } else {
      assert map[key := size] + more == more[key := size];
      SumOverUpdate(more, key, size);
    }
  }

  lemma {:induction false} MembersBound(members: Members)
    requires ValidMembers(members) && MembersWithout(members) && Utf8Bytes(MembersText(members)) <= INT_MAX
    ensures SumOver(MemberSizes(members)) + 2 * |MemberSizes(members)| <= 2 * Utf8Bytes(MembersText(members))
    decreases members, 0
  {
    var m := members.member;
    match members {
      case LastMember(_) =>
        MergeBound(Chars(m.key), MemberSize(m), map[]);
        Utf8Concat(MemberText(m), ['}']);
        Utf8AtLeastLength(['}']);
      case MoreMembers(_, rest) =>
        Utf8Three(MemberText(m), [','], MembersText(rest));
        Utf8AtLeastLength([',']);
        MembersBound(rest);
        MergeBound(Chars(m.key), MemberSize(m), MemberSizes(rest));
    }
    MemberBound(m);
  }

  /** The shortcut for short texts accepts no value that the measure would refuse. */
  lemma {:induction false} DoublingBound(document: Item)
    requires ValidItem(document) && !HasExponentNumber(ItemText(document)) && Utf8Bytes(ItemText(document)) <= INT_MAX
    ensures JsonbTextBytes(Decode(document.value)) <= 2 * Utf8Bytes(ItemText(document))
  {
    NoExponentInItem(document);
    ItemBound(document);
    SizeIsMeasure(document.value);
  }

  // ----- The tokens of a document are no longer than its text ------------------------------------------

  lemma {:induction false} TokensAreShort(j: Json)
    requires Valid(j) && |Text(j)| <= INT_MAX
    ensures ShortTokens(Decode(j))
    decreases j
  {
    match j {
      case Arr(items) => ItemTokensAreShort(items);
      case Obj(members) => MemberTokensAreShort(members);
      case _ =>
    }
  }

  lemma {:induction false} ItemTokensAreShort(items: Items)
    requires ValidItems(items) && |ItemsText(items)| <= INT_MAX
    ensures forall i :: 0 <= i < |DecodeItems(items)| ==> ShortTokens(DecodeItems(items)[i])
    decreases items
  {
    TokensAreShort(items.item.value);
    if items.MoreItems? {
      ItemTokensAreShort(items.rest);
    }
  }

  lemma {:induction false} MemberTokensAreShort(members: Members)
    requires ValidMembers(members) && |MembersText(members)| <= INT_MAX
    ensures forall k :: k in DecodeMembers(members) ==> ShortTokens(DecodeMembers(members)[k])
    decreases members
  {
    var m := members.member;
    assert ValidMember(m) && |MemberText(m)| <= |MembersText(members)|;
    assert ValidItem(m.item) && |ItemText(m.item)| <= |MemberText(m)|;
    TokensAreShort(m.item.value);
    if members.MoreMembers? {
      MemberTokensAreShort(members.rest);
    }
  }

  /** Every jsonb text of the value has the length that the machine measures, if that is exact. */
  lemma {:induction false} TextDecides(v: Value)
    requires ShortTokens(v)
    ensures forall text :: JsonbText.Writes(v, text) && |Encode(text)| <= INT_MAX && PointsFit(v) ==>
              Wrap(JsonbTextBytes(v)) == |Encode(text)| == ExactBytes(v)
  {
    forall text | JsonbText.Writes(v, text) && |Encode(text)| <= INT_MAX && PointsFit(v)
      ensures Wrap(JsonbTextBytes(v)) == |Encode(text)| == ExactBytes(v)
    {
      JsonbText.MeasureIsTextLength(v, text);
      JsonbText.TextHasExactSize(v, text);
      Utf8BytesIsLength(text);
    }
  }

  /**
   A value is refused exactly when there is a limit and the measure is above it. Where the length of its
   jsonb text fits a machine integer and so does the point of every number, that is exactly when the text is
   longer than the limit, and the length is what the refusal reports.
   */
  method CheckValueSize(encoded: string, decoded: Value, maxBytes: int, ghost document: Item) returns (refused: Option<int>)
    requires ValidItem(document) && encoded == ItemText(document) && decoded == Decode(document.value)
    requires 2 * Utf8Bytes(encoded) <= INT_MAX && maxBytes <= INT_MAX
    ensures refused.Some? <==> maxBytes > 0 && Wrap(JsonbTextBytes(decoded)) > maxBytes
    ensures refused.Some? ==> refused.value == Wrap(JsonbTextBytes(decoded))
    ensures ExactBytes(decoded) <= INT_MAX && PointsFit(decoded) ==>
              (refused.Some? <==> maxBytes > 0 && ExactBytes(decoded) > maxBytes)
    ensures forall text :: JsonbText.Writes(decoded, text) && |Encode(text)| <= INT_MAX && PointsFit(decoded) ==>
              refused == if maxBytes > 0 && |Encode(text)| > maxBytes then Some(|Encode(text)|) else None
  {
    Utf8AtLeastLength(encoded);
    TokensAreShort(document.value);
    MeasureIsExactly(decoded);
    var hasExponent := FindExponentNumber(encoded);
    if maxBytes <= 0 || (Utf8Bytes(encoded) * 2 <= maxBytes && !hasExponent) {
      if !hasExponent {
        DoublingBound(document);
      }
      TextDecides(decoded);
      return None;
    }
    var actual := Measure(decoded);
    TextDecides(decoded);
    return if actual > maxBytes then Some(actual) else None;
  }
}
