/** A parser that gives back the syntax tree of any JSON text, so that a text has one tree only. */
module JsonParser {
  import opened Prelude
  import opened Decimal
  import opened JsonNumbers
  import opened JsonSyntax
  import opened JsonTokens
  import opened Sequences

  datatype Parsed<T> = Failed | Parsed(value: T, rest: string)

  // ----- Tokens ----------------------------------------------------------------------------------------

  function ParseExponent(marker: char, text: string): Exponent {
    if |text| > 0 && (text[0] == '+' || text[0] == '-') then Exponent(marker, Some(text[0]), text[1..])
    else Exponent(marker, None, text)
  }

  function ParseUnsigned(negative: bool, text: string): Number {
    var at := IndexOf(ToLower(text), 'e');
    var mantissa := Cut(text[..at], '.');
    Number(negative, mantissa.before, if mantissa.found then Some(mantissa.after) else None,
           if at < |text| then Some(ParseExponent(text[at], text[at + 1..])) else None)
  }

  function ParseNumber(token: string): Number {
    ParseUnsigned(|token| > 0 && token[0] == '-', TrimPrefix(token, '-'))
  }

  lemma {:induction false} MarkerIndex(n: Number)
    requires IsNumber(n)
    ensures IndexOf(ToLower(UnsignedText(n)), 'e') == |MantissaText(n)|
  {
    assert "" + UnsignedText(n) == UnsignedText(n) && "" + MantissaText(n) == MantissaText(n);
    MarkerCut(n, "");
  }

  lemma {:induction false} UnsignedParses(n: Number)
    requires IsNumber(n)
    ensures ParseUnsigned(n.negative, UnsignedText(n)) == n
  {
    var text, at := UnsignedText(n), |MantissaText(n)|;
    MarkerIndex(n);
    PointCut(n);
    assert text[..at] == MantissaText(n);
    if n.exponent.Some? {
      var e := n.exponent.value;
      assert text[at] == e.marker && text[at + 1..] == ExponentSign(e) + e.digits;
      assert ParseExponent(e.marker, ExponentSign(e) + e.digits) == e;
    }
  }

  lemma {:induction false} NumberParses(n: Number)
    requires IsNumber(n)
    ensures ParseNumber(NumberText(n)) == n
  {
    SignTrimmed(n);
    UnsignedParses(n);
    assert !n.negative ==> NumberText(n)[0] == n.whole[0];
  }

  function SpaceLength(text: string): (n: nat)
    ensures n <= |text|
  {
    if |text| > 0 && IsSpace(text[0]) then 1 + SpaceLength(text[1..]) else 0
  }

  /** The text goes on with something that ends white space. */
  predicate EndsSpace(rest: string) { |rest| > 0 && !IsSpace(rest[0]) }

  lemma {:induction false} SpacesLength(s: string, rest: string)
    requires IsSpaces(s) && (EndsSpace(rest) || rest == "")
    ensures SpaceLength(s + rest) == |s|
  {
    if |s| == 0 {
      assert s + rest == rest;
    } else {
      SpacesLength(s[1..], rest);
      assert (s + rest)[1..] == s[1..] + rest;
    }
  }

  function ParseLiteral(text: string): (r: Parsed<seq<Piece>>)
    ensures r.Parsed? ==> |r.rest| < |text|
  {
    if |text| == 0 || text[0] != '"' then Failed
    else
      var n := LiteralLength(text[1..]);
      if n + 1 < |text| then Parsed(ParsePieces(text[1..n + 1]), text[n + 2..]) else Failed
  }

  lemma {:induction false} LiteralParses(pieces: seq<Piece>, rest: string)
    requires PiecesOk(pieces)
    ensures ParseLiteral(LiteralText(pieces) + rest) == Parsed(pieces, rest)
  {
    var text, inner := LiteralText(pieces) + rest, PiecesText(pieces);
    PiecesLength(pieces, rest);
    PiecesParse(pieces);
    assert text[1..] == inner + QUOTE + rest;
    assert text[1..|inner| + 1] == inner && text[|inner| + 2..] == rest;
  }

  // ----- Values ------------------------------------------------------------------------------------------

  predicate StartsWith(text: string, word: string) { |word| <= |text| && text[..|word|] == word }

  function ParseValue(text: string): (r: Parsed<Json>)
    ensures r.Parsed? ==> |r.rest| < |text|
    decreases |text|, 1
  {
    if |text| == 0 then Failed else ParseToken(text)
  }

  function ParseToken(text: string): (r: Parsed<Json>)
    requires |text| > 0
    ensures r.Parsed? ==> |r.rest| < |text|
    decreases |text|, 0
  {
    if text[0] == '"' then
      var literal := ParseLiteral(text);
      if literal.Failed? then Failed else Parsed(Str(literal.value), literal.rest)
    else if text[0] == '[' then ParseArray(text[1..])
    else if text[0] == '{' then ParseObject(text[1..])
    else ParseScalar(text)
  }

  function ParseScalar(text: string): (r: Parsed<Json>)
    ensures r.Parsed? ==> |r.rest| < |text|
  {
    var n := NumberLength(text);
    if n > 0 then Parsed(Num(ParseNumber(text[..n])), text[n..])
    else if StartsWith(text, "null") then Parsed(Null, text[4..])
    else if StartsWith(text, "true") then Parsed(Bool(true), text[4..])
    else if StartsWith(text, "false") then Parsed(Bool(false), text[5..])
    else Failed
  }

  function ParseArray(text: string): (r: Parsed<Json>)
    ensures r.Parsed? ==> |r.rest| < |text|
    decreases |text|, 5
  {
    var n := SpaceLength(text);
    if n < |text| && text[n] == ']' then Parsed(EmptyArr(text[..n]), text[n + 1..])
    else
      var items := ParseItems(text);
      if items.Failed? then Failed else Parsed(Arr(items.value), items.rest)
  }

  function ParseObject(text: string): (r: Parsed<Json>)
    ensures r.Parsed? ==> |r.rest| < |text|
    decreases |text|, 5
  {
    var n := SpaceLength(text);
    if n < |text| && text[n] == '}' then Parsed(EmptyObj(text[..n]), text[n + 1..])
    else
      var members := ParseMembers(text);
      if members.Failed? then Failed else Parsed(Obj(members.value), members.rest)
  }

  function ParseItem(text: string): (r: Parsed<Item>)
    ensures r.Parsed? ==> |r.rest| < |text|
    decreases |text|, 2
  {
    var before := SpaceLength(text);
    var v := ParseValue(text[before..]);
    if v.Failed? then Failed
    else
      var after := SpaceLength(v.rest);
      Parsed(Item(text[..before], v.value, v.rest[..after]), v.rest[after..])
  }

  function ParseItems(text: string): (r: Parsed<Items>)
    ensures r.Parsed? ==> |r.rest| < |text|
    decreases |text|, 4
  {
    var item := ParseItem(text);
    if item.Failed? || |item.rest| == 0 then Failed
    else if item.rest[0] == ']' then Parsed(LastItem(item.value), item.rest[1..])
    else if item.rest[0] != ',' then Failed
    else
      var more := ParseItems(item.rest[1..]);
      if more.Failed? then Failed else Parsed(MoreItems(item.value, more.value), more.rest)
  }

  function ParseMember(text: string): (r: Parsed<Member>)
    ensures r.Parsed? ==> |r.rest| < |text|
    decreases |text|, 3
  {
    var before := SpaceLength(text);
    var key := ParseLiteral(text[before..]);
    if key.Failed? then Failed
    else
      var after := SpaceLength(key.rest);
      if after == |key.rest| || key.rest[after] != ':' then Failed
      else
        var item := ParseItem(key.rest[after + 1..]);
        if item.Failed? then Failed
        else Parsed(Member(text[..before], key.value, key.rest[..after], item.value), item.rest)
  }

  function ParseMembers(text: string): (r: Parsed<Members>)
    ensures r.Parsed? ==> |r.rest| < |text|
    decreases |text|, 4
  {
    var member := ParseMember(text);
    if member.Failed? || |member.rest| == 0 then Failed
    else if member.rest[0] == '}' then Parsed(LastMember(member.value), member.rest[1..])
    else if member.rest[0] != ',' then Failed
    else
      var more := ParseMembers(member.rest[1..]);
      if more.Failed? then Failed else Parsed(MoreMembers(member.value, more.value), more.rest)
  }

  // ----- Every text parses back to its tree ----------------------------------------------------------------

  predicate Follows(rest: string) { |rest| == 0 || (!IsSpace(rest[0]) && !IsNumberByte(rest[0])) }

  /** A value starts with neither white space nor a closing bracket. */
  lemma {:induction false} TextStarts(j: Json)
    requires Valid(j)
    ensures |Text(j)| > 0 && !IsSpace(Text(j)[0]) && Text(j)[0] != ']'
  {
    if j.Num? {
      NumberBytes(j.number);
    }
  }

  lemma {:induction false} ScalarParses(j: Json, rest: string)
    requires Valid(j) && EndsNumber(rest) && (j.Null? || j.Bool? || j.Num?)
    ensures ParseValue(Text(j) + rest) == Parsed(j, rest)
  {
    var text := Text(j) + rest;
    match j {
      case Num(n) =>
        NumberTextLength(n, rest);
        NumberParses(n);
        assert text[..|NumberText(n)|] == NumberText(n) && text[|NumberText(n)|..] == rest;
      case Null =>
        assert text[..4] == "null" && text[4..] == rest;
      case Bool(value) =>
        assert text[..|Text(j)|] == Text(j) && text[|Text(j)|..] == rest;
    }
    assert ParseToken(text) == ParseScalar(text);
  }

  lemma {:induction false} StrParses(pieces: seq<Piece>, rest: string)
    requires PiecesOk(pieces)
    ensures ParseValue(LiteralText(pieces) + rest) == Parsed(Str(pieces), rest)
  {
    LiteralParses(pieces, rest);
    assert ParseToken(LiteralText(pieces) + rest) == Parsed(Str(pieces), rest);
  }

  lemma {:induction false} EmptyParses(j: Json, rest: string)
    requires Valid(j) && (j.EmptyArr? || j.EmptyObj?)
    ensures ParseValue(Text(j) + rest) == Parsed(j, rest)
  {
    var open, close := if j.EmptyArr? then '[' else '{', if j.EmptyArr? then ']' else '}';
    var text := Text(j) + rest;
    assert text[1..] == j.space + ([close] + rest);
    SpacesLength(j.space, [close] + rest);
    assert (j.space + ([close] + rest))[..|j.space|] == j.space;
    assert (j.space + ([close] + rest))[|j.space| + 1..] == rest;
    assert text[0] == open;
    assert ParseToken(text) == Parsed(j, rest);
  }

  lemma {:induction false} Parses(j: Json, rest: string)
    requires Valid(j) && EndsNumber(rest)
    ensures ParseValue(Text(j) + rest) == Parsed(j, rest)
    decreases j, 0
  {
    match j {
      case Str(pieces) => StrParses(pieces, rest);
      case EmptyArr(_) => EmptyParses(j, rest);
      case EmptyObj(_) => EmptyParses(j, rest);
      case Arr(items) => ArrayParses(items, rest);
      case Obj(members) => ObjectParses(members, rest);
      case _ => ScalarParses(j, rest);
    }
  }

  lemma {:induction false} Split(s: string, t: string)
    ensures (s + t)[..|s|] == s && (s + t)[|s|..] == t
  {
  }

  lemma {:induction false} SpacesFollow(s: string, rest: string)
    requires IsSpaces(s) && Follows(rest)
    ensures EndsNumber(s + rest) && SpaceLength(s + rest) == |s|
  {
    SpacesLength(s, rest);
  }

  lemma {:induction false} ItemParses(i: Item, rest: string)
    requires ValidItem(i) && Follows(rest)
    ensures ParseItem(ItemText(i) + rest) == Parsed(i, rest)
    decreases i, 0
  {
    var tail := Text(i.value) + (i.after + rest);
    Regroup(i.before, Text(i.value), i.after, rest);
    TextStarts(i.value);
    SpacesLength(i.before, tail);
    Split(i.before, tail);
    SpacesFollow(i.after, rest);
    Parses(i.value, i.after + rest);
    Split(i.after, rest);
  }

  lemma {:induction false} ItemsParse(items: Items, rest: string)
    requires ValidItems(items)
    ensures ParseItems(ItemsText(items) + rest) == Parsed(items, rest)
    decreases items, 0
  {
    match items {
      case LastItem(item) =>
        Associate(ItemText(item), [']'], rest);
        ItemParses(item, [']'] + rest);
        Split([']'], rest);
      case MoreItems(item, more) =>
        Regroup(ItemText(item), [','], ItemsText(more), rest);
        ItemParses(item, [','] + (ItemsText(more) + rest));
        Split([','], ItemsText(more) + rest);
        ItemsParse(more, rest);
    }
  }

  lemma {:induction false} Opens(inner: string)
    ensures ParseValue(['['] + inner) == ParseArray(inner)
    ensures ParseValue(['{'] + inner) == ParseObject(inner)
  {
    Split(['['], inner);
    Split(['{'], inner);
    assert ParseToken(['['] + inner) == ParseArray(inner);
    assert ParseToken(['{'] + inner) == ParseObject(inner);
  }

  lemma {:induction false} ArrayParses(items: Items, rest: string)
    requires ValidItems(items)
    ensures ParseValue(Text(Arr(items)) + rest) == Parsed(Arr(items), rest)
    decreases items, 1
  {
    var inner := ItemsText(items) + rest;
    ItemsParse(items, rest);
    ItemsStart(items.item, inner);
    assert ParseArray(inner) == Parsed(Arr(items), rest);
    Associate(['['], ItemsText(items), rest);
    Opens(inner);
  }

  lemma {:induction false} ItemsStart(item: Item, text: string)
    requires ValidItem(item) && StartsWith(text, ItemText(item))
    ensures SpaceLength(text) < |text| && text[SpaceLength(text)] != ']'
  {
    var tail := text[|item.before|..];
    TextStarts(item.value);
    assert text[..|ItemText(item)|] == item.before + Text(item.value) + item.after;
    assert text[|item.before|] == Text(item.value)[0];
    assert text == item.before + tail;
    SpacesLength(item.before, tail);
  }

  lemma {:induction false} MemberParses(m: Member, rest: string)
    requires ValidMember(m) && Follows(rest)
    ensures ParseMember(MemberText(m) + rest) == Parsed(m, rest)
    decreases m, 0
  {
    var inner := ItemText(m.item) + rest;
    var tail := LiteralText(m.key) + (m.after + ([':'] + inner));
    MemberRegroups(m, rest);
    SpacesLength(m.before, tail);
    Split(m.before, tail);
    LiteralParses(m.key, m.after + ([':'] + inner));
    SpacesLength(m.after, [':'] + inner);
    Split(m.after, [':'] + inner);
    Split([':'], inner);
    AfterColon(m.after, inner);
    ItemParses(m.item, rest);
  }

  lemma {:induction false} MemberRegroups(m: Member, rest: string)
    ensures MemberText(m) + rest == m.before + (LiteralText(m.key) + (m.after + ([':'] + (ItemText(m.item) + rest))))
  {
    Regroup(KeyText(m), [':'], ItemText(m.item), rest);
    Regroup(m.before, LiteralText(m.key), m.after, [':'] + (ItemText(m.item) + rest));
  }

  lemma {:induction false} AfterColon(space: string, inner: string)
    ensures (space + ([':'] + inner))[|space|] == ':' && (space + ([':'] + inner))[|space| + 1..] == inner
  {
  }

  lemma {:induction false} LastMemberStep(text: string, m: Member, rest: string)
    requires ParseMember(text) == Parsed(m, ['}'] + rest)
    ensures ParseMembers(text) == Parsed(LastMember(m), rest)
  {
    Split(['}'], rest);
  }

  lemma {:induction false} MoreMembersStep(text: string, m: Member, inner: string, more: Members, rest: string)
    requires ParseMember(text) == Parsed(m, [','] + inner) && ParseMembers(inner) == Parsed(more, rest)
    ensures ParseMembers(text) == Parsed(MoreMembers(m, more), rest)
  {
    Split([','], inner);
  }

  lemma {:induction false} MembersParse(members: Members, rest: string)
    requires ValidMembers(members)
    ensures ParseMembers(MembersText(members) + rest) == Parsed(members, rest)
    decreases members, 0
  {
    var text := MembersText(members) + rest;
    match members {
      case LastMember(m) =>
        Associate(MemberText(m), ['}'], rest);
        MemberParses(m, ['}'] + rest);
        LastMemberStep(text, m, rest);
      case MoreMembers(m, more) =>
        var inner := MembersText(more) + rest;
        Regroup(MemberText(m), [','], MembersText(more), rest);
        MemberParses(m, [','] + inner);
        MembersParse(more, rest);
        MoreMembersStep(text, m, inner, more, rest);
    }
  }

  lemma {:induction false} MemberStarts(m: Member, rest: string)
    requires ValidMember(m)
    ensures var text := MemberText(m) + rest; SpaceLength(text) < |text| && text[SpaceLength(text)] != '}'
  {
    MemberRegroups(m, rest);
    SpacesLength(m.before, LiteralText(m.key) + (m.after + ([':'] + (ItemText(m.item) + rest))));
  }

  lemma {:induction false} MembersStart(members: Members, rest: string)
    requires ValidMembers(members)
    ensures var text := MembersText(members) + rest; SpaceLength(text) < |text| && text[SpaceLength(text)] != '}'
  {
    var m := members.member;
    match members {
      case LastMember(_) =>
        Associate(MemberText(m), ['}'], rest);
        MemberStarts(m, ['}'] + rest);
      case MoreMembers(_, more) =>
        Regroup(MemberText(m), [','], MembersText(more), rest);
        MemberStarts(m, [','] + (MembersText(more) + rest));
    }
  }

  lemma {:induction false} ObjectInner(members: Members, rest: string)
    requires ValidMembers(members)
    ensures ParseObject(MembersText(members) + rest) == Parsed(Obj(members), rest)
    decreases members, 1
  {
    MembersParse(members, rest);
    MembersStart(members, rest);
  }

  lemma {:induction false} ObjectParses(members: Members, rest: string)
    requires ValidMembers(members)
    ensures ParseValue(Text(Obj(members)) + rest) == Parsed(Obj(members), rest)
    decreases members, 2
  {
    var inner := MembersText(members) + rest;
    assert Text(Obj(members)) + rest == ['{'] + inner by {
      Associate(['{'], MembersText(members), rest);
    }
    Opens(inner);
    ObjectInner(members, rest);
  }

  /** A document is read back from its text, so two documents never share a text. */
  lemma {:induction false} DocumentParses(document: Item)
    requires ValidItem(document)
    ensures ParseItem(ItemText(document)) == Parsed(document, "")
  {
    ItemParses(document, "");
    assert ItemText(document) + "" == ItemText(document);
  }
}
