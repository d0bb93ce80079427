/** The scanner that measures jsonb text from the tokens of encoded JSON, with a stack of open containers. */
module JsonbScanner {
  import opened Prelude
  import opened JsonNumbers
  import opened JsonSyntax
  import opened JsonTokens
  import opened NumericText
  import opened JsonbSize

  /** An open array sums and counts its elements; an open object has one size per key, the latest. */
  datatype Container = Container(isObject: bool, members: map<string, nat>, bytes: nat, count: nat, key: string)

  datatype Scanner = Scanner(stack: seq<Container>, result: nat, expectKey: bool)

  const START := Scanner([], 0, false)

  function Top(st: Scanner): Container
    requires |st.stack| > 0
  {
    st.stack[|st.stack| - 1]
  }

  function SetTop(st: Scanner, top: Container): Scanner
    requires |st.stack| > 0
  {
    st.(stack := st.stack[|st.stack| - 1 := top])
  }

  /** A value of `bytes` joins the top frame; with an empty stack it is the result. */
  function Add(st: Scanner, bytes: nat): Scanner {
    if |st.stack| == 0 then st.(result := bytes)
    else
      var top := Top(st);
      if top.isObject then SetTop(st, top.(members := top.members[top.key := StringBytes(top.key) + 2 + bytes]))
      else SetTop(st, top.(bytes := top.bytes + bytes, count := top.count + 1))
  }

  function Opened(st: Scanner, isObject: bool): Scanner {
    st.(stack := st.stack + [Container(isObject, map[], 0, 0, "")], expectKey := isObject)
  }

  function Below(st: Scanner): Scanner
    requires |st.stack| > 0
  {
    st.(stack := st.stack[..|st.stack| - 1], expectKey := false)
  }

  ghost function AddObject(below: Scanner, members: map<string, nat>): Scanner {
    Add(below, Enclosed(|members|, SumOver(members)))
  }

  ghost function Closed(st: Scanner): Scanner {
    if |st.stack| == 0 then st
    else if Top(st).isObject then AddObject(Below(st), Top(st).members)
    else Add(Below(st), Enclosed(Top(st).count, Top(st).bytes))
  }

  function Separated(st: Scanner): Scanner { st.(expectKey := |st.stack| > 0 && Top(st).isObject) }

  function Quoted(st: Scanner, text: string): Scanner {
    if st.expectKey && |st.stack| > 0 then SetTop(st, Top(st).(key := text)).(expectKey := false)
    else Add(st, StringBytes(text))
  }

  /** The length of the first token. */
  function Consumed(text: string): (n: nat)
    requires |text| > 0
    ensures 1 <= n <= |text|
  {
    var c := text[0];
    if c == '"' then Min(LiteralLength(text[1..]) + 2, |text|)
    else if c == 't' || c == 'n' then Min(4, |text|)
    else if c == 'f' then Min(5, |text|)
    else if IsNumberByte(c) then NumberLength(text)
    else 1
  }

  /** The scanner after a token of one character. White space and colons change nothing. */
  ghost function Marked(c: char, st: Scanner): Scanner {
    if c == '{' || c == '[' then Opened(st, c == '{')
    else if c == '}' || c == ']' then Closed(st)
    else if c == ',' then Separated(st)
    else st
  }

  /** The scanner after the first token of `text`. */
  ghost function After(text: string, st: Scanner): Scanner
    requires |text| > 0
  {
    var c := text[0];
    if c == '"' then Quoted(st, Unquote(text[1..][..LiteralLength(text[1..])]))
    else if c == 't' || c == 'n' then Add(st, 4)
    else if c == 'f' then Add(st, 5)
    else if IsNumberByte(c) then Add(st, NumberSize(text[..NumberLength(text)]))
    else Marked(c, st)
  }

  ghost function Scan(text: string, st: Scanner): Scanner
    decreases |text|, 1
  {
    if |text| == 0 then st else Next(text, st)
  }

  ghost function Next(text: string, st: Scanner): Scanner
    requires |text| > 0
    decreases |text|, 0
  {
    Scan(text[Consumed(text)..], After(text, st))
  }

  // ----- Tokens ----------------------------------------------------------------------------------------

  lemma {:induction false} ScanToken(token: string, rest: string, st: Scanner)
    requires |token| > 0 && Consumed(token + rest) == |token|
    ensures Scan(token + rest, st) == Scan(rest, After(token + rest, st))
  {
    assert (token + rest)[|token|..] == rest;
    assert Next(token + rest, st) == Scan(rest, After(token + rest, st));
  }

  predicate IsMark(c: char) { c != '"' && c != 't' && c != 'n' && c != 'f' && !IsNumberByte(c) }

  lemma {:induction false} ScanMark(c: char, rest: string, st: Scanner)
    requires IsMark(c)
    ensures Scan([c] + rest, st) == Scan(rest, Marked(c, st))
  {
    ScanToken([c], rest, st);
  }

  lemma {:induction false} ScanSpace(c: char, rest: string, st: Scanner)
    requires IsSpaces([c])
    ensures Scan([c] + rest, st) == Scan(rest, st)
  {
    assert [c][0] == c;
    ScanMark(c, rest, st);
  }

  lemma {:induction false} ScanSpaces(s: string, rest: string, st: Scanner)
    requires IsSpaces(s)
    ensures Scan(s + rest, st) == Scan(rest, st)
  {
    if |s| == 0 {
      assert s + rest == rest;
    } else {
      assert IsSpaces(s[1..]) && IsSpaces([s[0]]);
      ScanSpaces(s[1..], rest, st);
      ScanSpace(s[0], s[1..] + rest, st);
      assert s + rest == [s[0]] + (s[1..] + rest);
    }
  }

  lemma {:induction false} LiteralIsRead(pieces: seq<Piece>, rest: string)
    requires PiecesOk(pieces)
    ensures var text := LiteralText(pieces) + rest;
            && text[0] == '"' && LiteralLength(text[1..]) == |PiecesText(pieces)|
            && text[1..][..|PiecesText(pieces)|] == PiecesText(pieces)
  {
    PiecesLength(pieces, rest);
    assert (LiteralText(pieces) + rest)[1..] == PiecesText(pieces) + QUOTE + rest;
  }

  lemma {:induction false} UnquoteReads(pieces: seq<Piece>)
    requires PiecesOk(pieces)
    ensures Unquote(PiecesText(pieces)) == Chars(pieces)
  {
    PiecesParse(pieces);
  }

  lemma {:induction false} ScanLiteral(pieces: seq<Piece>, rest: string, st: Scanner)
    requires PiecesOk(pieces)
    ensures Scan(LiteralText(pieces) + rest, st) == Scan(rest, Quoted(st, Chars(pieces)))
  {
    LiteralIsRead(pieces, rest);
    UnquoteReads(pieces);
    ScanToken(LiteralText(pieces), rest, st);
  }

  lemma {:induction false} ScanNumber(n: Number, rest: string, st: Scanner)
    requires IsNumber(n) && EndsNumber(rest)
    ensures Scan(NumberText(n) + rest, st) == Scan(rest, Add(st, NumberSize(NumberText(n))))
  {
    NumberTextLength(n, rest);
    assert (NumberText(n) + rest)[..|NumberText(n)|] == NumberText(n);
    ScanToken(NumberText(n), rest, st);
  }

  lemma {:induction false} ScanWord(word: string, rest: string, st: Scanner)
    requires word == "null" || word == "true" || word == "false"
    ensures Scan(word + rest, st) == Scan(rest, Add(st, |word|))
  {
    ScanToken(word, rest, st);
  }

  // ----- Sizes of documents ----------------------------------------------------------------------------

  /** The size of a document, by its syntax. */
  ghost function Size(j: Json): nat
    decreases j, 1
  {
    match j
    case Arr(items) => Enclosed(ItemCount(items), ContentSize(j))
    case Obj(members) => Enclosed(|MemberSizes(members)|, ContentSize(j))
    case _ => ContentSize(j)
  }

  /** The text of a scalar or an empty container, or of the entries of another container. */
  ghost function ContentSize(j: Json): nat
    decreases j, 0
  {
    match j
    case Null => 4
    case Bool(value) => if value then 4 else 5
    case Num(n) => NumberSize(NumberText(n))
    case Str(pieces) => StringBytes(Chars(pieces))
    case EmptyArr(_) => 2
    case Arr(items) => ItemsSize(items)
    case EmptyObj(_) => 2
    case Obj(members) => SumOver(MemberSizes(members))
  }

  ghost function ItemCount(items: Items): nat
    decreases items
  {
    1 + if items.MoreItems? then ItemCount(items.rest) else 0
  }

  ghost function ItemsSize(items: Items): nat
    decreases items
  {
    Size(items.item.value) + if items.MoreItems? then ItemsSize(items.rest) else 0
  }

  ghost function MemberSize(m: Member): nat
    decreases m
  {
    StringBytes(Chars(m.key)) + 2 + Size(m.item.value)
  }

  ghost function MemberSizes(members: Members): map<string, nat>
    decreases members
  {
    map[Chars(members.member.key) := MemberSize(members.member)]
    + if members.MoreMembers? then MemberSizes(members.rest) else map[]
  }

  lemma {:induction false} ElementsBytesConcat(xs: seq<Value>, ys: seq<Value>)
    ensures ElementsBytes(xs + ys) == ElementsBytes(xs) + ElementsBytes(ys)
  {
    if |ys| == 0 {
      assert xs + ys == xs;
    } else {
      ElementsBytesConcat(xs, ys[..|ys| - 1]);
      assert (xs + ys)[..|xs + ys| - 1] == xs + ys[..|ys| - 1];
    }
  }

  lemma {:induction false} ItemsMeasure(items: Items)
    ensures ItemCount(items) == |DecodeItems(items)| && ItemsSize(items) == ElementsBytes(DecodeItems(items))
    decreases items, 0
  {
    SizeIsMeasure(items.item.value);
    var first := [Decode(items.item.value)];
    assert ElementsBytes(first) == Size(items.item.value);
    if items.MoreItems? {
      ItemsMeasure(items.rest);
      ElementsBytesConcat(first, DecodeItems(items.rest));
    } else {
      assert first + [] == first;
    }
  }

  lemma {:induction false} SizesAt(members: map<string, Value>, k: string)
    requires k in members
    ensures k in Sizes(members) && Sizes(members)[k] == EntrySize(k, members[k])
  {
  }

  lemma {:induction false} SizesFirst(key: string, v: Value, more: map<string, Value>)
    ensures Sizes(map[key := v] + more) == map[key := EntrySize(key, v)] + Sizes(more)
  {
    var all := map[key := v] + more;
    var sizes := map[key := EntrySize(key, v)] + Sizes(more);
    assert Sizes(all).Keys == all.Keys == sizes.Keys;
    forall k | k in all ensures Sizes(all)[k] == sizes[k] {
      SizesAt(all, k);
      if k in more {
        SizesAt(more, k);
      }
    }
  }

  lemma {:induction false} MemberMeasure(m: Member)
    ensures MemberSize(m) == EntrySize(Chars(m.key), Decode(m.item.value))
    decreases m
  {
    SizeIsMeasure(m.item.value);
  }

  lemma {:induction false} MembersMeasure(members: Members)
    ensures MemberSizes(members) == Sizes(DecodeMembers(members))
    decreases members, 0
  {
    var m := members.member;
    var more := if members.MoreMembers? then DecodeMembers(members.rest) else map[];
    MemberMeasure(m);
    SizesFirst(Chars(m.key), Decode(m.item.value), more);
    if members.MoreMembers? {
      MembersMeasure(members.rest);
    } else {
      assert Sizes(more) == map[];
    }
  }

  lemma {:induction false} ArrayMeasure(items: Items)
    ensures Size(Arr(items)) == JsonbTextBytes(VArray(DecodeItems(items)))
    decreases items, 1
  {
    ItemsMeasure(items);
    assert ContentSize(Arr(items)) == ItemsSize(items);
    assert ContentBytes(VArray(DecodeItems(items))) == ElementsBytes(DecodeItems(items));
  }

  lemma {:induction false} ObjectSize(members: Members)
    ensures Size(Obj(members)) == Enclosed(|MemberSizes(members)|, SumOver(MemberSizes(members)))
  {
    assert ContentSize(Obj(members)) == SumOver(MemberSizes(members));
  }

  lemma {:induction false} SizesCount(members: map<string, Value>)
    ensures |Sizes(members)| == |members|
  {
    assert Sizes(members).Keys == members.Keys;
  }

  lemma {:induction false} ObjectMeasure(members: Members, decoded: map<string, Value>)
    requires decoded == DecodeMembers(members)
    ensures Size(Obj(members)) == JsonbTextBytes(VObject(decoded))
    decreases members, 1
  {
    MembersMeasure(members);
    ObjectSize(members);
    ObjectBytes(decoded);
    SizesCount(decoded);
  }

  /** The size by the syntax is the measure of the decoded value, where the last member of a key wins. */
  lemma {:induction false} SizeIsMeasure(j: Json)
    ensures Size(j) == JsonbTextBytes(Decode(j))
    decreases j
  {
    match j {
      case Null =>
      case Bool(_) =>
      case Num(_) =>
      case Str(_) =>
      case EmptyArr(_) =>
      case Arr(items) => ArrayMeasure(items);
      case EmptyObj(_) => ObjectBytes(map[]);
      case Obj(members) => ObjectMeasure(members, DecodeMembers(members));
    }
  }

  // ----- Scanning documents ----------------------------------------------------------------------------

  lemma {:induction false} SpacesEndNumber(s: string, rest: string)
    requires IsSpaces(s) && EndsNumber(rest)
    ensures EndsNumber(s + rest)
  {
  }

  /** Whatever containers are open, the text of a value adds its size to the innermost one. */
  lemma {:induction false} ScanValue(j: Json, rest: string, st: Scanner)
    requires Valid(j) && EndsNumber(rest) && !st.expectKey
    ensures Scan(Text(j) + rest, st) == Scan(rest, Add(st, Size(j)))
    decreases j
  {
    match j {
      case Null => ScanWord("null", rest, st);
      case Bool(value) => ScanWord(Text(j), rest, st);
      case Num(n) => ScanNumber(n, rest, st);
      case Str(pieces) => ScanLiteral(pieces, rest, st);
      case EmptyArr(space) => ScanEmpty('[', space, ']', rest, st);
      case EmptyObj(space) => ScanEmpty('{', space, '}', rest, st);
      case Arr(items) => ScanArray(items, rest, st);
      case Obj(members) => ScanObject(members, rest, st);
    }
  }

  lemma {:induction false} ScanEmpty(open: char, space: string, close: char, rest: string, st: Scanner)
    requires (open == '[' && close == ']') || (open == '{' && close == '}')
    requires IsSpaces(space) && !st.expectKey
    ensures Scan([open] + space + [close] + rest, st) == Scan(rest, Add(st, 2))
  {
    var inside := Opened(st, open == '{');
    Regroup([open], space, [close], rest);
    ScanMark(open, space + ([close] + rest), st);
    ScanSpaces(space, [close] + rest, inside);
    ScanMark(close, rest, inside);
    assert Below(inside) == st;
  }

  lemma {:induction false} ScanItem(i: Item, rest: string, st: Scanner)
    requires ValidItem(i) && EndsNumber(rest) && !st.expectKey
    ensures Scan(ItemText(i) + rest, st) == Scan(rest, Add(st, Size(i.value)))
    decreases i, 0
  {
    Regroup(i.before, Text(i.value), i.after, rest);
    ScanSpaces(i.before, Text(i.value) + (i.after + rest), st);
    SpacesEndNumber(i.after, rest);
    ScanValue(i.value, i.after + rest, st);
    ScanSpaces(i.after, rest, Add(st, Size(i.value)));
  }

  // ----- Arrays ----------------------------------------------------------------------------------------

  /** The open array has `count` more elements of `bytes` together. */
  function Grown(st: Scanner, count: nat, bytes: nat): Scanner
    requires |st.stack| > 0
  {
    SetTop(st, Top(st).(bytes := Top(st).bytes + bytes, count := Top(st).count + count))
  }

  lemma {:induction false} GrownTwice(st: Scanner, first: nat, count: nat, bytes: nat)
    requires |st.stack| > 0 && !Top(st).isObject && !st.expectKey
    ensures var grown := Add(st, first);
            && |grown.stack| > 0 && !Top(grown).isObject && Separated(grown) == grown
            && grown == Grown(st, 1, first) && Grown(grown, count, bytes) == Grown(st, 1 + count, first + bytes)
  {
  }

  lemma {:induction false} ScanLastItem(item: Item, rest: string, st: Scanner)
    requires ValidItem(item) && !st.expectKey && |st.stack| > 0 && !Top(st).isObject
    ensures Scan(ItemText(item) + [']'] + rest, st) == Scan(rest, Closed(Grown(st, 1, Size(item.value))))
    decreases item, 1
  {
    assert ItemText(item) + [']'] + rest == ItemText(item) + ([']'] + rest);
    ScanItem(item, [']'] + rest, st);
    GrownTwice(st, Size(item.value), 0, 0);
    ScanMark(']', rest, Add(st, Size(item.value)));
  }

  lemma {:induction false} ScanMoreItems(item: Item, more: string, rest: string, st: Scanner)
    requires ValidItem(item) && !st.expectKey && |st.stack| > 0 && !Top(st).isObject
    ensures Scan(ItemText(item) + [','] + more + rest, st) == Scan(more + rest, Grown(st, 1, Size(item.value)))
    decreases item, 1
  {
    Regroup(ItemText(item), [','], more, rest);
    ScanItem(item, [','] + (more + rest), st);
    GrownTwice(st, Size(item.value), 0, 0);
    ScanMark(',', more + rest, Add(st, Size(item.value)));
  }

  lemma {:induction false} ScanItems(items: Items, rest: string, st: Scanner)
    requires ValidItems(items) && !st.expectKey && |st.stack| > 0 && !Top(st).isObject
    ensures Scan(ItemsText(items) + rest, st) == Scan(rest, Closed(Grown(st, ItemCount(items), ItemsSize(items))))
    decreases items, 0
  {
    match items {
      case LastItem(item) => ScanLastItem(item, rest, st);
      case MoreItems(item, more) =>
        var grown := Grown(st, 1, Size(item.value));
        ScanMoreItems(item, ItemsText(more), rest, st);
        GrownTwice(st, Size(item.value), ItemCount(more), ItemsSize(more));
        assert Grown(grown, ItemCount(more), ItemsSize(more)) == Grown(st, ItemCount(items), ItemsSize(items));
        ScanItems(more, rest, grown);
        assert ItemsText(items) == ItemText(item) + [','] + ItemsText(more);
    }
  }

  lemma {:induction false} ScanArray(items: Items, rest: string, st: Scanner)
    requires ValidItems(items) && !st.expectKey
    ensures Scan(Text(Arr(items)) + rest, st) == Scan(rest, Add(st, Size(Arr(items))))
    decreases items, 1
  {
    var inside := Opened(st, false);
    assert Text(Arr(items)) + rest == ['['] + (ItemsText(items) + rest);
    ScanMark('[', ItemsText(items) + rest, st);
    ScanItems(items, rest, inside);
    assert Below(Grown(inside, ItemCount(items), ItemsSize(items))) == st;
  }

  // ----- Objects ---------------------------------------------------------------------------------------

  lemma {:induction false} ScanKey(m: Member, rest: string, st: Scanner)
    requires ValidMember(m) && st.expectKey && |st.stack| > 0
    ensures Scan(KeyText(m) + [':'] + rest, st) == Scan(rest, Quoted(st, Chars(m.key)))
  {
    var literal, keyed := LiteralText(m.key), Quoted(st, Chars(m.key));
    Regroup(m.before + literal, m.after, [':'], rest);
    assert (m.before + literal) + (m.after + ([':'] + rest)) == m.before + (literal + (m.after + ([':'] + rest)));
    ScanSpaces(m.before, literal + (m.after + ([':'] + rest)), st);
    ScanLiteral(m.key, m.after + ([':'] + rest), st);
    ScanSpaces(m.after, [':'] + rest, keyed);
    ScanMark(':', rest, keyed);
  }

  /** The open object with one more member, or a new size for a key that it already has. */
  function Stored(st: Scanner, key: string, size: nat): Scanner
    requires |st.stack| > 0
  {
    SetTop(st.(expectKey := false), Top(st).(key := key, members := Top(st).members[key := size]))
  }

  lemma {:induction false} KeyedThenAdded(st: Scanner, key: string, bytes: nat)
    requires |st.stack| > 0 && Top(st).isObject && st.expectKey
    ensures Add(Quoted(st, key), bytes) == Stored(st, key, StringBytes(key) + 2 + bytes)
    ensures !Quoted(st, key).expectKey
  {
  }

  lemma {:induction false} ScanMember(m: Member, rest: string, st: Scanner)
    requires ValidMember(m) && EndsNumber(rest) && st.expectKey && |st.stack| > 0 && Top(st).isObject
    ensures Scan(MemberText(m) + rest, st) == Scan(rest, Stored(st, Chars(m.key), MemberSize(m)))
    decreases m, 0
  {
    Regroup(KeyText(m), [':'], ItemText(m.item), rest);
    ScanKey(m, ItemText(m.item) + rest, st);
    KeyedThenAdded(st, Chars(m.key), Size(m.item.value));
    ScanItem(m.item, rest, Quoted(st, Chars(m.key)));
  }

  lemma {:induction false} StoredKeeps(st: Scanner, key: string, size: nat, more: map<string, nat>)
    requires |st.stack| > 0 && Top(st).isObject
    ensures var stored := Stored(st, key, size);
            && |stored.stack| > 0 && Top(stored).isObject && Separated(stored) == stored.(expectKey := true)
            && Below(stored) == Below(Separated(stored)) == Below(st)
            && Top(stored).members + more == Top(st).members + (map[key := size] + more)
  {
  }

  lemma {:induction false} ScanLastMember(m: Member, rest: string, st: Scanner)
    requires ValidMember(m) && st.expectKey && |st.stack| > 0 && Top(st).isObject
    ensures Scan(MemberText(m) + ['}'] + rest, st)
         == Scan(rest, AddObject(Below(st), Top(st).members + (map[Chars(m.key) := MemberSize(m)] + map[])))
    decreases m, 1
  {
    var stored := Stored(st, Chars(m.key), MemberSize(m));
    assert MemberText(m) + ['}'] + rest == MemberText(m) + (['}'] + rest);
    ScanMember(m, ['}'] + rest, st);
    StoredKeeps(st, Chars(m.key), MemberSize(m), map[]);
    assert Top(stored).members + map[] == Top(stored).members;
    ScanMark('}', rest, stored);
  }

  lemma {:induction false} ScanMoreMembers(m: Member, more: string, rest: string, st: Scanner)
    requires ValidMember(m) && st.expectKey && |st.stack| > 0 && Top(st).isObject
    ensures Scan(MemberText(m) + [','] + more + rest, st)
         == Scan(more + rest, Separated(Stored(st, Chars(m.key), MemberSize(m))))
    decreases m, 1
  {
    Regroup(MemberText(m), [','], more, rest);
    ScanMember(m, [','] + (more + rest), st);
    ScanMark(',', more + rest, Stored(st, Chars(m.key), MemberSize(m)));
  }

  lemma {:induction false} ScanMembers(members: Members, rest: string, st: Scanner)
    requires ValidMembers(members) && st.expectKey && |st.stack| > 0 && Top(st).isObject
    ensures Scan(MembersText(members) + rest, st)
         == Scan(rest, AddObject(Below(st), Top(st).members + MemberSizes(members)))
    decreases members, 0
  {
    match members {
      case LastMember(m) => ScanLastMember(m, rest, st);
      case MoreMembers(m, more) =>
        ScanMoreMembers(m, MembersText(more), rest, st);
        StoredKeeps(st, Chars(m.key), MemberSize(m), MemberSizes(more));
        ScanMembers(more, rest, Separated(Stored(st, Chars(m.key), MemberSize(m))));
    }
  }

  lemma {:induction false} ObjectAdds(members: Members, st: Scanner)
    ensures AddObject(st, map[] + MemberSizes(members)) == Add(st, Size(Obj(members)))
  {
    assert map[] + MemberSizes(members) == MemberSizes(members);
    ObjectSize(members);
  }

  lemma {:induction false} ScanObject(members: Members, rest: string, st: Scanner)
    requires ValidMembers(members) && !st.expectKey
    ensures Scan(Text(Obj(members)) + rest, st) == Scan(rest, Add(st, Size(Obj(members))))
    decreases members, 1
  {
    var inside := Opened(st, true);
    assert Text(Obj(members)) + rest == ['{'] + (MembersText(members) + rest);
    ScanMark('{', MembersText(members) + rest, st);
    ScanMembers(members, rest, inside);
    assert Below(inside) == st && Top(inside).members == map[];
    ObjectAdds(members, st);
  }

  /**
   The scanner on the text of any document, nested to any depth and with duplicate keys, gives the
   recursive measure of the value that the document decodes to.
   */
  lemma {:induction false} ScannerIsMeasure(document: Item)
    requires ValidItem(document)
    ensures Scan(ItemText(document), START).result == JsonbTextBytes(Decode(document.value))
  {
    ScanItem(document, "", START);
    assert ItemText(document) + "" == ItemText(document);
    SizeIsMeasure(document.value);
  }
}
