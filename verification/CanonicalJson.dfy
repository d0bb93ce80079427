/**
 The canonical JSON form of a checkpoint input, per RFC 8785: keys sorted by UTF-16 code units, the
 shortest escapes, and numbers as ECMAScript writes them. `ParseFloat` is a parameter.
 */
module CanonicalJson {
  import opened Ordering
  import opened JsonSyntax
  import opened JsonTokens
  import opened JsonParser
  import opened CanonicalNumbers
  import opened Sequences

  // ----- The order of keys ---------------------------------------------------------------------------

  function CharUnits(c: char): seq<nat> {
    var code := c as int;
    if code < 0x10000 then [code] else [0xD800 + (code - 0x10000) / 1024, 0xDC00 + (code - 0x10000) % 1024]
  }

  function Utf16(s: string): seq<nat> { if |s| == 0 then [] else CharUnits(s[0]) + Utf16(s[1..]) }

  lemma {:induction false} SameCharUnits(a: char, b: char, s: seq<nat>, t: seq<nat>)
    requires CharUnits(a) + s == CharUnits(b) + t
    ensures a == b && s == t
  {
    var x, y := CharUnits(a) + s, CharUnits(b) + t;
    assert x[0] == CharUnits(a)[0] && y[0] == CharUnits(b)[0];
    if a as int >= 0x10000 && b as int >= 0x10000 {
      assert x[1] == CharUnits(a)[1] && y[1] == CharUnits(b)[1];
    }
    assert |CharUnits(a)| == |CharUnits(b)|;
    assert s == x[|CharUnits(a)|..] && t == y[|CharUnits(b)|..];
  }

  /** Different texts have different code units. */
  lemma {:induction false} Utf16Injective(a: string, b: string)
    requires Utf16(a) == Utf16(b)
    ensures a == b
  {
    if |a| > 0 && |b| > 0 {
      SameCharUnits(a[0], b[0], Utf16(a[1..]), Utf16(b[1..]));
      Utf16Injective(a[1..], b[1..]);
      assert a == [a[0]] + a[1..] && b == [b[0]] + b[1..];
    }
  }

  predicate KeyLess(a: string, b: string) { LexLess(Utf16(a), Utf16(b)) }

  function KeyOrder(): (string, string) -> bool { (a: string, b: string) => KeyLess(a, b) }

  predicate StrictlySorted(keys: seq<string>) { forall i, j :: 0 <= i < j < |keys| ==> KeyLess(keys[i], keys[j]) }

  lemma {:induction false} KeyOrderIsStrictWeak()
    ensures StrictWeak(KeyOrder())
  {
    var less := KeyOrder();
    forall a, b ensures less(a, b) ==> !less(b, a) {
      LexAsymmetric(Utf16(a), Utf16(b));
    }
    forall a, b, c ensures !less(a, b) && !less(b, c) ==> !less(a, c) {
      LexNegativelyTransitive(Utf16(a), Utf16(b), Utf16(c));
    }
  }

  lemma {:induction false} SortedStrictly(keys: seq<string>, all: set<string>)
    requires Lists(keys, all)
    ensures StrictlySorted(Sort(keys, KeyOrder())) && Lists(Sort(keys, KeyOrder()), all)
  {
    var sorted := Sort(keys, KeyOrder());
    KeyOrderIsStrictWeak();
    SortSorted(keys, KeyOrder());
    SortPermutes(keys, KeyOrder());
    SortDistinct(keys, KeyOrder());
    forall i, j | 0 <= i < j < |sorted| ensures KeyLess(sorted[i], sorted[j]) {
      assert !KeyOrder()(sorted[j], sorted[i]);
      LexTotal(Utf16(sorted[i]), Utf16(sorted[j]));
      if Utf16(sorted[i]) == Utf16(sorted[j]) {
        Utf16Injective(sorted[i], sorted[j]);
      }
    }
  }

  lemma {:induction false} NotEmpty(xs: seq<string>, ys: seq<string>)
    requires |xs| > 0 && forall k :: k in xs ==> k in ys
    ensures |ys| > 0 && xs[0] in ys
  {
    assert xs[0] in ys;
  }

  /** One set of keys has one strictly sorted order. */
  lemma {:induction false} SortedUnique(xs: seq<string>, ys: seq<string>)
    requires StrictlySorted(xs) && StrictlySorted(ys) && forall k :: k in xs <==> k in ys
    ensures xs == ys
  {
    if |ys| > 0 {
      NotEmpty(ys, xs);
    }
    if |xs| > 0 {
      NotEmpty(xs, ys);
      var i :| 0 <= i < |xs| && xs[i] == ys[0];
      var j :| 0 <= j < |ys| && ys[j] == xs[0];
      LexAsymmetric(Utf16(xs[0]), Utf16(ys[0]));
      assert xs[0] == ys[0];
      forall k ensures k in xs[1..] <==> k in ys[1..] {
        TailMember(xs, k);
        TailMember(ys, k);
      }
      SortedUnique(xs[1..], ys[1..]);
      assert xs == [xs[0]] + xs[1..] && ys == [ys[0]] + ys[1..];
    }
  }

  lemma {:induction false} TailMember(xs: seq<string>, k: string)
    requires StrictlySorted(xs) && |xs| > 0
    ensures k in xs[1..] <==> k in xs && k != xs[0]
  {
    LexAsymmetric(Utf16(xs[0]), Utf16(xs[0]));
    if k in xs && k != xs[0] {
      var i :| 0 <= i < |xs| && xs[i] == k;
      assert xs[1..][i - 1] == k;
    }
  }

  /** The keys of an object in their canonical order. */
  ghost function CanonicalKeys(all: set<string>): seq<string> { Sort(SomeList(all), KeyOrder()) }

  /** Whatever order the map gives, sorting it gives the canonical order. */
  lemma {:induction false} OrderIsIndependent(keys: seq<string>, all: set<string>)
    requires Lists(keys, all)
    ensures Sort(keys, KeyOrder()) == CanonicalKeys(all)
    ensures StrictlySorted(CanonicalKeys(all)) && Lists(CanonicalKeys(all), all)
  {
    SortedStrictly(keys, all);
    SortedStrictly(SomeList(all), all);
    SortedUnique(Sort(keys, KeyOrder()), CanonicalKeys(all));
  }

  // ----- Strings -------------------------------------------------------------------------------------

  function HexDigit(n: nat): char
    requires n < 16
  {
    if n < 10 then ('0' as int + n) as char else ('a' as int + n - 10) as char
  }

  function CharPiece(c: char): Piece {
    var code := c as int;
    if c == '"' || c == '\\' then Short(c)
    else if code == 8 then Short('b')
    else if code == 12 then Short('f')
    else if code == 10 then Short('n')
    else if code == 13 then Short('r')
    else if code == 9 then Short('t')
    else if code < 0x20 then Hex(['0', '0', HexDigit(code / 16), HexDigit(code % 16)])
    else Raw(c)
  }

  function CanonicalPieces(s: string): seq<Piece> { seq(|s|, i requires 0 <= i < |s| => CharPiece(s[i])) }

  lemma {:induction false} CharPieceReads(c: char)
    ensures PieceOk(CharPiece(c)) && PieceChar(CharPiece(c)) == c
    ensures CharPiece(c).Hex? ==> !IsHigh(Unit(CharPiece(c).digits))
  {
  }

  /** The escapes are valid, and denote the string that was written. */
  lemma {:induction false} CanonicalPiecesRead(s: string)
    ensures PiecesOk(CanonicalPieces(s)) && Chars(CanonicalPieces(s)) == s
  {
    var pieces := CanonicalPieces(s);
    forall i | 0 <= i < |s| ensures PieceOk(pieces[i]) {
      CharPieceReads(s[i]);
    }
    if |s| > 0 {
      CharPieceReads(s[0]);
      CanonicalPiecesRead(s[1..]);
      assert pieces[1..] == CanonicalPieces(s[1..]);
      assert !StartsWithPair(pieces);
      assert Chars(pieces) == [s[0]] + s[1..];
    }
  }

  // ----- Values ----------------------------------------------------------------------------------------

  type Shortest = d: Double | IsDouble(d) witness Zero

  /** A value as the canonical form sees it: numbers are doubles. */
  datatype Datum =
    | DNull
    | DBool(value: bool)
    | DNumber(double: Shortest)
    | DString(text: string)
    | DArray(elements: seq<Datum>)
    | DObject(members: map<string, Datum>)

  function Bare(j: Json): Item { Item("", j, "") }

  /** The canonical syntax: no white space, sorted keys, canonical escapes and numbers. */
  ghost function Tree(d: Datum): Json
    decreases d, 1
  {
    if d.DObject? then ObjectTree(d, Keys(d)) else PlainTree(d)
  }

  ghost function PlainTree(d: Datum): Json
    requires !d.DObject?
    decreases d, 0
  {
    match d
    case DNull => Null
    case DBool(value) => Bool(value)
    case DNumber(double) => Num(Layout(double))
    case DString(text) => Str(CanonicalPieces(text))
    case DArray(elements) => if |elements| == 0 then EmptyArr("") else Arr(TreeItems(elements))
  }

  ghost function ObjectTree(d: Datum, keys: seq<string>): Json
    requires d.DObject? && forall k :: k in keys ==> k in d.members
    decreases d, 0, |keys| + 1
  {
    if |keys| == 0 then EmptyObj("") else Obj(TreeMembers(d, keys))
  }

  ghost function Keys(d: Datum): (keys: seq<string>)
    requires d.DObject?
    ensures forall k :: k in keys <==> k in d.members
  {
    OrderIsIndependent(SomeList(d.members.Keys), d.members.Keys);
    CanonicalKeys(d.members.Keys)
  }

  ghost function TreeItems(elements: seq<Datum>): Items
    requires |elements| > 0
    decreases elements, 0
  {
    var first := Bare(Tree(elements[0]));
    if |elements| == 1 then LastItem(first) else MoreItems(first, TreeItems(elements[1..]))
  }

  ghost function TreeMember(d: Datum, key: string): Member
    requires d.DObject? && key in d.members
    decreases d, 0, 0
  {
    Member("", CanonicalPieces(key), "", Bare(Tree(d.members[key])))
  }

  ghost function TreeMembers(d: Datum, keys: seq<string>): Members
    requires d.DObject? && |keys| > 0 && forall k :: k in keys ==> k in d.members
    decreases d, 0, |keys|
  {
    var first := TreeMember(d, keys[0]);
    if |keys| == 1 then LastMember(first) else MoreMembers(first, TreeMembers(d, keys[1..]))
  }

  lemma {:induction false} TreeIsValid(d: Datum)
    ensures Valid(Tree(d))
    decreases d, 1
  {
    match d {
      case DNumber(double) => LayoutIsNumber(double);
      case DString(text) => CanonicalPiecesRead(text);
      case DArray(elements) =>
        if |elements| > 0 {
          ItemsAreValid(elements);
        }
      case DObject(_) =>
        if |Keys(d)| > 0 {
          MembersAreValid(d, Keys(d));
        }
      case _ =>
    }
  }

  lemma {:induction false} ItemsAreValid(elements: seq<Datum>)
    requires |elements| > 0
    ensures ValidItems(TreeItems(elements))
    decreases elements, 0
  {
    TreeIsValid(elements[0]);
    if |elements| > 1 {
      ItemsAreValid(elements[1..]);
    }
  }

  lemma {:induction false} MembersAreValid(d: Datum, keys: seq<string>)
    requires d.DObject? && |keys| > 0 && forall k :: k in keys ==> k in d.members
    ensures ValidMembers(TreeMembers(d, keys))
    decreases d, 0, |keys|
  {
    TreeIsValid(d.members[keys[0]]);
    CanonicalPiecesRead(keys[0]);
    if |keys| > 1 {
      MembersAreValid(d, keys[1..]);
    }
  }

  // ----- Reading the tree back -----------------------------------------------------------------------------

  function Checked(d: Double): Shortest { if IsDouble(d) then d else Zero }

  /** The value that any JSON text denotes, with numbers as doubles. */
  function Read(j: Json): Datum
    decreases j
  {
    match j
    case Null => DNull
    case Bool(value) => DBool(value)
    case Num(n) => DNumber(Checked(ReadDouble(n)))
    case Str(pieces) => DString(Chars(pieces))
    case EmptyArr(_) => DArray([])
    case Arr(items) => DArray(ReadItems(items))
    case EmptyObj(_) => DObject(map[])
    case Obj(members) => DObject(ReadMembers(members))
  }

  function ReadItems(items: Items): seq<Datum>
    decreases items
  {
    [Read(items.item.value)] + if items.MoreItems? then ReadItems(items.rest) else []
  }

  function ReadMembers(members: Members): map<string, Datum>
    decreases members
  {
    var m := members.member;
    map[Chars(m.key) := Read(m.item.value)] + if members.MoreMembers? then ReadMembers(members.rest) else map[]
  }

  /** The canonical syntax of a value denotes that value. */
  lemma {:induction false} TreeReads(d: Datum)
    ensures Read(Tree(d)) == d
    decreases d, 2
  {
    match d {
      case DNumber(_) => NumberReads(d);
      case DString(text) => CanonicalPiecesRead(text);
      case DArray(elements) => ArrayReads(d);
      case DObject(members) => ObjectReads(d, Keys(d));
      case _ =>
    }
  }

  lemma {:induction false} NumberReads(d: Datum)
    requires d.DNumber?
    ensures Read(Tree(d)) == d
  {
    LayoutReadsBack(d.double);
  }

  lemma {:induction false} ArrayReads(d: Datum)
    requires d.DArray?
    ensures Read(Tree(d)) == d
    decreases d, 1
  {
    if |d.elements| > 0 {
      ItemsRead(d.elements);
    }
  }

  function Restrict(m: map<string, Datum>, keys: seq<string>): map<string, Datum>
    requires forall k :: k in keys ==> k in m
  {
    map k | k in keys :: m[k]
  }

  lemma {:induction false} RestrictFirst(m: map<string, Datum>, keys: seq<string>)
    requires |keys| > 0 && forall k :: k in keys ==> k in m
    ensures Restrict(m, keys) == map[keys[0] := m[keys[0]]] + Restrict(m, keys[1..])
  {
    assert keys == [keys[0]] + keys[1..];
  }

  lemma {:induction false} RestrictAll(m: map<string, Datum>, keys: seq<string>)
    requires forall k :: k in keys <==> k in m
    ensures Restrict(m, keys) == m
  {
  }

  lemma {:induction false} ObjectReads(d: Datum, keys: seq<string>)
    requires d.DObject? && forall k :: k in keys <==> k in d.members
    ensures Read(ObjectTree(d, keys)) == d
    decreases d, 1
  {
    RestrictAll(d.members, keys);
    if |keys| > 0 {
      MembersRead(d, keys);
    }
  }

  lemma {:induction false} ItemsRead(elements: seq<Datum>)
    requires |elements| > 0
    ensures ReadItems(TreeItems(elements)) == elements
    decreases elements, 0
  {
    TreeReads(elements[0]);
    if |elements| > 1 {
      ItemsRead(elements[1..]);
    }
    assert elements == [elements[0]] + elements[1..];
  }

  lemma {:induction false} MembersRead(d: Datum, keys: seq<string>)
    requires d.DObject? && |keys| > 0 && forall k :: k in keys ==> k in d.members
    ensures ReadMembers(TreeMembers(d, keys)) == Restrict(d.members, keys)
    decreases d, 0, |keys|
  {
    TreeReads(d.members[keys[0]]);
    CanonicalPiecesRead(keys[0]);
    RestrictFirst(d.members, keys);
    if |keys| > 1 {
      MembersRead(d, keys[1..]);
    } else {
      assert Restrict(d.members, keys[1..]) == map[];
    }
  }

  // ----- The promises --------------------------------------------------------------------------------------

  ghost function CanonicalText(d: Datum): string { Text(Tree(d)) }

  /** The text is JSON that parses back to the value it was written for. */
  lemma {:induction false} CanonicalParses(d: Datum)
    ensures ParseValue(CanonicalText(d)) == Parsed(Tree(d), "")
    ensures Read(Tree(d)) == d
  {
    TreeIsValid(d);
    Parses(Tree(d), "");
    assert CanonicalText(d) + "" == CanonicalText(d);
    TreeReads(d);
  }

  /** Two values with one canonical text are the same value. */
  lemma {:induction false} CanonicalInjective(d: Datum, e: Datum)
    requires CanonicalText(d) == CanonicalText(e)
    ensures d == e
  {
    CanonicalParses(d);
    CanonicalParses(e);
  }

  /** The keys of an object stand in strict order of their UTF-16 code units. */
  lemma {:induction false} KeysAreOrdered(d: Datum)
    requires d.DObject?
    ensures StrictlySorted(Keys(d)) && Lists(Keys(d), d.members.Keys)
  {
    OrderIsIndependent(SomeList(d.members.Keys), d.members.Keys);
  }

  // ----- What an input denotes -------------------------------------------------------------------------------

  /** What `ParseFloat` says about a number: out of range, or a double. */
  datatype Reading = OutOfRange | InRange(double: Shortest)

  /** How numbers are read: by `ParseFloat`, by the check of the double, and by the check of the text. */
  datatype Reader = Reader(read: string -> Reading, large: Double -> bool, exceeds: string -> bool)

  predicate NumberOk(token: string, reader: Reader) {
    reader.read(token).InRange? && !reader.large(reader.read(token).double) && !reader.exceeds(token)
  }

  predicate IsContainer(v: Value) { v.VArray? || v.VObject? }

  /** Every number of the value has a fingerprint. */
  predicate Acceptable(v: Value, reader: Reader)
    decreases v, 1
  {
    if IsContainer(v) then EntriesAcceptable(v, reader) else v.VNumber? ==> NumberOk(v.token, reader)
  }

  predicate EntriesAcceptable(v: Value, reader: Reader)
    requires IsContainer(v)
    decreases v, 0
  {
    match v
    case VArray(elements) => forall i :: 0 <= i < |elements| ==> Acceptable(elements[i], reader)
    case VObject(members) => forall k :: k in members ==> Acceptable(members[k], reader)
  }

  function Denote(v: Value, reader: Reader): Datum
    decreases v, 1
  {
    match v
    case VNull => DNull
    case VBool(value) => DBool(value)
    case VNumber(token) => DNumber(if reader.read(token).InRange? then reader.read(token).double else Zero)
    case VString(text) => DString(text)
    case _ => DenoteEntries(v, reader)
  }

  function DenoteEntries(v: Value, reader: Reader): Datum
    requires IsContainer(v)
    decreases v, 0
  {
    match v
    case VArray(elements) => DArray(seq(|elements|, i requires 0 <= i < |elements| => Denote(elements[i], reader)))
    case VObject(members) => DObject(map k | k in members :: Denote(members[k], reader))
  }

  // ----- Joining the texts of entries ------------------------------------------------------------------------

  function Join(texts: seq<string>): string {
    var n := |texts| - 1;
    if |texts| == 0 then "" else if n == 0 then texts[0] else Join(texts[..n]) + [','] + texts[n]
  }

  lemma {:induction false} JoinFirst(texts: seq<string>)
    requires |texts| > 1
    ensures Join(texts) == texts[0] + [','] + Join(texts[1..])
  {
    var n := |texts| - 1;
    if n == 1 {
      assert texts[..1] == [texts[0]] && texts[1..] == [texts[1]];
    } else {
      JoinFirst(texts[..n]);
      assert texts[..n][1..] == texts[1..][..n - 1];
      Regroup(texts[0] + [','], Join(texts[1..][..n - 1]), [','], texts[n]);
    }
  }

  ghost function Texts(elements: seq<Datum>): seq<string> {
    seq(|elements|, i requires 0 <= i < |elements| => CanonicalText(elements[i]))
  }

  ghost function EntryText(d: Datum, key: string): string
    requires d.DObject? && key in d.members
  {
    LiteralText(CanonicalPieces(key)) + [':'] + CanonicalText(d.members[key])
  }

  ghost function EntryTexts(d: Datum, keys: seq<string>): seq<string>
    requires d.DObject? && forall k :: k in keys ==> k in d.members
  {
    seq(|keys|, i requires 0 <= i < |keys| => EntryText(d, keys[i]))
  }

  lemma {:induction false} BareText(j: Json)
    ensures ItemText(Bare(j)) == Text(j)
  {
  }

  lemma {:induction false} ItemsJoin(elements: seq<Datum>)
    requires |elements| > 0
    ensures ItemsText(TreeItems(elements)) == Join(Texts(elements)) + [']']
    decreases |elements|
  {
    var texts := Texts(elements);
    BareText(Tree(elements[0]));
    if |elements| > 1 {
      ItemsJoin(elements[1..]);
      assert texts[1..] == Texts(elements[1..]);
      JoinFirst(texts);
      Regroup(texts[0], [','], Join(texts[1..]), [']']);
    }
  }

  lemma {:induction false} MemberIsEntry(d: Datum, key: string)
    requires d.DObject? && key in d.members
    ensures MemberText(TreeMember(d, key)) == EntryText(d, key)
  {
    var m := TreeMember(d, key);
    BareText(Tree(d.members[key]));
    assert KeyText(m) == LiteralText(CanonicalPieces(key));
  }

  lemma {:induction false} MembersJoin(d: Datum, keys: seq<string>)
    requires d.DObject? && |keys| > 0 && forall k :: k in keys ==> k in d.members
    ensures MembersText(TreeMembers(d, keys)) == Join(EntryTexts(d, keys)) + ['}']
    decreases |keys|
  {
    var texts := EntryTexts(d, keys);
    MemberIsEntry(d, keys[0]);
    if |keys| > 1 {
      MembersJoin(d, keys[1..]);
      assert texts[1..] == EntryTexts(d, keys[1..]);
      JoinFirst(texts);
      Regroup(texts[0], [','], Join(texts[1..]), ['}']);
    } else {
      assert Join(texts) == texts[0];
    }
  }
}
