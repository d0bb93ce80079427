/**
 JSON documents as syntax trees, with their white space, escapes and duplicate keys, the text of a tree,
 and the value that decoding it gives. Texts are sequences of Unicode characters, as valid UTF-8 is.
 */
module JsonSyntax {
  import opened JsonNumbers

  // ----- String literals -----------------------------------------------------------------------------

  /** A character as it is, a two-character escape, or a \u escape with its four hexadecimal digits. */
  datatype Piece = Raw(c: char) | Short(c: char) | Hex(digits: string)

  predicate IsHexDigit(c: char) { '0' <= c <= '9' || 'a' <= c <= 'f' || 'A' <= c <= 'F' }

  function HexValue(c: char): (v: nat)
    ensures v < 16
  {
    if '0' <= c <= '9' then c as int - '0' as int
    else if 'a' <= c <= 'f' then c as int - 'a' as int + 10
    else if 'A' <= c <= 'F' then c as int - 'A' as int + 10
    else 0
  }

  predicate IsHex(s: string) { |s| == 4 && forall i :: 0 <= i < |s| ==> IsHexDigit(s[i]) }

  /** Four hexadecimal digits as a number. */
  function Unit(s: string): (u: nat)
    ensures u <= 0xFFFF
  {
    if |s| == 4 then 4096 * HexValue(s[0]) + 256 * HexValue(s[1]) + 16 * HexValue(s[2]) + HexValue(s[3]) else 0
  }

  predicate IsHigh(u: nat) { 0xD800 <= u <= 0xDBFF }

  predicate IsLow(u: nat) { 0xDC00 <= u <= 0xDFFF }

  predicate IsShort(c: char) {
    c == '"' || c == '\\' || c == '/' || c == 'b' || c == 'f' || c == 'n' || c == 'r' || c == 't'
  }

  predicate PieceOk(p: Piece) {
    match p
    case Raw(c) => c >= ' ' && c != '"' && c != '\\'
    case Short(c) => IsShort(c)
    case Hex(digits) => IsHex(digits)
  }

  predicate PiecesOk(pieces: seq<Piece>) { forall i :: 0 <= i < |pieces| ==> PieceOk(pieces[i]) }

  function PieceText(p: Piece): string {
    match p
    case Raw(c) => [c]
    case Short(c) => ['\\', c]
    case Hex(digits) => ['\\', 'u'] + digits
  }

  function PiecesText(pieces: seq<Piece>): string {
    if |pieces| == 0 then "" else PieceText(pieces[0]) + PiecesText(pieces[1..])
  }

  const QUOTE := ['"']

  function LiteralText(pieces: seq<Piece>): string { QUOTE + PiecesText(pieces) + QUOTE }

  function ShortChar(c: char): char {
    if c == 'b' then 8 as char
    else if c == 'f' then 12 as char
    else if c == 'n' then 10 as char
    else if c == 'r' then 13 as char
    else if c == 't' then 9 as char
    else c
  }

  const REPLACEMENT := 0xFFFD as char

  function PairChar(high: nat, low: nat): char
    requires IsHigh(high) && IsLow(low)
  {
    (0x10000 + (high - 0xD800) * 1024 + (low - 0xDC00)) as char
  }

  /** The first two pieces are a surrogate pair. */
  predicate StartsWithPair(pieces: seq<Piece>) {
    |pieces| >= 2 && pieces[0].Hex? && pieces[1].Hex? && IsHigh(Unit(pieces[0].digits)) && IsLow(Unit(pieces[1].digits))
  }

  function PieceChar(p: Piece): char {
    match p
    case Raw(c) => c
    case Short(c) => ShortChar(c)
    case Hex(digits) => if 0xD800 <= Unit(digits) <= 0xDFFF then REPLACEMENT else Unit(digits) as char
  }

  /** The string that the pieces denote. A surrogate outside a pair becomes U+FFFD. */
  function Chars(pieces: seq<Piece>): string {
    if |pieces| == 0 then ""
    else if StartsWithPair(pieces) then
      [PairChar(Unit(pieces[0].digits), Unit(pieces[1].digits))] + Chars(pieces[2..])
    else [PieceChar(pieces[0])] + Chars(pieces[1..])
  }

  // ----- Documents -----------------------------------------------------------------------------------

  datatype Json =
    | Null
    | Bool(value: bool)
    | Num(number: Number)
    | Str(pieces: seq<Piece>)
    | EmptyArr(space: string)
    | Arr(items: Items)
    | EmptyObj(space: string)
    | Obj(members: Members)

  /** A value with the white space around it. */
  datatype Item = Item(before: string, value: Json, after: string)

  datatype Items = LastItem(item: Item) | MoreItems(item: Item, rest: Items)

  datatype Member = Member(before: string, key: seq<Piece>, after: string, item: Item)

  datatype Members = LastMember(member: Member) | MoreMembers(member: Member, rest: Members)

  predicate IsSpace(c: char) { c == ' ' || c == '\t' || c == '\n' || c == '\r' }

  predicate IsSpaces(s: string) { forall i :: 0 <= i < |s| ==> IsSpace(s[i]) }

  predicate Valid(j: Json)
    decreases j
  {
    match j
    case Null => true
    case Bool(_) => true
    case Num(n) => IsNumber(n)
    case Str(pieces) => PiecesOk(pieces)
    case EmptyArr(space) => IsSpaces(space)
    case Arr(items) => ValidItems(items)
    case EmptyObj(space) => IsSpaces(space)
    case Obj(members) => ValidMembers(members)
  }

  predicate ValidItem(i: Item)
    decreases i
  {
    IsSpaces(i.before) && Valid(i.value) && IsSpaces(i.after)
  }

  predicate ValidItems(items: Items)
    decreases items
  {
    ValidItem(items.item) && (items.MoreItems? ==> ValidItems(items.rest))
  }

  predicate ValidMember(m: Member)
    decreases m
  {
    IsSpaces(m.before) && PiecesOk(m.key) && IsSpaces(m.after) && ValidItem(m.item)
  }

  predicate ValidMembers(members: Members)
    decreases members
  {
    ValidMember(members.member) && (members.MoreMembers? ==> ValidMembers(members.rest))
  }

  function Text(j: Json): string
    decreases j
  {
    match j
    case Null => "null"
    case Bool(value) => if value then "true" else "false"
    case Num(n) => NumberText(n)
    case Str(pieces) => LiteralText(pieces)
    case EmptyArr(space) => ['['] + space + [']']
    case Arr(items) => ['['] + ItemsText(items)
    case EmptyObj(space) => ['{'] + space + ['}']
    case Obj(members) => ['{'] + MembersText(members)
  }

  function ItemText(i: Item): string
    decreases i
  {
    i.before + Text(i.value) + i.after
  }

  /** The elements of an array, up to its closing bracket. */
  function ItemsText(items: Items): string
    decreases items
  {
    match items
    case LastItem(item) => ItemText(item) + [']']
    case MoreItems(item, rest) => ItemText(item) + [','] + ItemsText(rest)
  }

  function KeyText(m: Member): string { m.before + LiteralText(m.key) + m.after }

  function MemberText(m: Member): string
    decreases m
  {
    KeyText(m) + [':'] + ItemText(m.item)
  }

  /** The members of an object, up to its closing brace. */
  function MembersText(members: Members): string
    decreases members
  {
    match members
    case LastMember(member) => MemberText(member) + ['}']
    case MoreMembers(member, rest) => MemberText(member) + [','] + MembersText(rest)
  }

  // ----- Values --------------------------------------------------------------------------------------

  /** A decoded value. A number keeps its token. */
  datatype Value =
    | VNull
    | VBool(value: bool)
    | VNumber(token: string)
    | VString(text: string)
    | VArray(elements: seq<Value>)
    | VObject(members: map<string, Value>)

  function Decode(j: Json): Value
    decreases j
  {
    match j
    case Null => VNull
    case Bool(value) => VBool(value)
    case Num(n) => VNumber(NumberText(n))
    case Str(pieces) => VString(Chars(pieces))
    case EmptyArr(_) => VArray([])
    case Arr(items) => VArray(DecodeItems(items))
    case EmptyObj(_) => VObject(map[])
    case Obj(members) => VObject(DecodeMembers(members))
  }

  function DecodeItems(items: Items): (elements: seq<Value>)
    ensures |elements| > 0
    decreases items
  {
    [Decode(items.item.value)] + if items.MoreItems? then DecodeItems(items.rest) else []
  }

  /** A member replaces any earlier one with its key. */
  function DecodeMembers(members: Members): map<string, Value>
    decreases members
  {
    var m := members.member;
    map[Chars(m.key) := Decode(m.item.value)] + if members.MoreMembers? then DecodeMembers(members.rest) else map[]
  }
}
