/** The size of PostgreSQL's jsonb text, by a recursive measure of the decoded value. */
module JsonbSize {
  import opened JsonNumbers
  import opened JsonSyntax
  import opened NumericText
  import opened Utf8

  // ----- The recursive measure -----------------------------------------------------------------------

  function CharBytes(c: char): nat {
    var code := c as int;
    if c == '"' || c == '\\' || code == 8 || code == 9 || code == 10 || code == 12 || code == 13 then 2
    else if code < 0x20 then 6
    else RuneLen(c)
  }

  function CharsBytes(s: string): nat {
    if |s| == 0 then 0 else CharsBytes(s[..|s| - 1]) + CharBytes(s[|s| - 1])
  }

  function StringBytes(s: string): nat { 2 + CharsBytes(s) }

  /** The sum of the sizes in a map, whatever the order in which they are added. */
  ghost function SumOver(m: map<string, nat>): nat
    decreases |m|
  {
    if m == map[] then 0
    else
      var k :| k in m;
      m[k] + SumOver(m - {k})
  }

  /** Commas between `count` entries, with a space after each, and the brackets around them. */
  function Enclosed(count: nat, bytes: nat): nat { 2 + bytes + if count > 0 then 2 * (count - 1) else 0 }

  /**
   The measure, up to multiples of 2^64. The source adds in machine integers, so its own result is the
   machine integer of this number.
   */
  ghost function JsonbTextBytes(v: Value): nat
    decreases v, 1
  {
    match v
    case VArray(elements) => Enclosed(|elements|, ContentBytes(v))
    case VObject(members) => Enclosed(|members|, ContentBytes(v))
    case _ => ContentBytes(v)
  }

  /** The text of a scalar, or of the entries of a container without its brackets and commas. */
  ghost function ContentBytes(v: Value): nat
    decreases v, 0
  {
    match v
    case VNull => 4
    case VBool(value) => if value then 4 else 5
    case VNumber(token) => NumberSize(token)
    case VString(text) => StringBytes(text)
    case VArray(elements) => ElementsBytes(elements)
    case VObject(members) => SumOver(map k | k in members :: EntrySize(k, members[k]))
  }

  /** A member: its key, a colon and a space, and its value. */
  ghost function EntrySize(key: string, v: Value): nat
    decreases v, 2
  {
    StringBytes(key) + 2 + JsonbTextBytes(v)
  }

  ghost function ElementsBytes(elements: seq<Value>): nat
    decreases elements, 2
  {
    if |elements| == 0 then 0 else ElementsBytes(elements[..|elements| - 1]) + JsonbTextBytes(elements[|elements| - 1])
  }

  ghost function Sizes(members: map<string, Value>): map<string, nat> {
    map k | k in members :: EntrySize(k, members[k])
  }

  lemma ObjectBytes(members: map<string, Value>)
    ensures JsonbTextBytes(VObject(members)) == Enclosed(|members|, SumOver(Sizes(members)))
  {
    assert Sizes(members) == map k | k in members :: EntrySize(k, members[k]);
    assert ContentBytes(VObject(members)) == SumOver(Sizes(members));
  }

  // ----- Sums over maps --------------------------------------------------------------------------------

  /** Any entry can be added first. */
  lemma {:induction false} SumOverAny(m: map<string, nat>, k: string)
    requires k in m
    ensures SumOver(m) == m[k] + SumOver(m - {k})
    decreases |m|
  {
    var first :| first in m && SumOver(m) == m[first] + SumOver(m - {first});
    if first != k {
      SumOverAny(m - {first}, k);
      SumOverAny(m - {k}, first);
      assert m - {first} - {k} == m - {k} - {first};
    }
  }

  lemma {:induction false} SumOverUpdate(m: map<string, nat>, k: string, size: nat)
    ensures SumOver(m[k := size]) == size + SumOver(m - {k})
    ensures SumOver(m[k := size]) <= SumOver(m) + size
    ensures |m[k := size]| <= |m| + 1
  {
    SumOverAny(m[k := size], k);
    assert m[k := size] - {k} == m - {k};
    if k in m {
      SumOverAny(m, k);
    } else {
      assert m - {k} == m;
    }
    assert m[k := size].Keys == m.Keys + {k};
  }

  // ----- The measure, in place -------------------------------------------------------------------------

  method MeasureString(text: string) returns (bytes: int)
    ensures bytes == Wrap(StringBytes(text))
  {
    bytes := 2;
    var i := 0;
    while i < |text|
      invariant 0 <= i <= |text| && bytes == Wrap(StringBytes(text[..i]))
    {
      var c := text[i];
      assert text[..i + 1][..i] == text[..i];
      var size := RuneLen(c);
      if c == '"' || c == '\\' || c == 8 as char || c == 12 as char || c == '\n' || c == '\r' || c == '\t' {
        size := 2;
      } else if c < ' ' {
        size := 6;
      }
      bytes := Plus(bytes, size, StringBytes(text[..i]));
      i := i + 1;
    }
    assert text[..i] == text;
  }

  /** Measures the members of an object in whatever order the map gives them. */
  method Measure(v: Value) returns (bytes: int)
    ensures bytes == Wrap(JsonbTextBytes(v))
    decreases v, 3
  {
    match v {
      case VNull => bytes := 4;
      case VBool(value) => bytes := if value then 4 else 5;
      case VNumber(token) => bytes := MeasureNumber(token);
      case VString(text) => bytes := MeasureString(text);
      case VArray(elements) => bytes := MeasureElements(elements, v);
      case VObject(members) => bytes := MeasureMembers(members, v);
    }
  }

  method MeasureNumber(token: string) returns (bytes: int)
    ensures bytes == NumericTextBytes(token) == Wrap(NumberSize(token))
  {
    bytes := NumericTextBytes(token);
    ResidueWraps(bytes);
  }

  /** The brackets, and the commas with their spaces. */
  method MeasureFrame(count: nat) returns (bytes: int)
    ensures bytes == Wrap(Enclosed(count, 0))
  {
    bytes := 2;
    if count > 0 {
      bytes := Plus(bytes, (count - 1) * 2, 2);
    }
  }

  method MeasureElements(elements: seq<Value>, ghost v: Value) returns (bytes: int)
    requires v == VArray(elements)
    ensures bytes == Wrap(JsonbTextBytes(v))
    decreases v, 1
  {
    bytes := MeasureFrame(|elements|);
    ghost var frame := Enclosed(|elements|, 0);
    var i := 0;
    while i < |elements|
      invariant 0 <= i <= |elements| && bytes == Wrap(frame + ElementsBytes(elements[..i]))
    {
      var size := Measure(elements[i]);
      assert elements[..i + 1][..i] == elements[..i];
      bytes := PlusWrapped(bytes, size, frame + ElementsBytes(elements[..i]), JsonbTextBytes(elements[i]));
      i := i + 1;
    }
    assert elements[..i] == elements;
    assert ContentBytes(v) == ElementsBytes(elements);
  }

  method MeasureMember(key: string, member: Value, ghost v: Value) returns (bytes: int)
    requires v.VObject? && key in v.members && member == v.members[key]
    ensures bytes == Wrap(EntrySize(key, member))
    decreases v, 0
  {
    bytes := MeasureString(key);
    bytes := Plus(bytes, 2, StringBytes(key));
    var size := Measure(member);
    bytes := PlusWrapped(bytes, size, StringBytes(key) + 2, JsonbTextBytes(member));
  }

  /** Adds one size to the running sum; `rest` are the sizes still to add. */
  method AddSize(bytes: int, size: int, key: string, ghost done: nat, ghost rest: map<string, nat>)
    returns (next: int, ghost more: nat)
    requires bytes == Wrap(done) && key in rest && size == Wrap(rest[key])
    ensures next == Wrap(more) && more + SumOver(rest - {key}) == done + SumOver(rest)
  {
    next := PlusWrapped(bytes, size, done, rest[key]);
    more := done + rest[key];
    SumOverAny(rest, key);
  }

  method AddMember(bytes: int, key: string, member: Value, ghost v: Value, ghost done: nat, ghost rest: map<string, nat>)
    returns (next: int, ghost more: nat)
    requires v.VObject? && key in v.members && member == v.members[key] && bytes == Wrap(done)
    requires key in rest && rest[key] == EntrySize(key, member)
    ensures next == Wrap(more) && more + SumOver(rest - {key}) == done + SumOver(rest)
    decreases v, 1
  {
    var size := MeasureMember(key, member, v);
    next, more := AddSize(bytes, size, key, done, rest);
  }

  lemma {:induction false} MembersAdded(members: map<string, Value>)
    ensures Enclosed(|members|, 0) + SumOver(Sizes(members)) == JsonbTextBytes(VObject(members))
  {
    ObjectBytes(members);
  }

  method MeasureMembers(members: map<string, Value>, ghost v: Value) returns (bytes: int)
    requires v == VObject(members)
    ensures bytes == Wrap(JsonbTextBytes(v))
    decreases v, 2
  {
    bytes := MeasureFrame(|members|);
    ghost var done: nat := Enclosed(|members|, 0);
    ghost var rest := Sizes(members);
    MembersAdded(members);
    var left := members;
    while left != map[]
      invariant left.Keys == rest.Keys && forall k :: k in left ==> k in members && left[k] == members[k]
      invariant forall k :: k in rest ==> rest[k] == Sizes(members)[k]
      invariant bytes == Wrap(done) && done + SumOver(rest) == JsonbTextBytes(v)
      decreases |left|
    {
      var key :| key in left;
      bytes, done := AddMember(bytes, key, left[key], v, done, rest);
      rest, left := rest - {key}, left - {key};
    }
    assert rest == map[];
  }
}
