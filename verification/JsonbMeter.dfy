/** The stack scanner as it runs over the encoded text, token by token and in machine integers. */
module JsonbMeter {
  import opened Prelude
  import opened JsonNumbers
  import opened JsonSyntax
  import opened JsonTokens
  import opened NumericText
  import opened JsonbSize
  import opened JsonbScanner

  /** The position of the quote that closes the literal whose text starts at `start`. */
  method FindLiteralEnd(encoded: string, start: nat) returns (end: nat)
    requires start <= |encoded|
    ensures end == start + LiteralLength(encoded[start..])
  {
    end := start;
    while end < |encoded| && encoded[end] != '"'
      invariant start <= end <= |encoded|
      invariant end + LiteralLength(encoded[end..]) == start + LiteralLength(encoded[start..])
    {
      assert encoded[end..][0] == encoded[end];
      if encoded[end] == '\\' && end + 1 < |encoded| {
        assert encoded[end..][2..] == encoded[end + 2..];
        end := end + 2;
      } else {
        assert encoded[end..][1..] == encoded[end + 1..];
        end := end + 1;
      }
    }
  }

  method FindNumberEnd(encoded: string, start: nat) returns (end: nat)
    requires start <= |encoded|
    ensures end == start + NumberLength(encoded[start..])
  {
    end := start;
    while end < |encoded| && IsNumberByte(encoded[end])
      invariant start <= end <= |encoded|
      invariant end + NumberLength(encoded[end..]) == start + NumberLength(encoded[start..])
    {
      assert encoded[end..][1..] == encoded[end + 1..];
      end := end + 1;
    }
  }

  /** An open container as the loop holds it, in machine integers. */
  datatype Frame = Frame(isObject: bool, members: map<string, int>, bytes: int, count: nat, key: string)

  /** The sizes in machine integers. */
  ghost predicate RoundsSizes(members: map<string, int>, sizes: map<string, nat>) {
    members.Keys == sizes.Keys && forall k :: k in members ==> members[k] == Wrap(sizes[k])
  }

  ghost predicate Rounds(f: Frame, c: Container) {
    && f.isObject == c.isObject && f.count == c.count && f.key == c.key
    && f.bytes == Wrap(c.bytes) && RoundsSizes(f.members, c.members)
  }

  lemma RoundsMember(f: Frame, c: Container, entry: int, size: nat)
    requires Rounds(f, c) && entry == Wrap(size)
    ensures Rounds(f.(members := f.members[f.key := entry]), c.(members := c.members[c.key := size]))
  {
  }

  method MeasureEntry(key: string, bytes: int, ghost size: nat) returns (entry: int)
    requires bytes == Wrap(size)
    ensures entry == Wrap(StringBytes(key) + 2 + size)
  {
    entry := MeasureString(key);
    entry := Plus(entry, 2, StringBytes(key));
    entry := PlusWrapped(entry, bytes, StringBytes(key) + 2, size);
  }

  class Meter {
    var stack: seq<Frame>
    var result: int
    var expectKey: bool

    /** The scanner whose numbers these are, before they wrap around. */
    ghost var exact: Scanner

    ghost predicate Valid()
      reads this
    {
      && expectKey == exact.expectKey && result == Wrap(exact.result) && |stack| == |exact.stack|
      && forall i :: 0 <= i < |stack| ==> Rounds(stack[i], exact.stack[i])
    }

    constructor ()
      ensures Valid() && exact == START
    {
      stack, result, expectKey, exact := [], 0, false, START;
    }

    /** Adds `bytes` to the top frame, or sets `result`; `exact` takes the same step with `size`. */
    method AddValue(bytes: int, ghost size: nat)
      requires Valid() && bytes == Wrap(size)
      modifies this
      ensures Valid() && exact == Add(old(exact), size)
    {
      exact := Add(exact, size);
      if |stack| == 0 {
        result := bytes;
        return;
      }
      var top := stack[|stack| - 1];
      if top.isObject {
        var entry := MeasureEntry(top.key, bytes, size);
        RoundsMember(top, Top(old(exact)), entry, StringBytes(top.key) + 2 + size);
        stack := stack[|stack| - 1 := top.(members := top.members[top.key := entry])];
      } else {
        var sum := PlusWrapped(top.bytes, bytes, old(exact).stack[|stack| - 1].bytes, size);
        stack := stack[|stack| - 1 := top.(bytes := sum, count := top.count + 1)];
      }
    }

    method OpenContainer(isObject: bool)
      requires Valid()
      modifies this
      ensures Valid() && exact == Opened(old(exact), isObject)
    {
      stack := stack + [Frame(isObject, map[], 0, 0, "")];
      expectKey := isObject;
      exact := Opened(exact, isObject);
    }

    method CloseContainer()
      requires Valid() && |stack| > 0
      modifies this
      ensures Valid() && exact == Closed(old(exact))
    {
      var top := stack[|stack| - 1];
      ghost var open := Top(exact);
      var size: int;
      ghost var exactSize: nat;
      if top.isObject {
        size := SumMembers(top.members, open.members);
        exactSize := Enclosed(|open.members|, SumOver(open.members));
        assert |top.members| == |open.members| by {
          assert top.members.Keys == open.members.Keys;
        }
        size := Enclose(size, |top.members|, SumOver(open.members));
      } else {
        exactSize := Enclosed(open.count, open.bytes);
        size := Enclose(top.bytes, top.count, open.bytes);
      }
      stack := stack[..|stack| - 1];
      expectKey := false;
      exact := Below(exact);
      AddValue(size, exactSize);
    }

    method ReadString(text: string)
      requires Valid()
      modifies this
      ensures Valid() && exact == Quoted(old(exact), text)
    {
      if expectKey && |stack| > 0 {
        stack := stack[|stack| - 1 := stack[|stack| - 1].(key := text)];
        expectKey := false;
        exact := Quoted(exact, text);
      } else {
        var bytes := MeasureString(text);
        AddValue(bytes, StringBytes(text));
      }
    }

    /** A comma starts a key in an object, and a value in an array. */
    method ReadComma()
      requires Valid()
      modifies this
      ensures Valid() && exact == Separated(old(exact))
    {
      expectKey := |stack| > 0 && stack[|stack| - 1].isObject;
      exact := Separated(exact);
    }
  }

  /** The brackets around the entries, and the commas between them. */
  method Enclose(bytes: int, count: nat, ghost exact: nat) returns (size: int)
    requires bytes == Wrap(exact)
    ensures size == Wrap(Enclosed(count, exact))
  {
    size := bytes;
    if count > 0 {
      size := Plus(size, 2 * (count - 1), exact);
    }
    size := Plus(size, 2, exact + if count > 0 then 2 * (count - 1) else 0);
  }

  /** Adds the sizes in whatever order the map gives them. */
  method SumMembers(members: map<string, int>, ghost sizes: map<string, nat>) returns (bytes: int)
    requires RoundsSizes(members, sizes)
    ensures bytes == Wrap(SumOver(sizes))
  {
    bytes := 0;
    ghost var done: nat := 0;
    ghost var rest := sizes;
    var left := members;
    while left != map[]
      invariant RoundsSizes(left, rest)
      invariant bytes == Wrap(done) && done + SumOver(rest) == SumOver(sizes)
      decreases |left|
    {
      var key :| key in left;
      bytes, done := AddSize(bytes, left[key], key, done, rest);
      rest, left := rest - {key}, left - {key};
    }
    assert rest == map[];
  }

  /** Reads the token at `index`, and gives the position after it. */
  method ReadToken(meter: Meter, encoded: string, index: nat) returns (next: nat)
    requires meter.Valid() && index < |encoded|
    modifies meter
    ensures meter.Valid() && next == index + Consumed(encoded[index..])
    ensures meter.exact == After(encoded[index..], old(meter.exact))
  {
    var c := encoded[index];
    ghost var rest := encoded[index..];
    assert rest[0] == c && rest[1..] == encoded[index + 1..];
    if c == '"' {
      var end := FindLiteralEnd(encoded, index + 1);
      assert rest[1..][..end - index - 1] == encoded[index + 1..end];
      meter.ReadString(Unquote(encoded[index + 1..end]));
      next := Min(end + 1, |encoded|);
    } else if c == 't' || c == 'n' {
      meter.AddValue(4, 4);
      next := Min(index + 4, |encoded|);
    } else if c == 'f' {
      meter.AddValue(5, 5);
      next := Min(index + 5, |encoded|);
    } else if IsNumberByte(c) {
      next := FindNumberEnd(encoded, index);
      assert rest[..next - index] == encoded[index..next];
      var bytes := MeasureNumber(encoded[index..next]);
      meter.AddValue(bytes, NumberSize(encoded[index..next]));
    } else {
      ReadMark(meter, c);
      next := index + 1;
    }
  }

  method ReadMark(meter: Meter, c: char)
    requires meter.Valid()
    modifies meter
    ensures meter.Valid() && meter.exact == Marked(c, old(meter.exact))
  {
    if c == '{' || c == '[' {
      meter.OpenContainer(c == '{');
    } else if c == '}' || c == ']' {
      if |meter.stack| > 0 {
        meter.CloseContainer();
      }
    } else if c == ',' {
      meter.ReadComma();
    }
  }

  /** Measures any text token by token. On the text of a document the result is the recursive measure. */
  method ScannedTextBytes(encoded: string, ghost document: Option<Item>) returns (bytes: int)
    requires document.Some? ==> ValidItem(document.value) && encoded == ItemText(document.value)
    ensures bytes == Wrap(Scan(encoded, START).result)
    ensures document.Some? ==> bytes == Wrap(JsonbTextBytes(Decode(document.value.value)))
  {
    var meter := new Meter();
    var index := 0;
    assert encoded[0..] == encoded;
    while index < |encoded|
      invariant 0 <= index <= |encoded|
      invariant fresh(meter) && meter.Valid()
      invariant Scan(encoded[index..], meter.exact) == Scan(encoded, START)
    {
      ghost var rest, before := encoded[index..], meter.exact;
      var next := ReadToken(meter, encoded, index);
      assert Next(rest, before) == Scan(rest[Consumed(rest)..], After(rest, before));
      assert rest[Consumed(rest)..] == encoded[next..];
      index := next;
    }
    bytes := meter.result;
    if document.Some? {
      ScannerIsMeasure(document.value);
    }
  }
}
