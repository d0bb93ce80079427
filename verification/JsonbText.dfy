/**
 The text that PostgreSQL writes for a jsonb value, as a string: a comma and a space between entries, a colon
 and a space after a key, the members of an object in any order, escapes only where a string needs them, and
 numbers in plain notation. Its length in bytes is the exact size.
 */
module JsonbText {
  import opened Prelude
  import opened Sequences
  import opened Decimal
  import opened Utf8
  import opened JsonNumbers
  import opened JsonSyntax
  import opened NumericText
  import opened JsonbSize
  import opened ExactSize

  // ----- Strings -------------------------------------------------------------------------------------------

  function HexOf(n: nat): char
    requires n < 16
  {
    "0123456789abcdef"[n]
  }

  /** How a character stands in a string. */
  function CharText(c: char): string {
    var code := c as int;
    if c == '"' then "\\\""
    else if c == '\\' then "\\\\"
    else if code == 8 then "\\b"
    else if code == 12 then "\\f"
    else if code == 10 then "\\n"
    else if code == 13 then "\\r"
    else if code == 9 then "\\t"
    else if code < 0x20 then "\\u00" + [HexOf(code / 16), HexOf(code % 16)]
    else [c]
  }

  function CharsText(s: string): string { if |s| == 0 then "" else CharsText(s[..|s| - 1]) + CharText(s[|s| - 1]) }

  function Quoted(s: string): string { "\"" + CharsText(s) + "\"" }

  lemma {:induction false} CharTextBytes(c: char)
    ensures Utf8Bytes(CharText(c)) == CharBytes(c)
  {
    if |CharText(c)| > 1 {
      AsciiBytes(CharText(c));
    } else {
      assert CharText(c)[..0] == "";
    }
  }

  lemma {:induction false} CharsTextBytes(s: string)
    ensures Utf8Bytes(CharsText(s)) == CharsBytes(s)
  {
    if |s| > 0 {
      CharsTextBytes(s[..|s| - 1]);
      CharTextBytes(s[|s| - 1]);
      Utf8Concat(CharsText(s[..|s| - 1]), CharText(s[|s| - 1]));
    }
  }

  lemma {:induction false} QuotedBytes(s: string)
    ensures Utf8Bytes(Quoted(s)) == StringBytes(s)
  {
    CharsTextBytes(s);
    AsciiBytes("\"");
    Utf8Three("\"", CharsText(s), "\"");
  }

  // ----- Values --------------------------------------------------------------------------------------------

  /** The texts with a comma and a space between them. */
  function Joined(texts: seq<string>): string {
    var n := |texts| - 1;
    if |texts| == 0 then "" else if n == 0 then texts[0] else Joined(texts[..n]) + ", " + texts[n]
  }

  function EntryTexts(keys: seq<string>, texts: seq<string>): seq<string>
    requires |keys| == |texts|
  {
    seq(|keys|, i requires 0 <= i < |keys| => Quoted(keys[i]) + ": " + texts[i])
  }

  /** `text` is the plain notation of the number that `token` spells. */
  ghost predicate WritesNumber(token: string, text: string, n: Number, p: Plain) {
    IsNumber(n) && NumberText(n) == token && FitsInt(ExponentValue(n)) && Renders(p, n) && text == PlainText(p)
  }

  /** `text` is a jsonb text of the value. */
  ghost predicate Writes(v: Value, text: string)
    decreases v, 1
  {
    match v
    case VNull => text == "null"
    case VBool(value) => text == if value then "true" else "false"
    case VNumber(token) => exists n, p :: WritesNumber(token, text, n, p)
    case VString(s) => text == Quoted(s)
    case VArray(elements) => exists texts :: WritesElements(v, texts) && text == "[" + Joined(texts) + "]"
    case VObject(members) =>
      exists keys, texts :: WritesMembers(v, keys, texts) && text == "{" + Joined(EntryTexts(keys, texts)) + "}"
  }

  ghost predicate WritesElements(v: Value, texts: seq<string>)
    requires v.VArray?
    decreases v, 0
  {
    |texts| == |v.elements| && forall i :: 0 <= i < |texts| ==> Writes(v.elements[i], texts[i])
  }

  /** `keys` lists the keys in any order. */
  ghost predicate WritesMembers(v: Value, keys: seq<string>, texts: seq<string>)
    requires v.VObject?
    decreases v, 0
  {
    && |keys| == |texts| && Lists(keys, v.members.Keys)
    && forall i :: 0 <= i < |keys| ==> keys[i] in v.members && Writes(v.members[keys[i]], texts[i])
  }

  // ----- Its length is the exact size ------------------------------------------------------------------------

  function TotalBytes(texts: seq<string>): nat {
    if |texts| == 0 then 0 else TotalBytes(texts[..|texts| - 1]) + Utf8Bytes(texts[|texts| - 1])
  }

  lemma {:induction false} JoinedBytes(texts: seq<string>)
    ensures Utf8Bytes(Joined(texts)) == TotalBytes(texts) + if |texts| > 0 then 2 * (|texts| - 1) else 0
  {
    var n := |texts| - 1;
    if n > 0 {
      JoinedBytes(texts[..n]);
      AsciiBytes(", ");
      Utf8Three(Joined(texts[..n]), ", ", texts[n]);
    } else if n == 0 {
      assert texts[..0] == [];
    }
  }

  lemma {:induction false} EnclosedBytes(open: string, texts: seq<string>, close: string)
    requires IsAscii(open) && IsAscii(close) && |open| == |close| == 1
    ensures Utf8Bytes(open + Joined(texts) + close) == Enclosed(|texts|, TotalBytes(texts))
  {
    JoinedBytes(texts);
    AsciiBytes(open);
    AsciiBytes(close);
    Utf8Three(open, Joined(texts), close);
  }

  lemma {:induction false} NumberTextIsExact(token: string, text: string, n: Number, p: Plain)
    requires WritesNumber(token, text, n, p)
    ensures Utf8Bytes(text) == ExactNumber(token)
  {
    TokenIsRead(n);
    PlainLengthIsLength(n, p);
    PlainIsAscii(p);
    AsciiBytes(text);
  }

  lemma {:induction false} PlainIsAscii(p: Plain)
    requires IsDigits(p.whole) && IsDigits(p.fraction)
    ensures IsAscii(PlainText(p))
  {
  }

  lemma {:induction false} ElementsAreExact(elements: seq<Value>, texts: seq<string>)
    requires |texts| == |elements| && forall i :: 0 <= i < |texts| ==> Utf8Bytes(texts[i]) == ExactBytes(elements[i])
    ensures TotalBytes(texts) == ExactElements(elements)
  {
    if |texts| > 0 {
      var n := |texts| - 1;
      assert forall i :: 0 <= i < n ==> texts[..n][i] == texts[i] && elements[..n][i] == elements[i];
      ElementsAreExact(elements[..n], texts[..n]);
    }
  }

  /** Sizes add up in any order of the keys. */
  lemma {:induction false} ListedBytes(sizes: map<string, nat>, keys: seq<string>, texts: seq<string>)
    requires Lists(keys, sizes.Keys) && |keys| == |texts|
    requires forall i :: 0 <= i < |keys| ==> keys[i] in sizes && Utf8Bytes(texts[i]) == sizes[keys[i]]
    ensures TotalBytes(texts) == SumOver(sizes)
    decreases |keys|
  {
    var n := |keys| - 1;
    if n < 0 {
      assert sizes == map[];
    } else {
      var rest := sizes - {keys[n]};
      assert keys == keys[..n] + [keys[n]];
      assert forall i :: 0 <= i < n ==> keys[..n][i] == keys[i] && texts[..n][i] == texts[i];
      assert Lists(keys[..n], rest.Keys);
      ListedBytes(rest, keys[..n], texts[..n]);
      SumOverAny(sizes, keys[n]);
    }
  }

  lemma {:induction false} EntryTextBytes(key: string, text: string)
    ensures Utf8Bytes(Quoted(key) + ": " + text) == StringBytes(key) + 2 + Utf8Bytes(text)
  {
    QuotedBytes(key);
    AsciiBytes(": ");
    Utf8Three(Quoted(key), ": ", text);
  }

  lemma {:induction false} MembersAreExact(v: Value, keys: seq<string>, texts: seq<string>)
    requires v.VObject? && WritesMembers(v, keys, texts)
    requires forall i :: 0 <= i < |keys| ==> keys[i] in v.members && Utf8Bytes(texts[i]) == ExactBytes(v.members[keys[i]])
    ensures TotalBytes(EntryTexts(keys, texts)) == SumOver(ExactSizes(v.members))
  {
    var entries, sizes := EntryTexts(keys, texts), ExactSizes(v.members);
    assert sizes.Keys == v.members.Keys;
    forall i | 0 <= i < |keys| ensures keys[i] in sizes && Utf8Bytes(entries[i]) == sizes[keys[i]] {
      EntryTextBytes(keys[i], texts[i]);
    }
    ListedBytes(sizes, keys, entries);
  }

  /** The number of keys is the number of members. */
  lemma {:induction false} ListLength(keys: seq<string>, all: set<string>)
    requires Lists(keys, all)
    ensures |keys| == |all|
    decreases |keys|
  {
    var n := |keys| - 1;
    if n < 0 {
      assert all == {};
    } else {
      assert keys == keys[..n] + [keys[n]];
      assert Lists(keys[..n], all - {keys[n]});
      ListLength(keys[..n], all - {keys[n]});
    }
  }

  /** Every jsonb text of a value has the exact size. */
  lemma {:induction false} TextHasExactSize(v: Value, text: string)
    requires Writes(v, text)
    ensures Utf8Bytes(text) == ExactBytes(v)
    decreases v, 1
  {
    match v {
      case VNull => AsciiBytes(text);
      case VBool(_) => AsciiBytes(text);
      case VNumber(token) =>
        var n, p :| WritesNumber(token, text, n, p);
        NumberTextIsExact(token, text, n, p);
        assert ExactContent(v) == ExactNumber(token);
      case VString(s) => QuotedBytes(s);
      case VArray(elements) =>
        var texts :| WritesElements(v, texts) && text == "[" + Joined(texts) + "]";
        ArrayHasExactSize(v, texts);
      case VObject(members) =>
        var keys, texts :| WritesMembers(v, keys, texts) && text == "{" + Joined(EntryTexts(keys, texts)) + "}";
        ObjectHasExactSize(v, keys, texts);
    }
  }

  lemma {:induction false} ArrayHasExactSize(v: Value, texts: seq<string>)
    requires v.VArray? && WritesElements(v, texts)
    ensures Utf8Bytes("[" + Joined(texts) + "]") == ExactBytes(v)
    decreases v, 0
  {
    forall i | 0 <= i < |texts| ensures Utf8Bytes(texts[i]) == ExactBytes(v.elements[i]) {
      TextHasExactSize(v.elements[i], texts[i]);
    }
    ElementsAreExact(v.elements, texts);
    EnclosedBytes("[", texts, "]");
    assert ExactContent(v) == ExactElements(v.elements);
  }

  lemma {:induction false} ObjectHasExactSize(v: Value, keys: seq<string>, texts: seq<string>)
    requires v.VObject? && WritesMembers(v, keys, texts)
    ensures Utf8Bytes("{" + Joined(EntryTexts(keys, texts)) + "}") == ExactBytes(v)
    decreases v, 0
  {
    forall i | 0 <= i < |keys| ensures keys[i] in v.members && Utf8Bytes(texts[i]) == ExactBytes(v.members[keys[i]]) {
      TextHasExactSize(v.members[keys[i]], texts[i]);
    }
    MembersAreExact(v, keys, texts);
    ListLength(keys, v.members.Keys);
    ObjectExact(v.members);
    EnclosedBytes("{", EntryTexts(keys, texts), "}");
  }

  // ----- Every value has a text ------------------------------------------------------------------------------

  ghost predicate IsToken(token: string, n: Number) { IsNumber(n) && NumberText(n) == token && FitsInt(ExponentValue(n)) }

  /** Every number of the value is the token of a number whose exponent fits an integer. */
  ghost predicate HasTokens(v: Value)
    decreases v
  {
    match v
    case VNumber(token) => exists n :: IsToken(token, n)
    case VArray(elements) => forall i :: 0 <= i < |elements| ==> HasTokens(elements[i])
    case VObject(members) => forall k :: k in members ==> HasTokens(members[k])
    case _ => true
  }

  lemma {:induction false} ElementsHaveTexts(v: Value, n: nat) returns (texts: seq<string>)
    requires v.VArray? && n <= |v.elements| && HasTokens(v)
    ensures |texts| == n && forall i :: 0 <= i < n ==> Writes(v.elements[i], texts[i])
    decreases v, 0, n
  {
    if n == 0 {
      texts := [];
    } else {
      texts := ElementsHaveTexts(v, n - 1);
      var last := HasText(v.elements[n - 1]);
      texts := texts + [last];
    }
  }

  lemma {:induction false} MembersHaveTexts(v: Value, keys: seq<string>) returns (texts: seq<string>)
    requires v.VObject? && HasTokens(v) && forall k :: k in keys ==> k in v.members
    ensures |texts| == |keys| && forall i :: 0 <= i < |keys| ==> keys[i] in v.members && Writes(v.members[keys[i]], texts[i])
    decreases v, 0, |keys|
  {
    if |keys| == 0 {
      texts := [];
    } else {
      var n := |keys| - 1;
      texts := MembersHaveTexts(v, keys[..n]);
      assert keys[n] in keys;
      var last := HasText(v.members[keys[n]]);
      assert forall i :: 0 <= i < n ==> keys[..n][i] == keys[i];
      texts := texts + [last];
    }
  }

  lemma {:induction false} HasText(v: Value) returns (text: string)
    requires HasTokens(v)
    ensures Writes(v, text)
    decreases v, 1
  {
    match v {
      case VNull => text := "null";
      case VBool(value) => text := if value then "true" else "false";
      case VNumber(token) =>
        var n :| IsToken(token, n);
        RenderedRenders(n);
        text := PlainText(Rendered(n));
        assert WritesNumber(token, text, n, Rendered(n));
      case VString(s) => text := Quoted(s);
      case VArray(elements) =>
        var texts := ElementsHaveTexts(v, |elements|);
        text := "[" + Joined(texts) + "]";
        assert WritesElements(v, texts);
      case VObject(members) =>
        var keys := SomeList(members.Keys);
        var texts := MembersHaveTexts(v, keys);
        text := "{" + Joined(EntryTexts(keys, texts)) + "}";
        assert WritesMembers(v, keys, texts);
    }
  }

  /** The machine measure is the length of the text exactly when that fits an integer and so does the point of every number. */
  lemma {:induction false} MeasureIsTextLength(v: Value, text: string)
    requires ShortTokens(v) && Writes(v, text)
    ensures Wrap(JsonbTextBytes(v)) == |Encode(text)| <==> |Encode(text)| <= INT_MAX && PointsFit(v)
  {
    TextHasExactSize(v, text);
    Utf8BytesIsLength(text);
    MeasureIsExactly(v);
  }
}
