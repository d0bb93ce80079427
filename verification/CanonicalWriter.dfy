/** Writing the canonical form, value by value. */
module CanonicalWriter {
  import opened Prelude
  import opened Ordering
  import opened Decimal
  import opened JsonNumbers
  import opened JsonSyntax
  import opened JsonTokens
  import opened JsonParser
  import opened CanonicalNumbers
  import opened CanonicalJson
  import opened Sequences

  lemma {:induction false} OnePieceText(p: Piece)
    ensures PiecesText([p]) == PieceText(p)
  {
    assert PiecesText([p]) == PieceText(p) + PiecesText([]);
  }

  lemma {:induction false} PieceAppended(before: string, pieces: seq<Piece>, i: nat)
    requires i < |pieces| && before == QUOTE + PiecesText(pieces[..i])
    ensures before + PieceText(pieces[i]) == QUOTE + PiecesText(pieces[..i + 1])
  {
    assert pieces[..i + 1] == pieces[..i] + [pieces[i]];
    PiecesConcat(pieces[..i], [pieces[i]]);
    OnePieceText(pieces[i]);
    Associate(QUOTE, PiecesText(pieces[..i]), PieceText(pieces[i]));
  }

  method WriteString(text: string) returns (out: string)
    ensures out == LiteralText(CanonicalPieces(text))
  {
    out := QUOTE;
    ghost var pieces := CanonicalPieces(text);
    var i := 0;
    while i < |text|
      invariant 0 <= i <= |text|
      invariant out == QUOTE + PiecesText(pieces[..i])
    {
      var escaped := WriteChar(text[i]);
      PieceAppended(out, pieces, i);
      out := out + escaped;
      i := i + 1;
    }
    assert pieces[..i] == pieces;
    out := out + QUOTE;
  }

  method WriteChar(c: char) returns (out: string)
    ensures out == PieceText(CharPiece(c))
  {
    var code := c as int;
    if c == '"' {
      out := ['\\', '"'];
    } else if c == '\\' {
      out := ['\\', '\\'];
    } else if code == 8 {
      out := ['\\', 'b'];
    } else if code == 12 {
      out := ['\\', 'f'];
    } else if c == '\n' {
      out := ['\\', 'n'];
    } else if c == '\r' {
      out := ['\\', 'r'];
    } else if c == '\t' {
      out := ['\\', 't'];
    } else if code < 0x20 {
      out := ['\\', 'u', '0', '0', HexDigit(code / 16), HexDigit(code % 16)];
    } else {
      out := [c];
    }
  }

  /** The keys of a map in their canonical order, from whatever order the map gives them in. */
  method SortedKeys<T>(members: map<string, T>) returns (keys: seq<string>)
    ensures keys == CanonicalKeys(members.Keys)
  {
    var left, list := members.Keys, [];
    while left != {}
      invariant left <= members.Keys
      invariant Distinct(list) && forall k :: k in list <==> k in members.Keys && k !in left
      decreases |left|
    {
      var key :| key in left;
      assert key !in list;
      list := list + [key];
      left := left - {key};
    }
    keys := Sort(list, KeyOrder());
    OrderIsIndependent(list, members.Keys);
  }

  /** The canonical text of what the value denotes. */
  ghost function Written(v: Value, reader: Reader): string { CanonicalText(Denote(v, reader)) }

  /** Writes the value, or nothing when it has a number without a fingerprint. */
  method WriteCanonical(v: Value, reader: Reader) returns (out: Option<string>)
    ensures out.Some? <==> Acceptable(v, reader)
    ensures out.Some? ==> out.value == Written(v, reader)
    decreases v, 1
  {
    match v {
      case VNull =>
        assert PlainTree(DNull) == Null;
        out := Some("null");
      case VBool(value) =>
        assert PlainTree(DBool(value)) == Bool(value);
        out := Some(if value then "true" else "false");
      case VNumber(token) =>
        var reading := reader.read(token);
        if reading.OutOfRange? || reader.large(reading.double) || reader.exceeds(token) {
          return None;
        }
        LayoutSpells(reading.double);
        assert PlainTree(DNumber(reading.double)) == Num(Layout(reading.double));
        out := Some(EcmaScriptNumber(reading.double));
      case VString(text) =>
        var written := WriteString(text);
        assert PlainTree(DString(text)) == Str(CanonicalPieces(text));
        out := Some(written);
      case VArray(elements) => out := WriteArray(v, reader);
      case VObject(members) => out := WriteObject(v, reader);
    }
  }

  lemma {:induction false} AppendText(texts: seq<string>, i: nat, before: string)
    requires i < |texts| && |before| > 0 && before == [before[0]] + Join(texts[..i])
    ensures [before[0]] + Join(texts[..i + 1]) == if i > 0 then before + [','] + texts[i] else before + texts[i]
  {
    var open := [before[0]];
    assert texts[..i + 1][..i] == texts[..i];
    if i > 0 {
      Regroup(open, Join(texts[..i]), [','], texts[i]);
    }
  }

  // ----- Arrays ------------------------------------------------------------------------------------------

  ghost function ElementsWritten(elements: seq<Value>, reader: Reader): seq<string> {
    seq(|elements|, i requires 0 <= i < |elements| => Written(elements[i], reader))
  }

  lemma {:induction false} ArrayText(elements: seq<Datum>)
    ensures CanonicalText(DArray(elements)) == ['['] + Join(Texts(elements)) + [']']
  {
    if |elements| > 0 {
      ItemsJoin(elements);
      Associate(['['], Join(Texts(elements)), [']']);
      assert PlainTree(DArray(elements)) == Arr(TreeItems(elements));
    } else {
      assert PlainTree(DArray(elements)) == EmptyArr("");
    }
  }

  lemma {:induction false} ArrayWritten(v: Value, reader: Reader)
    requires v.VArray?
    ensures Written(v, reader) == ['['] + Join(ElementsWritten(v.elements, reader)) + [']']
  {
    var d := DenoteEntries(v, reader);
    assert Denote(v, reader) == d;
    ArrayText(d.elements);
    assert Texts(d.elements) == ElementsWritten(v.elements, reader);
  }

  method WriteElements(v: Value, reader: Reader) returns (out: Option<string>)
    requires v.VArray?
    ensures out.Some? <==> forall i :: 0 <= i < |v.elements| ==> Acceptable(v.elements[i], reader)
    ensures out.Some? ==> out.value == ['['] + Join(ElementsWritten(v.elements, reader)) + [']']
    decreases v, 0, 1
  {
    var elements := v.elements;
    ghost var texts := ElementsWritten(elements, reader);
    var text := ['['];
    var i := 0;
    while i < |elements|
      invariant 0 <= i <= |elements|
      invariant forall k :: 0 <= k < i ==> Acceptable(elements[k], reader)
      invariant text == ['['] + Join(texts[..i])
    {
      var item := WriteCanonical(elements[i], reader);
      if item.None? {
        return None;
      }
      assert forall k :: 0 <= k < i + 1 ==> Acceptable(elements[k], reader);
      AppendText(texts, i, text);
      text := if i > 0 then text + [','] + item.value else text + item.value;
      assert text == ['['] + Join(texts[..i + 1]);
      i := i + 1;
    }
    assert texts[..i] == texts;
    return Some(text + [']']);
  }

  lemma {:induction false} AllElementsAccepted(v: Value, reader: Reader)
    requires v.VArray?
    ensures (forall i :: 0 <= i < |v.elements| ==> Acceptable(v.elements[i], reader)) <==> Acceptable(v, reader)
  {
    assert Acceptable(v, reader) <==> EntriesAcceptable(v, reader);
  }

  method WriteArray(v: Value, reader: Reader) returns (out: Option<string>)
    requires v.VArray?
    ensures out.Some? <==> Acceptable(v, reader)
    ensures out.Some? ==> out.value == Written(v, reader)
    decreases v, 0, 2
  {
    out := WriteElements(v, reader);
    AllElementsAccepted(v, reader);
    ArrayWritten(v, reader);
  }

  // ----- Objects -----------------------------------------------------------------------------------------

  ghost function EntryWritten(key: string, v: Value, reader: Reader): string {
    LiteralText(CanonicalPieces(key)) + [':'] + Written(v, reader)
  }

  /** The members of an object, in the order of `keys`. */
  function Entries(v: Value, keys: seq<string>): seq<Value>
    requires v.VObject? && forall k :: k in keys ==> k in v.members
  {
    seq(|keys|, i requires 0 <= i < |keys| => v.members[keys[i]])
  }

  ghost function EntriesWritten(keys: seq<string>, entries: seq<Value>, reader: Reader): seq<string>
    requires |keys| == |entries|
  {
    seq(|keys|, i requires 0 <= i < |keys| => EntryWritten(keys[i], entries[i], reader))
  }

  lemma {:induction false} ObjectText(d: Datum, keys: seq<string>)
    requires d.DObject? && forall k :: k in keys ==> k in d.members
    ensures Text(ObjectTree(d, keys)) == ['{'] + Join(EntryTexts(d, keys)) + ['}']
  {
    if |keys| > 0 {
      MembersJoin(d, keys);
      Associate(['{'], Join(EntryTexts(d, keys)), ['}']);
      assert ObjectTree(d, keys) == Obj(TreeMembers(d, keys));
    } else {
      assert ObjectTree(d, keys) == EmptyObj("") && EntryTexts(d, keys) == [];
    }
  }

  lemma {:induction false} ObjectWritten(v: Value, reader: Reader, keys: seq<string>)
    requires v.VObject? && keys == CanonicalKeys(v.members.Keys) && forall k :: k in keys ==> k in v.members
    ensures Written(v, reader) == ['{'] + Join(EntriesWritten(keys, Entries(v, keys), reader)) + ['}']
  {
    var d := DenoteEntries(v, reader);
    assert Denote(v, reader) == d && d.members.Keys == v.members.Keys;
    ObjectText(d, keys);
    assert EntryTexts(d, keys) == EntriesWritten(keys, Entries(v, keys), reader);
    assert Tree(d) == ObjectTree(d, keys);
  }

  method WriteEntry(key: string, v: Value, reader: Reader) returns (out: Option<string>)
    ensures out.Some? <==> Acceptable(v, reader)
    ensures out.Some? ==> out.value == EntryWritten(key, v, reader)
    decreases v, 2
  {
    var name := WriteString(key);
    var item := WriteCanonical(v, reader);
    if item.None? {
      return None;
    }
    return Some(name + [':'] + item.value);
  }

  method WriteEntries(v: Value, reader: Reader, keys: seq<string>, ghost entries: seq<Value>) returns (out: Option<string>)
    requires v.VObject? && (forall k :: k in keys ==> k in v.members) && entries == Entries(v, keys)
    ensures out.Some? <==> forall i :: 0 <= i < |entries| ==> Acceptable(entries[i], reader)
    ensures out.Some? ==> out.value == ['{'] + Join(EntriesWritten(keys, entries, reader)) + ['}']
    decreases v, 0, 1
  {
    ghost var texts := EntriesWritten(keys, entries, reader);
    var text := ['{'];
    var i := 0;
    while i < |keys|
      invariant 0 <= i <= |keys|
      invariant forall k :: 0 <= k < i ==> Acceptable(entries[k], reader)
      invariant text == ['{'] + Join(texts[..i])
    {
      var entry := WriteEntry(keys[i], v.members[keys[i]], reader);
      assert v.members[keys[i]] == entries[i];
      if entry.None? {
        return None;
      }
      assert forall k :: 0 <= k < i + 1 ==> Acceptable(entries[k], reader);
      AppendText(texts, i, text);
      text := if i > 0 then text + [','] + entry.value else text + entry.value;
      i := i + 1;
    }
    assert texts[..i] == texts;
    return Some(text + ['}']);
  }

  lemma {:induction false} AllEntriesAccepted(v: Value, reader: Reader, keys: seq<string>)
    requires v.VObject? && forall k :: k in keys <==> k in v.members
    ensures (forall i :: 0 <= i < |keys| ==> Acceptable(Entries(v, keys)[i], reader)) <==> Acceptable(v, reader)
  {
    var entries := Entries(v, keys);
    if EntriesAcceptable(v, reader) {
      forall i | 0 <= i < |keys| ensures Acceptable(entries[i], reader) {
        assert keys[i] in keys;
      }
    } else {
      var k :| k in v.members && !Acceptable(v.members[k], reader);
      var i :| 0 <= i < |keys| && keys[i] == k;
      assert !Acceptable(entries[i], reader);
    }
  }

  method WriteObject(v: Value, reader: Reader) returns (out: Option<string>)
    requires v.VObject?
    ensures out.Some? <==> Acceptable(v, reader)
    ensures out.Some? ==> out.value == Written(v, reader)
    decreases v, 0, 2
  {
    var keys := SortedKeys(v.members);
    OrderIsIndependent(SomeList(v.members.Keys), v.members.Keys);
    out := WriteEntries(v, reader, keys, Entries(v, keys));
    AllEntriesAccepted(v, reader, keys);
    ObjectWritten(v, reader, keys);
  }
}
