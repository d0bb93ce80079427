/**
 The two scanners that look for escapes PostgreSQL or a checkpoint fingerprint refuses: one for values
 that jsonb must store, and one for the input of a fingerprint.
 */
module Escapes {
  import opened Prelude
  import opened Decimal
  import opened JsonSyntax
  import opened JsonTokens
  import opened Sequences

  // ----- The scanners, on the rest of the text -------------------------------------------------------

  /** The code unit of the \u escape that the text starts with. */
  function EscapedUnit(text: string): Option<nat> {
    if |text| < 6 || text[0] != '\\' || text[1] != 'u' || !IsHex(text[2..6]) then None else Some(Unit(text[2..6]))
  }

  datatype Escaped = Escaped(invalid: bool, replacements: nat)

  /** Lone surrogates make the text invalid; escapes of U+FFFD are counted. */
  function ScanEscapes(text: string, count: nat): Escaped
    decreases |text|
  {
    if |text| == 0 then Escaped(false, count)
    else if text[0] != '\\' then ScanEscapes(text[1..], count)
    else
      var unit := EscapedUnit(text);
      if unit.None? then ScanEscapes(text[Min(2, |text|)..], count)
      else if IsLow(unit.value) then Escaped(true, count)
      else if IsHigh(unit.value) then
        var low := EscapedUnit(text[6..]);
        if low.None? || !IsLow(low.value) then Escaped(true, count) else ScanEscapes(text[12..], count)
      else ScanEscapes(text[6..], if unit.value == 0xFFFD then count + 1 else count)
  }

  /** Whether a low surrogate is due: not at all, at this position, or at one already passed. */
  datatype Due = NotDue | Here | Passed

  /** Whether jsonb refuses the rest of the text. */
  predicate FullScan(text: string, due: Due)
    decreases |text|
  {
    if |text| == 0 then !due.NotDue?
    else if text[0] != '\\' then FullScan(text[1..], if due.NotDue? then NotDue else Passed)
    else if due.Passed? then true
    else if |text| < 6 || text[1] != 'u' then !due.NotDue? || FullScan(text[Min(2, |text|)..], NotDue)
    else if !IsHex(text[2..6]) then false
    else
      var unit := Unit(text[2..6]);
      if due.Here? then !IsLow(unit) || FullScan(text[6..], NotDue)
      else if unit == 0 || IsLow(unit) then true
      else FullScan(text[6..], if IsHigh(unit) then Here else NotDue)
  }

  predicate IsNulDigits(digits: string) { |digits| >= 4 && digits[..4] == "0000" }

  /** Some \u escape of the text starts like one that jsonb refuses. */
  predicate MayHold(text: string)
    decreases |text|
  {
    if |text| == 0 then false
    else if text[0] != '\\' then MayHold(text[1..])
    else if |text| < 3 then false
    else (text[1] == 'u' && (text[2] == 'd' || text[2] == 'D' || IsNulDigits(text[2..]))) || MayHold(text[2..])
  }

  predicate HasUnstorableEscape(text: string) { MayHold(text) && FullScan(text, NotDue) }

  // ----- What they look for ------------------------------------------------------------------------------

  /** A piece of JSON text: no backslash outside an escape. */
  predicate ChunkOk(p: Piece) {
    match p
    case Raw(c) => c != '\\'
    case Short(c) => c != 'u'
    case Hex(digits) => IsHex(digits)
  }

  predicate ChunksOk(chunks: seq<Piece>) { forall i :: 0 <= i < |chunks| ==> ChunkOk(chunks[i]) }

  predicate IsLowPiece(p: Piece) { p.Hex? && IsLow(Unit(p.digits)) }

  predicate IsHighPiece(p: Piece) { p.Hex? && IsHigh(Unit(p.digits)) }

  /** Some surrogate escape stands outside a pair. */
  predicate HasLone(chunks: seq<Piece>) {
    if |chunks| == 0 then false
    else if StartsWithPair(chunks) then HasLone(chunks[2..])
    else IsHighPiece(chunks[0]) || IsLowPiece(chunks[0]) || HasLone(chunks[1..])
  }

  predicate IsNul(p: Piece) { p.Hex? && Unit(p.digits) == 0 }

  predicate HasNul(chunks: seq<Piece>) { exists i :: 0 <= i < |chunks| && IsNul(chunks[i]) }

  function Replacements(chunks: seq<Piece>): nat {
    if |chunks| == 0 then 0
    else (if chunks[0].Hex? && Unit(chunks[0].digits) == 0xFFFD then 1 else 0) + Replacements(chunks[1..])
  }

  // ----- Reading the first escape ------------------------------------------------------------------------

  lemma {:induction false} FirstChunk(p: Piece, rest: string)
    requires ChunkOk(p)
    ensures var text := PieceText(p) + rest;
            && text[|PieceText(p)|..] == rest
            && (p.Raw? <==> text[0] != '\\')
            && (p.Hex? ==> |text| >= 6 && text[1] == 'u' && text[2..6] == p.digits)
            && (p.Short? ==> |text| >= 2 && text[1] != 'u')
            && EscapedUnit(text) == if p.Hex? then Some(Unit(p.digits)) else None
  {
  }

  lemma {:induction false} FirstUnit(chunks: seq<Piece>)
    requires ChunksOk(chunks)
    ensures EscapedUnit(PiecesText(chunks)) == if |chunks| > 0 && chunks[0].Hex? then Some(Unit(chunks[0].digits)) else None
  {
    if |chunks| > 0 {
      FirstChunk(chunks[0], PiecesText(chunks[1..]));
    }
  }

  // ----- The scanners agree --------------------------------------------------------------------------------

  lemma {:induction false} ScanEscapesFinds(chunks: seq<Piece>, count: nat)
    requires ChunksOk(chunks)
    ensures ScanEscapes(PiecesText(chunks), count).invalid == HasLone(chunks)
    ensures !HasLone(chunks) ==> ScanEscapes(PiecesText(chunks), count).replacements == count + Replacements(chunks)
    decreases |chunks|
  {
    if |chunks| == 0 {
      return;
    }
    var p, rest := chunks[0], PiecesText(chunks[1..]);
    FirstChunk(p, rest);
    if StartsWithPair(chunks) {
      assert chunks[1..][0] == chunks[1] && chunks[1..][1..] == chunks[2..];
      FirstChunk(chunks[1], PiecesText(chunks[2..]));
      assert PiecesText(chunks)[12..] == rest[6..] == PiecesText(chunks[2..]);
      ScanEscapesFinds(chunks[2..], count);
    } else if IsHighPiece(p) {
      FirstUnit(chunks[1..]);
    } else if !IsLowPiece(p) {
      ScanEscapesFinds(chunks[1..], if p.Hex? && Unit(p.digits) == 0xFFFD then count + 1 else count);
    }
  }

  lemma {:induction false} PassedIsRefused(text: string)
    ensures FullScan(text, Passed)
    decreases |text|
  {
    if |text| > 0 && text[0] != '\\' {
      PassedIsRefused(text[1..]);
    }
  }

  lemma {:induction false} NulOfRest(chunks: seq<Piece>)
    requires |chunks| > 0
    ensures HasNul(chunks) <==> IsNul(chunks[0]) || HasNul(chunks[1..])
  {
    if HasNul(chunks[1..]) {
      var i :| 0 <= i < |chunks[1..]| && IsNul(chunks[1..][i]);
      assert IsNul(chunks[i + 1]);
    }
    if HasNul(chunks) && !IsNul(chunks[0]) {
      var i :| 0 <= i < |chunks| && IsNul(chunks[i]);
      assert IsNul(chunks[1..][i - 1]);
    }
  }

  predicate Bad(chunks: seq<Piece>) { HasLone(chunks) || HasNul(chunks) }

  lemma {:induction false} FullScanFinds(chunks: seq<Piece>)
    requires ChunksOk(chunks)
    ensures FullScan(PiecesText(chunks), NotDue) == Bad(chunks)
    ensures FullScan(PiecesText(chunks), Here) == (|chunks| == 0 || !IsLowPiece(chunks[0]) || Bad(chunks[1..]))
    decreases |chunks|
  {
    if |chunks| == 0 {
      return;
    }
    var p, rest := chunks[0], PiecesText(chunks[1..]);
    FirstChunk(p, rest);
    FullScanFinds(chunks[1..]);
    NulOfRest(chunks);
    PassedIsRefused(rest);
    if StartsWithPair(chunks) {
      assert chunks[1..][0] == chunks[1] && chunks[1..][1..] == chunks[2..];
      NulOfRest(chunks[1..]);
    } else if IsHighPiece(p) && |chunks| > 1 {
      assert chunks[1..][0] == chunks[1];
    }
  }

  lemma {:induction false} SkipPlain(text: string, rest: string)
    requires '\\' !in text
    ensures MayHold(text + rest) == MayHold(rest)
  {
    if |text| == 0 {
      assert text + rest == rest;
    } else {
      SkipPlain(text[1..], rest);
      assert (text + rest)[1..] == text[1..] + rest;
      assert text[0] in text;
    }
  }

  lemma {:induction false} RefusedDigits(digits: string)
    requires IsHex(digits)
    ensures 0xD800 <= Unit(digits) <= 0xDFFF ==> digits[0] == 'd' || digits[0] == 'D'
    ensures Unit(digits) == 0 ==> digits == "0000"
  {
    assert IsHexDigit(digits[0]) && IsHexDigit(digits[1]) && IsHexDigit(digits[2]) && IsHexDigit(digits[3]);
  }

  lemma {:induction false} RefusedIsSeen(digits: string, rest: string)
    requires IsHex(digits) && (0xD800 <= Unit(digits) <= 0xDFFF || Unit(digits) == 0)
    ensures MayHold(['\\', 'u'] + digits + rest)
  {
    var text := ['\\', 'u'] + digits + rest;
    RefusedDigits(digits);
    assert text[2] == digits[0] && text[2..][..4] == digits;
  }

  /** The prefilter hides no text that the full scan refuses. */
  lemma {:induction false} PrefilterKeeps(chunks: seq<Piece>)
    requires ChunksOk(chunks) && Bad(chunks)
    ensures MayHold(PiecesText(chunks))
    decreases |chunks|
  {
    var p, rest := chunks[0], PiecesText(chunks[1..]);
    FirstChunk(p, rest);
    if IsLowPiece(p) || IsHighPiece(p) || IsNul(p) {
      RefusedIsSeen(p.digits, rest);
    } else {
      NulOfRest(chunks);
      PrefilterKeeps(chunks[1..]);
      if p.Hex? {
        assert (PieceText(p) + rest)[2..] == p.digits + rest;
        SkipPlain(p.digits, rest);
      } else if p.Short? {
        assert rest != "";
      }
    }
  }

  lemma {:induction false} UnstorableIsBad(chunks: seq<Piece>)
    requires ChunksOk(chunks)
    ensures HasUnstorableEscape(PiecesText(chunks)) <==> Bad(chunks)
  {
    FullScanFinds(chunks);
    if Bad(chunks) {
      PrefilterKeeps(chunks);
    }
  }

  // ----- Documents -------------------------------------------------------------------------------------------

  function RawPieces(s: string): seq<Piece> { seq(|s|, i requires 0 <= i < |s| => Raw(s[i])) }

  /** Text without backslashes holds nothing to refuse. */
  lemma {:induction false} RawText(s: string)
    requires '\\' !in s
    ensures PiecesText(RawPieces(s)) == s && ChunksOk(RawPieces(s)) && !Bad(RawPieces(s))
  {
    if |s| > 0 {
      assert s[0] in s;
      RawText(s[1..]);
      assert RawPieces(s)[1..] == RawPieces(s[1..]);
    }
  }

  /** Between two texts that do not meet inside a pair, nothing new can be refused. */
  lemma {:induction false} BadConcat(a: seq<Piece>, b: seq<Piece>)
    requires |b| == 0 || !b[0].Hex?
    ensures HasLone(a + b) <==> HasLone(a) || HasLone(b)
    ensures HasNul(a + b) <==> HasNul(a) || HasNul(b)
    decreases |a|
  {
    if |a| == 0 {
      assert a + b == b;
      return;
    }
    NulOfRest(a);
    NulOfRest(a + b);
    assert (a + b)[1..] == a[1..] + b;
    BadConcat(a[1..], b);
    if StartsWithPair(a + b) {
      assert StartsWithPair(a) && (a + b)[2..] == a[2..] + b;
      BadConcat(a[2..], b);
    }
  }

  /** Some string or key of the document has a surrogate outside a pair. */
  predicate LoneIn(j: Json)
    decreases j
  {
    match j
    case Str(pieces) => HasLone(pieces)
    case Arr(items) => LoneInItems(items)
    case Obj(members) => LoneInMembers(members)
    case _ => false
  }

  predicate LoneInItems(items: Items)
    decreases items
  {
    LoneIn(items.item.value) || (items.MoreItems? && LoneInItems(items.rest))
  }

  predicate LoneInMembers(members: Members)
    decreases members
  {
    || HasLone(members.member.key) || LoneIn(members.member.item.value)
    || (members.MoreMembers? && LoneInMembers(members.rest))
  }

  /** Some string or key of the document has an escape of NUL. */
  predicate NulIn(j: Json)
    decreases j
  {
    match j
    case Str(pieces) => HasNul(pieces)
    case Arr(items) => NulInItems(items)
    case Obj(members) => NulInMembers(members)
    case _ => false
  }

  predicate NulInItems(items: Items)
    decreases items
  {
    NulIn(items.item.value) || (items.MoreItems? && NulInItems(items.rest))
  }

  predicate NulInMembers(members: Members)
    decreases members
  {
    || HasNul(members.member.key) || NulIn(members.member.item.value)
    || (members.MoreMembers? && NulInMembers(members.rest))
  }

  /** `chunks` are the pieces of `text`, and say whether it has a lone surrogate or a NUL. */
  predicate Spells(chunks: seq<Piece>, text: string, lone: bool, nul: bool) {
    && PiecesText(chunks) == text && ChunksOk(chunks) && (|chunks| > 0 ==> !chunks[0].Hex?)
    && HasLone(chunks) == lone && HasNul(chunks) == nul
  }

  lemma {:induction false} SpellPlain(s: string) returns (chunks: seq<Piece>)
    requires '\\' !in s
    ensures Spells(chunks, s, false, false)
  {
    chunks := RawPieces(s);
    RawText(s);
  }

  lemma {:induction false} SpellBoth(a: seq<Piece>, s: string, la: bool, na: bool, b: seq<Piece>, t: string, lb: bool, nb: bool)
    returns (chunks: seq<Piece>)
    requires Spells(a, s, la, na) && Spells(b, t, lb, nb)
    ensures Spells(chunks, s + t, la || lb, na || nb)
  {
    chunks := a + b;
    PiecesConcat(a, b);
    BadConcat(a, b);
  }

  /** Plain text on both sides changes nothing. */
  lemma {:induction false} SpellAround(before: string, a: seq<Piece>, s: string, lone: bool, nul: bool, after: string)
    returns (chunks: seq<Piece>)
    requires Spells(a, s, lone, nul) && '\\' !in before && '\\' !in after
    ensures Spells(chunks, before + s + after, lone, nul)
  {
    var left := SpellPlain(before);
    var right := SpellPlain(after);
    chunks := SpellBoth(left, before, false, false, a, s, lone, nul);
    chunks := SpellBoth(chunks, before + s, lone, nul, right, after, false, false);
  }

  lemma {:induction false} SpellLiteral(pieces: seq<Piece>) returns (chunks: seq<Piece>)
    requires PiecesOk(pieces)
    ensures Spells(chunks, LiteralText(pieces), HasLone(pieces), HasNul(pieces))
  {
    var quote := [Raw('"')];
    var front := quote + pieces;
    chunks := front + quote;
    PiecesConcat(quote, pieces);
    PiecesConcat(front, quote);
    BadConcat(front, quote);
    assert front[1..] == pieces && quote[1..] == [];
    assert PiecesText(quote) == QUOTE;
    NulOfRest(front);
    NulOfRest(quote);
  }

  lemma {:induction false} NoBackslash(j: Json)
    requires Valid(j) && !j.Str? && !j.Arr? && !j.Obj?
    ensures '\\' !in Text(j)
  {
    if j.Num? {
      NumberBytes(j.number);
    }
  }

  lemma {:induction false} Spell(j: Json) returns (chunks: seq<Piece>)
    requires Valid(j)
    ensures Spells(chunks, Text(j), LoneIn(j), NulIn(j))
    decreases j, 0
  {
    match j {
      case Str(pieces) => chunks := SpellLiteral(pieces);
      case Arr(items) =>
        var inner := SpellItems(items);
        chunks := SpellAround(['['], inner, ItemsText(items), LoneIn(j), NulIn(j), "");
        assert ['['] + ItemsText(items) + "" == Text(j);
      case Obj(members) =>
        var inner := SpellMembers(members);
        chunks := SpellAround(['{'], inner, MembersText(members), LoneIn(j), NulIn(j), "");
        assert ['{'] + MembersText(members) + "" == Text(j);
      case _ =>
        NoBackslash(j);
        chunks := SpellPlain(Text(j));
    }
  }

  lemma {:induction false} SpellItem(i: Item) returns (chunks: seq<Piece>)
    requires ValidItem(i)
    ensures Spells(chunks, ItemText(i), LoneIn(i.value), NulIn(i.value))
    decreases i, 0
  {
    var inner := Spell(i.value);
    chunks := SpellAround(i.before, inner, Text(i.value), LoneIn(i.value), NulIn(i.value), i.after);
  }

  lemma {:induction false} SpellItems(items: Items) returns (chunks: seq<Piece>)
    requires ValidItems(items)
    ensures Spells(chunks, ItemsText(items), LoneInItems(items), NulInItems(items))
    decreases items, 0
  {
    var v, text := items.item.value, ItemText(items.item);
    var first := SpellItem(items.item);
    match items {
      case LastItem(_) =>
        chunks := SpellAround("", first, text, LoneIn(v), NulIn(v), [']']);
        assert "" + text + [']'] == ItemsText(items);
      case MoreItems(_, rest) =>
        first := SpellAround("", first, text, LoneIn(v), NulIn(v), [',']);
        assert "" + text + [','] == text + [','];
        var more := SpellItems(rest);
        chunks := SpellBoth(first, text + [','], LoneIn(v), NulIn(v), more, ItemsText(rest), LoneInItems(rest), NulInItems(rest));
    }
  }

  lemma {:induction false} SpellMember(m: Member) returns (chunks: seq<Piece>)
    requires ValidMember(m)
    ensures Spells(chunks, MemberText(m), HasLone(m.key) || LoneIn(m.item.value), HasNul(m.key) || NulIn(m.item.value))
    decreases m, 0
  {
    var key := SpellLiteral(m.key);
    key := SpellAround(m.before, key, LiteralText(m.key), HasLone(m.key), HasNul(m.key), m.after);
    key := SpellAround("", key, KeyText(m), HasLone(m.key), HasNul(m.key), [':']);
    assert "" + KeyText(m) + [':'] == KeyText(m) + [':'];
    var v := m.item.value;
    var item := SpellItem(m.item);
    chunks := SpellBoth(key, KeyText(m) + [':'], HasLone(m.key), HasNul(m.key), item, ItemText(m.item), LoneIn(v), NulIn(v));
  }

  lemma {:induction false} SpellMembers(members: Members) returns (chunks: seq<Piece>)
    requires ValidMembers(members)
    ensures Spells(chunks, MembersText(members), LoneInMembers(members), NulInMembers(members))
    decreases members, 0
  {
    var m, text := members.member, MemberText(members.member);
    var lone, nul := HasLone(m.key) || LoneIn(m.item.value), HasNul(m.key) || NulIn(m.item.value);
    var first := SpellMember(m);
    match members {
      case LastMember(_) =>
        chunks := SpellAround("", first, text, lone, nul, ['}']);
        assert "" + text + ['}'] == MembersText(members);
      case MoreMembers(_, rest) =>
        first := SpellAround("", first, text, lone, nul, [',']);
        assert "" + text + [','] == text + [','];
        var more := SpellMembers(rest);
        chunks := SpellBoth(first, text + [','], lone, nul, more, MembersText(rest), LoneInMembers(rest), NulInMembers(rest));
    }
  }

  /**
   On every document the two scanners agree: jsonb refuses it exactly when its input has no fingerprint
   or it has an escape of NUL, and both see the strings and keys rather than the text around them.
   */
  lemma {:induction false} ScannersAgree(document: Item)
    requires ValidItem(document)
    ensures var text := ItemText(document);
            && (ScanEscapes(text, 0).invalid <==> LoneIn(document.value))
            && (HasUnstorableEscape(text) <==> ScanEscapes(text, 0).invalid || NulIn(document.value))
            && (HasUnstorableEscape(text) <==> FullScan(text, NotDue))
  {
    var chunks := SpellItem(document);
    ScanEscapesFinds(chunks, 0);
    FullScanFinds(chunks);
    UnstorableIsBad(chunks);
  }

  // ----- The scanners, as they run -----------------------------------------------------------------------------

  /** The code unit that an escape at `start` stands for; `None` at any other text. */
  function EscapedCodeUnit(encoded: string, start: nat): Option<nat> {
    if start + 6 > |encoded| || encoded[start] != '\\' || encoded[start + 1] != 'u' || !IsHex(encoded[start + 2..start + 6])
    then None
    else Some(Unit(encoded[start + 2..start + 6]))
  }

  lemma {:induction false} UnitOfRest(encoded: string, start: nat)
    requires start <= |encoded|
    ensures EscapedCodeUnit(encoded, start) == EscapedUnit(encoded[start..])
  {
    if start + 6 <= |encoded| {
      assert encoded[start..][2..6] == encoded[start + 2..start + 6];
    }
  }

  lemma {:induction false} RestOfRest(encoded: string, i: nat, n: nat)
    requires i + n <= |encoded|
    ensures encoded[i..][n..] == encoded[i + n..]
  {
  }

  method ScanAllEscapes(encoded: string) returns (invalid: bool, replacements: nat)
    ensures Escaped(invalid, replacements) == ScanEscapes(encoded, 0)
  {
    replacements := 0;
    var i := 0;
    assert encoded[0..] == encoded;
    while i < |encoded|
      invariant 0 <= i <= |encoded|
      invariant ScanEscapes(encoded[i..], replacements) == ScanEscapes(encoded, 0)
    {
      var step := 1;
      if encoded[i] == '\\' {
        var unit := EscapedCodeUnit(encoded, i);
        UnitOfRest(encoded, i);
        if unit.None? {
          step := Min(2, |encoded| - i);
        } else if IsLow(unit.value) {
          return true, replacements;
        } else if IsHigh(unit.value) {
          var low := EscapedCodeUnit(encoded, i + 6);
          UnitOfRest(encoded, i + 6);
          RestOfRest(encoded, i, 6);
          if low.None? || !IsLow(low.value) {
            return true, replacements;
          }
          step := 12;
        } else {
          step := 6;
          if unit.value == 0xFFFD {
            replacements := replacements + 1;
          }
        }
      }
      RestOfRest(encoded, i, step);
      i := i + step;
    }
    return false, replacements;
  }

  method FindRefusedStart(encoded: string) returns (found: bool)
    ensures found == MayHold(encoded)
  {
    var i := 0;
    assert encoded[0..] == encoded;
    while true
      invariant 0 <= i <= |encoded|
      invariant MayHold(encoded[i..]) == MayHold(encoded)
      decreases |encoded| - i
    {
      var at := i + IndexOf(encoded[i..], '\\');
      assert encoded[i..] == encoded[i..at] + encoded[at..];
      SkipPlain(encoded[i..at], encoded[at..]);
      if at == |encoded| || at + 3 > |encoded| {
        return false;
      }
      RestOfRest(encoded, at, 2);
      if encoded[at + 1] == 'u' && (encoded[at + 2] == 'd' || encoded[at + 2] == 'D' || IsNulDigits(encoded[at + 2..])) {
        return true;
      }
      i := at + 2;
    }
  }

  /** The position where a low surrogate is due, as the scan at `i` sees it. */
  function DueAt(lowExpectedAt: int, i: int): Due { if lowExpectedAt < 0 then NotDue else if lowExpectedAt == i then Here else Passed }

  method FindUnstorableEscape(encoded: string) returns (found: bool)
    ensures found == HasUnstorableEscape(encoded)
  {
    var mayHold := FindRefusedStart(encoded);
    if !mayHold {
      return false;
    }
    var lowExpectedAt := -1;
    var i := 0;
    assert encoded[0..] == encoded;
    while i < |encoded|
      invariant 0 <= i <= |encoded| && lowExpectedAt <= i
      invariant FullScan(encoded[i..], DueAt(lowExpectedAt, i)) == FullScan(encoded, NotDue)
    {
      var step := 1;
      if encoded[i] == '\\' {
        if lowExpectedAt >= 0 && i != lowExpectedAt {
          return true;
        }
        if i + 6 > |encoded| || encoded[i + 1] != 'u' {
          if lowExpectedAt >= 0 {
            return true;
          }
          step := Min(2, |encoded| - i);
        } else {
          var digits := encoded[i + 2..i + 6];
          assert encoded[i..][2..6] == digits;
          if !IsHex(digits) {
            return false;
          }
          var unit := Unit(digits);
          if lowExpectedAt >= 0 {
            if unit < 0xDC00 || unit > 0xDFFF {
              return true;
            }
            lowExpectedAt := -1;
          } else if unit == 0 || 0xDC00 <= unit <= 0xDFFF {
            return true;
          } else if 0xD800 <= unit <= 0xDBFF {
            lowExpectedAt := i + 6;
          }
          step := 6;
        }
      }
      RestOfRest(encoded, i, step);
      i := i + step;
    }
    return lowExpectedAt >= 0;
  }
}
