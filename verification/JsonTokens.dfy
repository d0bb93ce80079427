/** Finding the end of the string literals and the numbers in JSON text, and reading a literal back. */
module JsonTokens {
  import opened Decimal
  import opened JsonNumbers
  import opened JsonSyntax

  // ----- String literals -----------------------------------------------------------------------------

  /** The length of the literal text up to its closing quote. A backslash hides the next character. */
  function LiteralLength(text: string): (n: nat)
    ensures n <= |text|
  {
    if |text| == 0 || text[0] == '"' then 0
    else if text[0] == '\\' && |text| >= 2 then 2 + LiteralLength(text[2..])
    else 1 + LiteralLength(text[1..])
  }

  function ParsePieces(text: string): seq<Piece> {
    if |text| == 0 then []
    else if text[0] == '\\' && |text| >= 6 && text[1] == 'u' then [Hex(text[2..6])] + ParsePieces(text[6..])
    else if text[0] == '\\' && |text| >= 2 then [Short(text[1])] + ParsePieces(text[2..])
    else [Raw(text[0])] + ParsePieces(text[1..])
  }

  /** The string that the text between the quotes of a literal denotes. */
  function Unquote(text: string): string { Chars(ParsePieces(text)) }

  lemma {:induction false} PieceParses(p: Piece, rest: string)
    requires PieceOk(p)
    ensures ParsePieces(PieceText(p) + rest) == [p] + ParsePieces(rest)
  {
    var text := PieceText(p) + rest;
    match p {
      case Raw(c) => assert text[1..] == rest;
      case Short(c) => assert text[2..] == rest;
      case Hex(digits) => assert text[2..6] == digits && text[6..] == rest;
    }
  }

  /** The pieces of a literal are read back from its text. */
  lemma {:induction false} PiecesParse(pieces: seq<Piece>)
    requires PiecesOk(pieces)
    ensures ParsePieces(PiecesText(pieces)) == pieces
  {
    if |pieces| > 0 {
      PiecesParse(pieces[1..]);
      PieceParses(pieces[0], PiecesText(pieces[1..]));
    }
  }

  lemma {:induction false} Regroup(a: string, b: string, c: string, d: string)
    ensures a + b + c + d == a + (b + (c + d)) == a + b + (c + d)
  {
  }

  lemma {:induction false} Associate(a: string, b: string, c: string)
    ensures a + (b + c) == a + b + c
  {
  }

  lemma {:induction false} PiecesConcat(a: seq<Piece>, b: seq<Piece>)
    ensures PiecesText(a + b) == PiecesText(a) + PiecesText(b)
  {
    if |a| == 0 {
      assert a + b == b;
    } else {
      calc {
        PiecesText(a + b);
        { assert (a + b)[0] == a[0] && (a + b)[1..] == a[1..] + b; }
        PieceText(a[0]) + PiecesText(a[1..] + b);
        { PiecesConcat(a[1..], b); }
        PieceText(a[0]) + (PiecesText(a[1..]) + PiecesText(b));
        { Associate(PieceText(a[0]), PiecesText(a[1..]), PiecesText(b)); }
        PieceText(a[0]) + PiecesText(a[1..]) + PiecesText(b);
      }
    }
  }

  lemma {:induction false} PlainLength(text: string, rest: string)
    requires forall i :: 0 <= i < |text| ==> text[i] != '"' && text[i] != '\\'
    ensures LiteralLength(text + rest) == |text| + LiteralLength(rest)
  {
    if |text| == 0 {
      assert text + rest == rest;
    } else {
      PlainLength(text[1..], rest);
      assert (text + rest)[1..] == text[1..] + rest;
    }
  }

  lemma {:induction false} PieceLength(p: Piece, rest: string)
    requires PieceOk(p)
    ensures LiteralLength(PieceText(p) + rest) == |PieceText(p)| + LiteralLength(rest)
  {
    var text := PieceText(p) + rest;
    match p {
      case Raw(c) => assert text[1..] == rest;
      case Short(c) => assert text[2..] == rest;
      case Hex(digits) => {
        assert text[2..] == digits + rest;
        PlainLength(digits, rest);
      }
    }
  }

  /** The literal ends at the quote that closes it, whatever its escapes hold. */
  lemma {:induction false} PiecesLength(pieces: seq<Piece>, rest: string)
    requires PiecesOk(pieces)
    ensures LiteralLength(PiecesText(pieces) + QUOTE + rest) == |PiecesText(pieces)|
  {
    if |pieces| > 0 {
      PiecesLength(pieces[1..], rest);
      var tail := PiecesText(pieces[1..]) + QUOTE + rest;
      PieceLength(pieces[0], tail);
      assert PiecesText(pieces) + QUOTE + rest == PieceText(pieces[0]) + tail;
    }
  }

  // ----- Numbers -------------------------------------------------------------------------------------

  predicate IsNumberByte(c: char) { IsDigit(c) || c == '-' || c == '+' || c == '.' || c == 'e' || c == 'E' }

  function NumberLength(text: string): (n: nat)
    ensures n <= |text|
  {
    if |text| > 0 && IsNumberByte(text[0]) then 1 + NumberLength(text[1..]) else 0
  }

  /** The text goes on with something that ends a number. */
  predicate EndsNumber(rest: string) { |rest| == 0 || !IsNumberByte(rest[0]) }

  lemma {:induction false} NumberBytesLength(text: string, rest: string)
    requires (forall i :: 0 <= i < |text| ==> IsNumberByte(text[i])) && EndsNumber(rest)
    ensures NumberLength(text + rest) == |text|
  {
    if |text| == 0 {
      assert text + rest == rest;
    } else {
      NumberBytesLength(text[1..], rest);
      assert (text + rest)[1..] == text[1..] + rest;
    }
  }

  lemma {:induction false} NumberBytes(n: Number)
    requires IsNumber(n)
    ensures forall i :: 0 <= i < |NumberText(n)| ==> IsNumberByte(NumberText(n)[i])
  {
  }

  lemma {:induction false} NumberTextLength(n: Number, rest: string)
    requires IsNumber(n) && EndsNumber(rest)
    ensures NumberLength(NumberText(n) + rest) == |NumberText(n)| > 0
    ensures IsNumberByte((NumberText(n) + rest)[0]) && NumberText(n)[0] != '"'
  {
    NumberBytes(n);
    NumberBytesLength(NumberText(n), rest);
  }
}
