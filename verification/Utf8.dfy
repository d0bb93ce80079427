/** UTF-8: the bytes of a character and of a text, and their number. */
module Utf8 {

  function RuneLen(c: char): nat {
    var code := c as int;
    if code < 0x80 then 1 else if code < 0x800 then 2 else if code < 0x10000 then 3 else 4
  }

  /** The lowest six bits of `code` in a continuation byte. */
  function Continuation(code: int): int { 0x80 + code % 64 }

  function Encoded(c: char): seq<int> {
    var code := c as int;
    if code < 0x80 then [code]
    else if code < 0x800 then [0xC0 + code / 64, Continuation(code)]
    else if code < 0x10000 then [0xE0 + code / 4096, Continuation(code / 64), Continuation(code)]
    else [0xF0 + code / 262144, Continuation(code / 4096), Continuation(code / 64), Continuation(code)]
  }

  /** The code point that a sequence of bytes stands for, by its length. */
  function CodeOf(bytes: seq<int>): int {
    match |bytes|
    case 1 => bytes[0]
    case 2 => (bytes[0] - 0xC0) * 64 + (bytes[1] - 0x80)
    case 3 => (bytes[0] - 0xE0) * 4096 + (bytes[1] - 0x80) * 64 + (bytes[2] - 0x80)
    case 4 => (bytes[0] - 0xF0) * 262144 + (bytes[1] - 0x80) * 4096 + (bytes[2] - 0x80) * 64 + (bytes[3] - 0x80)
    case _ => 0
  }

  /** The bytes of a character read back, and `RuneLen` counts them. */
  lemma {:induction false} EncodedReads(c: char)
    ensures |Encoded(c)| == RuneLen(c) && CodeOf(Encoded(c)) == c as int
    ensures forall i :: 0 <= i < |Encoded(c)| ==> 0 <= Encoded(c)[i] < 256
  {
    var code := c as int;
    assert code / 64 / 64 == code / 4096 && code / 4096 / 64 == code / 262144;
  }

  function Encode(s: string): seq<int> { if |s| == 0 then [] else Encode(s[..|s| - 1]) + Encoded(s[|s| - 1]) }

  function Utf8Bytes(s: string): nat {
    if |s| == 0 then 0 else Utf8Bytes(s[..|s| - 1]) + RuneLen(s[|s| - 1])
  }

  lemma {:induction false} Utf8BytesIsLength(s: string)
    ensures Utf8Bytes(s) == |Encode(s)|
  {
    if |s| > 0 {
      Utf8BytesIsLength(s[..|s| - 1]);
      EncodedReads(s[|s| - 1]);
    }
  }

  lemma {:induction false} Utf8Concat(a: string, b: string)
    ensures Utf8Bytes(a + b) == Utf8Bytes(a) + Utf8Bytes(b)
  {
    if |b| == 0 {
      assert a + b == a;
    } else {
      Utf8Concat(a, b[..|b| - 1]);
      assert (a + b)[..|a + b| - 1] == a + b[..|b| - 1];
    }
  }

  lemma {:induction false} Utf8AtLeastLength(s: string)
    ensures |s| <= Utf8Bytes(s)
  {
    if |s| > 0 {
      Utf8AtLeastLength(s[..|s| - 1]);
    }
  }

  lemma {:induction false} Utf8Three(a: string, b: string, c: string)
    ensures Utf8Bytes(a + b + c) == Utf8Bytes(a) + Utf8Bytes(b) + Utf8Bytes(c)
  {
    Utf8Concat(a + b, c);
    Utf8Concat(a, b);
  }

  predicate IsAscii(s: string) { forall i :: 0 <= i < |s| ==> s[i] as int < 0x80 }

  lemma {:induction false} AsciiBytes(s: string)
    requires IsAscii(s)
    ensures Utf8Bytes(s) == |s|
  {
    if |s| > 0 {
      AsciiBytes(s[..|s| - 1]);
    }
  }
}
