/** Which inputs have a canonical text, and what that text is. */
module CanonicalInputs {
  import opened Prelude
  import opened JsonNumbers
  import opened JsonSyntax
  import opened JsonTokens
  import opened JsonParser
  import opened CanonicalNumbers
  import opened CanonicalJson
  import opened CanonicalForm
  import opened CanonicalWriter
  import opened Decimal

  /** The token is the text of a JSON number, as the decoder leaves it. */
  ghost predicate IsToken(token: string) {
    |token| < INT_MAX / 2 && exists n :: IsNumber(n) && NumberText(n) == token
  }

  /** Every number of the value is such a token. */
  ghost predicate HasTokens(v: Value)
    decreases v
  {
    match v
    case VNumber(token) => IsToken(token)
    case VArray(elements) => forall i :: 0 <= i < |elements| ==> HasTokens(elements[i])
    case VObject(members) => forall k :: k in members ==> HasTokens(members[k])
    case _ => true
  }

  /**
   `token` reads as a double, and the magnitudes of that double and of the number itself stay within
   2^53 - 1.
   */
  ghost predicate IsSafe(token: string, read: string -> Reading) {
    && read(token).InRange? && !Large(read(token).double)
    && forall n :: IsNumber(n) && NumberText(n) == token ==> !Above(Digits(AllDigits(n)), Shift(n), SAFE_INTEGER)
  }

  /** Every number of the value is safe. */
  ghost predicate AllSafe(v: Value, read: string -> Reading)
    decreases v
  {
    match v
    case VNumber(token) => IsSafe(token, read)
    case VArray(elements) => forall i :: 0 <= i < |elements| ==> AllSafe(elements[i], read)
    case VObject(members) => forall k :: k in members ==> AllSafe(members[k], read)
    case _ => true
  }

  /** A double is too large exactly when the number that is written for it denotes more than 2^53 - 1. */
  lemma LargeIsWritten(d: Double)
    requires IsDouble(d)
    ensures Large(d) <==> Above(Digits(AllDigits(Layout(d))), Shift(Layout(d)), SAFE_INTEGER)
  {
    if d.Finite? {
      LayoutShape(d);
      DigitsPad(d.digits, ZerosAfter(d));
      DigitsPad(d.digits + Zeros(ZerosAfter(d)), ZerosBefore(d));
      AboveTrimmed(Digits(d.digits), ZerosAfter(d), Shift(Layout(d)), SAFE_INTEGER);
    }
  }

  function SafeReader(read: string -> Reading): Reader { Reader(read, Large, ExceedsSafeInteger) }

  lemma {:induction false} TokenIsSafe(token: string, read: string -> Reading)
    requires IsToken(token)
    ensures NumberOk(token, SafeReader(read)) <==> IsSafe(token, read)
  {
    forall n | IsNumber(n) && NumberText(n) == token
      ensures ExceedsSafeInteger(token) <==> Above(Digits(AllDigits(n)), Shift(n), SAFE_INTEGER)
    {
      ExceedsSafeIntegerIsExact(n);
    }
  }

  /** What the writer accepts is exactly what is safe. */
  lemma {:induction false} AcceptableIsSafe(v: Value, read: string -> Reading)
    requires HasTokens(v)
    ensures Acceptable(v, SafeReader(read)) <==> AllSafe(v, read)
    decreases v
  {
    var reader := SafeReader(read);
    match v {
      case VNumber(token) => TokenIsSafe(token, read);
      case VArray(elements) =>
        forall i | 0 <= i < |elements| ensures Acceptable(elements[i], reader) <==> AllSafe(elements[i], read) {
          AcceptableIsSafe(elements[i], read);
        }
        assert EntriesAcceptable(v, reader) <==> AllSafe(v, read);
      case VObject(members) =>
        forall k | k in members ensures Acceptable(members[k], reader) <==> AllSafe(members[k], read) {
          AcceptableIsSafe(members[k], read);
        }
        assert EntriesAcceptable(v, reader) <==> AllSafe(v, read);
      case _ =>
    }
  }

  /** `d` is what `v` says, with each number read as its double. */
  ghost predicate Says(v: Value, read: string -> Reading, d: Datum)
    decreases v
  {
    match v
    case VNull => d == DNull
    case VBool(value) => d == DBool(value)
    case VNumber(token) => d.DNumber? && read(token) == InRange(d.double)
    case VString(text) => d == DString(text)
    case VArray(elements) =>
      d.DArray? && |d.elements| == |elements| && forall i :: 0 <= i < |elements| ==> Says(elements[i], read, d.elements[i])
    case VObject(members) =>
      d.DObject? && d.members.Keys == members.Keys && forall k :: k in members ==> Says(members[k], read, d.members[k])
  }

  lemma {:induction false} DenotedIsSaid(v: Value, read: string -> Reading)
    requires AllSafe(v, read)
    ensures Says(v, read, Denote(v, SafeReader(read)))
    decreases v
  {
    match v {
      case VArray(elements) =>
        forall i | 0 <= i < |elements| ensures Says(elements[i], read, Denote(elements[i], SafeReader(read))) {
          DenotedIsSaid(elements[i], read);
        }
      case VObject(members) =>
        forall k | k in members ensures Says(members[k], read, Denote(members[k], SafeReader(read))) {
          DenotedIsSaid(members[k], read);
        }
      case _ =>
    }
  }

  /**
   The canonical text of a checkpoint input. It exists exactly when each number is in range and at most
   2^53 - 1 in magnitude, as a double and by its exact value. It parses back to what the input says, and
   it is the one text of that value that keeps the rules of the canonical form.
   */
  method CanonicalInput(v: Value, read: string -> Reading) returns (out: Option<string>)
    requires HasTokens(v)
    ensures out.Some? <==> AllSafe(v, read)
    ensures out.Some? ==> ParseValue(out.value).Parsed? && ParseValue(out.value).rest == ""
                          && Says(v, read, Read(ParseValue(out.value).value))
                          && Canonical(ParseValue(out.value).value)
  {
    var reader := SafeReader(read);
    out := WriteCanonical(v, reader);
    CanonicalParses(Denote(v, reader));
    TreeKeepsRules(Denote(v, reader));
    AcceptableIsSafe(v, read);
    if out.Some? {
      DenotedIsSaid(v, read);
    }
  }
}
