/**
 The exact size of PostgreSQL's jsonb text, and when the measure in machine integers gives it. A huge
 exponent makes the measure wrap around, and then it can be far below the size.
 */
module ExactSize {
  import opened JsonNumbers
  import opened JsonSyntax
  import opened NumericText
  import opened JsonbSize

  // ----- Numbers -----------------------------------------------------------------------------------

  /** The length of the plain notation, for a token whose exponent fits an integer. */
  function ExactNumber(token: string): nat {
    match TokenParts(token)
    case None => |token|
    case Some(p) => PlainLength(p)
  }

  predicate TokenFits(token: string) { TokenParts(token).None? || PointFits(TokenParts(token).value) }

  /** A token measures at most its exact length if that fits, and measures it exactly when its point fits too. */
  lemma {:induction false} NumberBelowExact(token: string)
    requires 0 < |token| <= INT_MAX && ExactNumber(token) <= INT_MAX
    ensures 1 <= NumberSize(token) <= ExactNumber(token)
    ensures NumberSize(token) == ExactNumber(token) <==> TokenFits(token)
  {
    if TokenParts(token).Some? {
      PartsAreShort(token);
      PartsBytesIsExactly(TokenParts(token).value);
    }
  }

  // ----- Values ------------------------------------------------------------------------------------

  ghost function ExactBytes(v: Value): nat
    decreases v, 1
  {
    match v
    case VArray(elements) => Enclosed(|elements|, ExactContent(v))
    case VObject(members) => Enclosed(|members|, ExactContent(v))
    case _ => ExactContent(v)
  }

  ghost function ExactContent(v: Value): nat
    decreases v, 0
  {
    match v
    case VNull => 4
    case VBool(value) => if value then 4 else 5
    case VNumber(token) => ExactNumber(token)
    case VString(text) => StringBytes(text)
    case VArray(elements) => ExactElements(elements)
    case VObject(members) => SumOver(map k | k in members :: StringBytes(k) + 2 + ExactBytes(members[k]))
  }

  ghost function ExactElements(elements: seq<Value>): nat
    decreases elements, 2
  {
    if |elements| == 0 then 0 else ExactElements(elements[..|elements| - 1]) + ExactBytes(elements[|elements| - 1])
  }

  ghost function ExactSizes(members: map<string, Value>): map<string, nat> {
    map k | k in members :: StringBytes(k) + 2 + ExactBytes(members[k])
  }

  /** Every number of the value has a token of a length that a string can have. */
  predicate ShortTokens(v: Value) {
    match v
    case VNumber(token) => 0 < |token| <= INT_MAX
    case VArray(elements) => forall i :: 0 <= i < |elements| ==> ShortTokens(elements[i])
    case VObject(members) => forall k :: k in members ==> ShortTokens(members[k])
    case _ => true
  }

  /** The place of the point of every number fits an integer, unless the number is zero. */
  predicate PointsFit(v: Value) {
    match v
    case VNumber(token) => TokenFits(token)
    case VArray(elements) => forall i :: 0 <= i < |elements| ==> PointsFit(elements[i])
    case VObject(members) => forall k :: k in members ==> PointsFit(members[k])
    case _ => true
  }

  /** What the comparison of the two sizes says of one value. */
  ghost predicate Compared(v: Value) {
    1 <= JsonbTextBytes(v) <= ExactBytes(v) && (JsonbTextBytes(v) == ExactBytes(v) <==> PointsFit(v))
  }

  lemma {:induction false} SumOverAtLeast(m: map<string, nat>, k: string)
    requires k in m
    ensures m[k] <= SumOver(m)
  {
    SumOverAny(m, k);
  }

  /** A sum of sizes that are each at most the other's is at most the other's, and equal only if all are. */
  lemma {:induction false} SumsCompare(a: map<string, nat>, b: map<string, nat>)
    requires a.Keys == b.Keys && forall k :: k in a ==> a[k] <= b[k]
    ensures SumOver(a) <= SumOver(b) && (SumOver(a) == SumOver(b) <==> forall k :: k in a ==> a[k] == b[k])
    decreases |a|
  {
    if a == map[] {
      assert b == map[];
    } else {
      var k :| k in a;
      var c, d := a - {k}, b - {k};
      SumsCompare(c, d);
      SumOverAny(a, k);
      SumOverAny(b, k);
      if SumOver(a) == SumOver(b) {
        forall j | j in a ensures a[j] == b[j] {
          assert j != k ==> j in c && c[j] == d[j];
        }
      } else if a[k] == b[k] {
        var j :| j in c && c[j] != d[j];
        assert j in a && a[j] != b[j];
      }
    }
  }

  predicate AllPointsFit(elements: seq<Value>) { forall i :: 0 <= i < |elements| ==> PointsFit(elements[i]) }

  lemma {:induction false} AllPointsFitFront(elements: seq<Value>)
    requires |elements| > 0
    ensures AllPointsFit(elements) <==> AllPointsFit(elements[..|elements| - 1]) && PointsFit(elements[|elements| - 1])
  {
    var n := |elements| - 1;
    assert forall i :: 0 <= i < n ==> elements[..n][i] == elements[i];
    if AllPointsFit(elements[..n]) && PointsFit(elements[n]) {
      forall i | 0 <= i < |elements| ensures PointsFit(elements[i]) {
        assert i < n ==> elements[..n][i] == elements[i];
      }
    }
  }

  lemma {:induction false} ElementsCompare(elements: seq<Value>)
    requires ExactElements(elements) <= INT_MAX && forall i :: 0 <= i < |elements| ==> ShortTokens(elements[i])
    ensures ElementsBytes(elements) <= ExactElements(elements)
    ensures ElementsBytes(elements) == ExactElements(elements) <==> AllPointsFit(elements)
    decreases elements, 0
  {
    if |elements| > 0 {
      var n := |elements| - 1;
      assert forall i :: 0 <= i < n ==> elements[..n][i] == elements[i];
      ElementsCompare(elements[..n]);
      SizesCompare(elements[n]);
      AllPointsFitFront(elements);
    }
  }

  lemma {:induction false} MembersCompare(members: map<string, Value>, v: Value)
    requires v == VObject(members) && ShortTokens(v) && SumOver(ExactSizes(members)) <= INT_MAX
    ensures SumOver(Sizes(members)) <= SumOver(ExactSizes(members))
    ensures SumOver(Sizes(members)) == SumOver(ExactSizes(members)) <==> PointsFit(v)
    decreases v, 0
  {
    var sizes, exact := Sizes(members), ExactSizes(members);
    forall k | k in members ensures sizes[k] <= exact[k] && (sizes[k] == exact[k] <==> PointsFit(members[k])) {
      SumOverAtLeast(exact, k);
      SizesCompare(members[k]);
      assert sizes[k] == EntrySize(k, members[k]);
    }
    SumsCompare(sizes, exact);
  }

  lemma {:induction false} ObjectExact(members: map<string, Value>)
    ensures ExactBytes(VObject(members)) == Enclosed(|members|, SumOver(ExactSizes(members)))
  {
    assert ExactSizes(members) == map k | k in members :: StringBytes(k) + 2 + ExactBytes(members[k]);
    assert ExactContent(VObject(members)) == SumOver(ExactSizes(members));
  }

  /** If the exact size fits a machine integer, the measure is at most that, and equal exactly when all points fit. */
  lemma {:induction false} SizesCompare(v: Value)
    requires ShortTokens(v) && ExactBytes(v) <= INT_MAX
    ensures Compared(v)
    decreases v, 1
  {
    match v {
      case VNull =>
      case VBool(_) =>
      case VString(_) =>
      case VNumber(token) =>
        assert ContentBytes(v) == NumberSize(token);
        NumberBelowExact(token);
      case VArray(elements) =>
        assert ContentBytes(v) == ElementsBytes(elements) && ExactContent(v) == ExactElements(elements);
        ElementsCompare(elements);
        assert PointsFit(v) <==> AllPointsFit(elements);
      case VObject(members) =>
        ObjectBytes(members);
        ObjectExact(members);
        MembersCompare(members, v);
    }
  }

  // ----- When the machine measure is exact ---------------------------------------------------------

  /** The machine measure is the exact size exactly when that fits an integer and the point of every number does. */
  lemma {:induction false} MeasureIsExactly(v: Value)
    requires ShortTokens(v)
    ensures Wrap(JsonbTextBytes(v)) == ExactBytes(v) <==> ExactBytes(v) <= INT_MAX && PointsFit(v)
  {
    if ExactBytes(v) <= INT_MAX {
      SizesCompare(v);
    }
  }

  /** A limit decides alike on the measure and on the exact size. */
  ghost predicate LimitAgrees(v: Value, limit: int) { Wrap(JsonbTextBytes(v)) > limit <==> ExactBytes(v) > limit }

  /** All limits decide as on the exact size exactly under the same condition. */
  lemma {:induction false} LimitsAgreeExactly(v: Value)
    requires ShortTokens(v)
    ensures (forall limit :: 0 < limit <= INT_MAX ==> LimitAgrees(v, limit)) <==> ExactBytes(v) <= INT_MAX && PointsFit(v)
  {
    MeasureIsExactly(v);
    if ExactBytes(v) > INT_MAX {
      assert !LimitAgrees(v, INT_MAX);
    } else {
      SizesCompare(v);
      if !PointsFit(v) {
        assert !LimitAgrees(v, JsonbTextBytes(v));
      }
    }
  }

  /** The number one with 2^63 - 1 zeros measures one byte, so no limit refuses it. */
  lemma {:induction false} HugeNumberPasses(digits: string)
    requires digits == LARGEST_TEXT
    ensures var v := VNumber(NumberText(Huge(digits)));
            ShortTokens(v) && Wrap(JsonbTextBytes(v)) == 1 && ExactBytes(v) == INT_MAX + 1 && !PointsFit(v)
  {
    var n := Huge(digits);
    var v := VNumber(NumberText(n));
    LargestIsRead(digits);
    RenderedRenders(n);
    HugeExponentMeasuresOne(digits, Rendered(n));
    TokenIsRead(n);
    PlainLengthIsLength(n, Rendered(n));
    assert ContentBytes(v) == NumberSize(NumberText(n)) && ExactContent(v) == ExactNumber(NumberText(n));
    HugeIsNotZero();
  }

  lemma {:induction false} HugeIsNotZero()
    ensures !PointFits(Parts(false, "1", "", INT_MAX))
  {
    assert "1" + "" == "1";
  }
}
