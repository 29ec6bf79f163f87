/**
 * The slice of JavaScript value semantics the request handlers depend on:
 * the values a JSON request body field can hold, JS truthiness, `typeof`
 * checks, and `String.prototype.trim`.
 *
 * JavaScript strings are sequences of UTF-16 code units, and `.length`
 * counts code units, so a JS string is modelled as a sequence of code units
 * and `|s|` is exactly `s.length`.
 */
module JsValues {

  /** One UTF-16 code unit. */
  newtype CodeUnit = x: int | 0 <= x < 0x1_0000

  type JsString = seq<CodeUnit>

  /**
   * The value of one named field of a parsed JSON body. `Absent` is a key
   * that the body does not have (the field reads as `undefined`); arrays and
   * objects are both `Other`, since no check looks inside them.
   */
  datatype Value =
    | Absent
    | Null
    | Bool(b: bool)
    | Num(x: real)
    | Str(s: JsString)
    | Other

  /**
   * JavaScript truthiness (`!v` is `!Truthy(v)`): `undefined`, `null`,
   * `false`, `0` and `""` are falsy. NaN is the other falsy number, but
   * JSON has no NaN literal, so no parsed body holds one.
   */
  predicate Truthy(v: Value)
  {
    match v
    case Absent => false
    case Null => false
    case Bool(b) => b
    case Num(x) => x != 0.0
    case Str(s) => s != []
    case Other => true
  }

  /**
   * The code units `trim` strips: the WhiteSpace and LineTerminator
   * productions of ECMAScript (section 12.2 and 12.3 of ECMA-262), that is
   * TAB, VT, FF, SP, NBSP, ZWNBSP, the Unicode space separators (Zs), LF,
   * CR, LS and PS.
   */
  predicate IsWhiteSpace(c: CodeUnit)
  {
    || c == 0x09 || c == 0x0A || c == 0x0B || c == 0x0C || c == 0x0D
    || c == 0x20 || c == 0xA0 || c == 0x1680
    || (0x2000 <= c <= 0x200A)
    || c == 0x2028 || c == 0x2029 || c == 0x202F || c == 0x205F
    || c == 0x3000 || c == 0xFEFF
  }

  /**
   * The same code units listed by category, as ECMA-262 tables them: the
   * WhiteSpace code points other than the space separators (TAB, VT, FF,
   * ZWNBSP), the Unicode category Zs, and the LineTerminator code points.
   */
  const FORMAT_SPACE: set<CodeUnit> := {0x09, 0x0B, 0x0C, 0xFEFF}
  const SPACE_SEPARATORS: set<CodeUnit> :=
    {0x20, 0xA0, 0x1680, 0x2000, 0x2001, 0x2002, 0x2003, 0x2004, 0x2005, 0x2006,
     0x2007, 0x2008, 0x2009, 0x200A, 0x202F, 0x205F, 0x3000}
  const LINE_TERMINATORS: set<CodeUnit> := {0x0A, 0x0D, 0x2028, 0x2029}

  /** `IsWhiteSpace` holds of exactly the code units in the three tables. */
  lemma WhiteSpaceTable(c: CodeUnit)
    ensures IsWhiteSpace(c) <==> c in FORMAT_SPACE + SPACE_SEPARATORS + LINE_TERMINATORS
  {
  }

  /**
   * The falsy values a JSON body field can hold are exactly `undefined`,
   * `null`, `false`, `0` and `""`.
   */
  lemma FalsyValues(v: Value)
    ensures !Truthy(v) <==> v == Absent || v == Null || v == Bool(false) || v == Num(0.0) || v == Str([])
  {
  }

  /** Every code unit of `s` is white space (vacuously true of ""). */
  ghost predicate AllWhiteSpace(s: JsString)
  {
    forall k :: 0 <= k < |s| ==> IsWhiteSpace(s[k])
  }

  /** No white space at either end. */
  ghost predicate Trimmed(s: JsString)
  {
    |s| > 0 ==> !IsWhiteSpace(s[0]) && !IsWhiteSpace(s[|s| - 1])
  }

  /** `s` with its leading white space removed. */
  function TrimStart(s: JsString): (r: JsString)
    ensures |r| <= |s| && r == s[|s| - |r|..]
    ensures |r| > 0 ==> !IsWhiteSpace(r[0])
  {
    if |s| > 0 && IsWhiteSpace(s[0]) then TrimStart(s[1..]) else s
  }

  /** `s` with its trailing white space removed. */
  function TrimEnd(s: JsString): (r: JsString)
    ensures |r| <= |s| && r == s[..|r|]
    ensures |r| > 0 ==> !IsWhiteSpace(r[|r| - 1])
  {
    if |s| > 0 && IsWhiteSpace(s[|s| - 1]) then TrimEnd(s[..|s| - 1]) else s
  }

  /** Everything TrimStart cuts off is white space. */
  lemma {:induction false} TrimStartCutsWhiteSpace(s: JsString)
    ensures forall k :: 0 <= k < |s| - |TrimStart(s)| ==> IsWhiteSpace(s[k])
  {
    if |s| > 0 && IsWhiteSpace(s[0]) {
      TrimStartCutsWhiteSpace(s[1..]);
      forall k | 0 < k < |s| - |TrimStart(s)| ensures IsWhiteSpace(s[k]) {
        assert s[k] == s[1..][k - 1];
      }
    }
  }

  /** Everything TrimEnd cuts off is white space. */
  lemma {:induction false} TrimEndCutsWhiteSpace(s: JsString)
    ensures forall k :: |TrimEnd(s)| <= k < |s| ==> IsWhiteSpace(s[k])
  {
    if |s| > 0 && IsWhiteSpace(s[|s| - 1]) {
      TrimEndCutsWhiteSpace(s[..|s| - 1]);
      forall k | |TrimEnd(s)| <= k < |s| - 1 ensures IsWhiteSpace(s[k]) {
        assert s[k] == s[..|s| - 1][k];
      }
    }
  }

  /**
   * `s.trim()`: TrimStart then TrimEnd. The result is a slice of `s` with no
   * white space at either end (the lemma TrimIsMiddle says which slice).
   */
  function Trim(s: JsString): (r: JsString)
    ensures |r| <= |s|
    ensures Trimmed(r)
  {
    TrimEnd(TrimStart(s))
  }

  /** How many code units `trim` cuts from the front of `s`. */
  function Leading(s: JsString): (n: nat)
    ensures n <= |s|
  {
    |s| - |TrimStart(s)|
  }

  /** Helper for TrimIsMiddle: the slice fact on its own, which keeps that proof small. */
  lemma TrimSlice(s: JsString)
    ensures Leading(s) + |Trim(s)| <= |s| && Trim(s) == s[Leading(s)..Leading(s) + |Trim(s)|]
  {
    var t := TrimStart(s);
    var r := TrimEnd(t);
    var n := |s| - |t|;
    assert t == s[n..];
    assert r == t[..|r|];
  }

  /**
   * `s.trim()` is the slice of `s` that starts after its leading white
   * space; everything cut off at either end is white space, so the result
   * is empty exactly when `s` is all white space.
   */
  lemma TrimIsMiddle(s: JsString)
    ensures Leading(s) + |Trim(s)| <= |s| && Trim(s) == s[Leading(s)..Leading(s) + |Trim(s)|]
    ensures forall k :: 0 <= k < Leading(s) ==> IsWhiteSpace(s[k])
    ensures forall k :: Leading(s) + |Trim(s)| <= k < |s| ==> IsWhiteSpace(s[k])
    ensures |Trim(s)| == 0 <==> AllWhiteSpace(s)
  {
    TrimSlice(s);
    var t := TrimStart(s);
    var n := Leading(s);
    var m := |Trim(s)|;
    TrimStartCutsWhiteSpace(s);
    TrimEndCutsWhiteSpace(t);
    forall k | n + m <= k < |s| ensures IsWhiteSpace(s[k]) {
      assert s[k] == t[k - n];
    }
    if m > 0 {
      assert !IsWhiteSpace(s[n]);
    }
  }
}
