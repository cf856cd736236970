/**
 * The JavaScript semantics the backend and the client rely on: the values a
 * request carries, truthiness, String.prototype.trim / toLowerCase /
 * includes / localeCompare, Number(...) and parseInt(...).
 *
 * Case folding is ASCII-only and localeCompare is code-point order; both
 * stand for the locale-dependent originals.
 */
module Js {
  import opened Wrappers

  /** A value found in a parsed JSON body or query string. */
  datatype JsValue = Undefined | Null | Num(n: real) | Str(s: string)

  /** A body field the client fills from a text input: never a number. */
  type TextValue = v: JsValue | !v.Num? witness Undefined

  /** JavaScript truthiness (`if (v)`, `!v`, `v || d`). */
  predicate Truthy(v: JsValue) {
    match v
    case Undefined => false
    case Null => false
    case Num(n) => n != 0.0
    case Str(s) => s != ""
  }

  /** The properties every object literal inherits from Object.prototype. */
  const ObjectPrototypeKeys: set<string> := {
    "constructor", "hasOwnProperty", "isPrototypeOf", "propertyIsEnumerable", "toLocaleString",
    "toString", "valueOf", "__proto__", "__defineGetter__", "__defineSetter__",
    "__lookupGetter__", "__lookupSetter__"
  }

  /** `key in { own... }`: an own property or an inherited one. */
  predicate InObject(key: string, own: set<string>) {
    key in own || key in ObjectPrototypeKeys
  }

  /** A thrown exception, which the routes hand to the error middleware. */
  datatype Exception = TypeError

  /** `s.length`: UTF-16 code units, two for a code point outside the BMP. */
  function JsLength(s: string): (n: nat)
    ensures n >= |s|
    ensures n == 0 <==> s == []
  {
    if s == [] then 0 else JsLength(s[..|s| - 1]) + (if s[|s| - 1] as int > 0xFFFF then 2 else 1)
  }

  // ---------------------------------------------------------------------
  // Whitespace: the WhiteSpace and LineTerminator code points of ECMAScript,
  // which both `\s` in a regular expression and String.prototype.trim use.
  // ---------------------------------------------------------------------

  predicate IsSpace(c: char) {
    || c == '\t' || c == '\n' || c == '\U{B}' || c == '\U{C}' || c == '\r' || c == ' '
    || c == '\U{A0}' || c == '\U{1680}' || ('\U{2000}' <= c <= '\U{200A}')
    || c == '\U{2028}' || c == '\U{2029}' || c == '\U{202F}' || c == '\U{205F}'
    || c == '\U{3000}' || c == '\U{FEFF}'
  }

  predicate IsBlank(s: string) {
    forall i :: 0 <= i < |s| ==> IsSpace(s[i])
  }

  /** Drops leading whitespace. */
  function TrimStart(s: string): (r: string)
    ensures |r| <= |s| && r == s[|s| - |r|..]
    ensures r == [] <==> IsBlank(s)
    ensures r != [] ==> !IsSpace(r[0])
  {
    if s != [] && IsSpace(s[0]) then TrimStart(s[1..]) else s
  }

  /** Drops trailing whitespace. */
  function TrimEnd(s: string): (r: string)
    ensures |r| <= |s| && r == s[..|r|]
    ensures r == [] <==> IsBlank(s)
    ensures r != [] ==> !IsSpace(r[|r| - 1])
  {
    if s != [] && IsSpace(s[|s| - 1]) then TrimEnd(s[..|s| - 1]) else s
  }

  /** String.prototype.trim: empty exactly when the string is all whitespace. */
  function Trim(s: string): (r: string)
    ensures r == [] <==> IsBlank(s)
    ensures r != [] ==> !IsSpace(r[0]) && !IsSpace(r[|r| - 1])
  {
    TrimEnd(TrimStart(s))
  }

  // ---------------------------------------------------------------------
  // Case folding and substring search
  // ---------------------------------------------------------------------

  function LowerChar(c: char): char {
    if 'A' <= c <= 'Z' then (c as int + 32) as char else c
  }

  /** toLowerCase, restricted to the ASCII letters. */
  function Lower(s: string): (r: string)
    ensures |r| == |s|
    ensures forall i :: 0 <= i < |s| ==> r[i] == LowerChar(s[i])
  {
    seq(|s|, i requires 0 <= i < |s| => LowerChar(s[i]))
  }

  lemma LowerConcat(a: string, b: string)
    ensures Lower(a + b) == Lower(a) + Lower(b)
  {
    assert forall i :: 0 <= i < |a + b| ==> Lower(a + b)[i] == (Lower(a) + Lower(b))[i];
  }

  predicate IsPrefix(p: string, s: string) {
    |p| <= |s| && s[..|p|] == p
  }

  /** `s.includes(t)`: t occurs in s at some position. */
  predicate Contains(s: string, t: string) {
    IsPrefix(t, s) || (s != [] && Contains(s[1..], t))
  }

  /** Every string includes the empty string, so an empty filter restricts nothing. */
  lemma ContainsEmpty(s: string)
    ensures Contains(s, "")
  {
  }

  /** t occurs in s starting at offset i. */
  predicate OccursAt(s: string, t: string, i: int) {
    0 <= i <= |s| - |t| && s[i..i + |t|] == t
  }

  /** `includes` is occurrence at some offset. */
  lemma {:induction false} ContainsAt(s: string, t: string)
    ensures Contains(s, t) <==> exists i :: OccursAt(s, t, i)
  {
    if s == [] {
      if IsPrefix(t, s) {
        assert OccursAt(s, t, 0);
      }
      if exists i :: OccursAt(s, t, i) {
        var i :| OccursAt(s, t, i);
        assert i == 0 && IsPrefix(t, s);
      }
    } else {
      ContainsAt(s[1..], t);
      if Contains(s[1..], t) {
        var i :| OccursAt(s[1..], t, i);
        assert OccursAt(s, t, i + 1);
      }
      if IsPrefix(t, s) {
        assert OccursAt(s, t, 0);
      }
      if exists i :: OccursAt(s, t, i) {
        var i :| OccursAt(s, t, i);
        if i == 0 {
          assert IsPrefix(t, s);
        } else {
          assert OccursAt(s[1..], t, i - 1);
        }
      }
    }
  }

  // ---------------------------------------------------------------------
  // localeCompare, modelled as code-point lexicographic order
  // ---------------------------------------------------------------------

  function StrCompare(a: string, b: string): (r: int)
    ensures -1 <= r <= 1
    ensures r == 0 <==> a == b
  {
    if a == [] then (if b == [] then 0 else -1)
    else if b == [] then 1
    else if a[0] < b[0] then -1
    else if a[0] > b[0] then 1
    else
      var r := StrCompare(a[1..], b[1..]);
      assert r == 0 ==> a == [a[0]] + a[1..] == [b[0]] + b[1..] == b;
      r
  }

  lemma {:induction false} StrCompareFlip(a: string, b: string)
    ensures StrCompare(b, a) == -StrCompare(a, b)
  {
    if a != [] && b != [] && a[0] == b[0] {
      StrCompareFlip(a[1..], b[1..]);
    }
  }

  lemma {:induction false} StrCompareTransitive(a: string, b: string, c: string)
    requires StrCompare(a, b) <= 0 && StrCompare(b, c) <= 0
    ensures StrCompare(a, c) <= 0
  {
    if a != [] && b != [] && c != [] && a[0] == b[0] == c[0] {
      StrCompareTransitive(a[1..], b[1..], c[1..]);
    }
  }

  // ---------------------------------------------------------------------
  // Numbers: Number(string) and parseInt(string)
  // ---------------------------------------------------------------------

  predicate IsDigit(c: char) {
    '0' <= c <= '9'
  }

  predicate AllDigits(s: string) {
    forall i :: 0 <= i < |s| ==> IsDigit(s[i])
  }

  function DigitsValue(s: string): (n: nat)
    requires AllDigits(s)
  {
    if s == [] then 0 else DigitsValue(s[..|s| - 1]) * 10 + (s[|s| - 1] as int - '0' as int)
  }

  /** Length of the run of decimal digits that starts s. */
  function DigitRun(s: string): (k: nat)
    ensures k <= |s| && AllDigits(s[..k])
    ensures k < |s| ==> !IsDigit(s[k])
  {
    if s != [] && IsDigit(s[0]) then
      var k := 1 + DigitRun(s[1..]);
      assert forall i :: 1 <= i < k ==> s[..k][i] == s[1..][..k - 1][i - 1];
      k
    else 0
  }

  lemma {:induction false} DigitRunAll(s: string)
    requires AllDigits(s)
    ensures DigitRun(s) == |s|
  {
    if s != [] {
      DigitRunAll(s[1..]);
    }
  }

  function Pow10(k: nat): (p: nat)
    ensures p >= 1
  {
    if k == 0 then 1 else 10 * Pow10(k - 1)
  }

  /** An optional leading '+' or '-': (is it '-', the rest). */
  function SplitSign(s: string): (bool, string) {
    if s != [] && (s[0] == '-' || s[0] == '+') then (s[0] == '-', s[1..]) else (false, s)
  }

  /**
   * parseInt(s) in base 10: leading whitespace, an optional sign, then the
   * longest run of digits; None is NaN (no digit at all).
   */
  function ParseInt(s: string): (r: Option<int>)
    ensures s != [] && AllDigits(s) ==> r == Some(DigitsValue(s))
  {
    var (neg, body) := SplitSign(TrimStart(s));
    var k := DigitRun(body);
    assert s != [] && AllDigits(s) ==> k == |s| && body[..k] == s by {
      if s != [] && AllDigits(s) {
        assert TrimStart(s) == s;
        assert body == s;
        DigitRunAll(s);
      }
    }
    var magnitude: int := DigitsValue(body[..k]);
    if k == 0 then None else Some(if neg then -magnitude else magnitude)
  }

  /** parseInt("-1") is -1: the sign applies to the digits that follow it. */
  lemma ParseMinusOne()
    ensures ParseInt("-1") == Some(-1)
  {
    assert !IsSpace('-');
    assert TrimStart("-1") == "-1";
    assert SplitSign("-1") == (true, "1");
    assert DigitRun("1") == 1 by {
      assert DigitRun("1"[1..]) == 0;
    }
    assert "1"[..1] == "1";
    assert DigitsValue("1") == 1 by {
      assert "1"[..0] == [];
    }
  }

  /**
   * Number(s) for decimal notation: surrounding whitespace, an optional sign,
   * digits with an optional fraction; the empty string is 0; None is NaN.
   */
  function StringToNumber(s: string): (r: Option<real>)
    ensures s != [] && AllDigits(s) ==> r == Some(DigitsValue(s) as real)
  {
    var t := Trim(s);
    assert s != [] && AllDigits(s) ==> t == s && SplitSign(s) == (false, s) && UnsignedValue(s) == Some(DigitsValue(s) as real) by {
      if s != [] && AllDigits(s) {
        assert IsDigit(s[0]);
        TrimDigits(s);
        UnsignedOfDigits(s);
      }
    }
    if t == [] then Some(0.0)
    else
      var (neg, body) := SplitSign(t);
      match UnsignedValue(body)
      case None => None
      case Some(m) => Some(if neg then -m else m)
  }

  /** The unsigned part of Number(s): digits with an optional fraction, at least one digit in all. */
  function UnsignedValue(body: string): Option<real> {
    var k := DigitRun(body);
    var whole := DigitsValue(body[..k]) as real;
    var rest := body[k..];
    if rest == [] then (if k == 0 then None else Some(whole))
    else if rest[0] == '.' && AllDigits(rest[1..]) && (k > 0 || |rest| > 1) then
      Some(whole + DigitsValue(rest[1..]) as real / Pow10(|rest| - 1) as real)
    else None
  }

  /** A digit is not whitespace, so trimming leaves a string of digits alone. */
  lemma TrimDigits(s: string)
    requires s != [] && AllDigits(s)
    ensures Trim(s) == s
  {
    assert IsDigit(s[0]) && IsDigit(s[|s| - 1]);
    assert TrimStart(s) == s;
  }

  lemma UnsignedOfDigits(s: string)
    requires s != [] && AllDigits(s)
    ensures UnsignedValue(s) == Some(DigitsValue(s) as real)
  {
    DigitRunAll(s);
    assert s[..|s|] == s;
  }

  /** Number(v) for the values a body can carry; None is NaN. */
  function ToNumber(v: JsValue): Option<real> {
    match v
    case Undefined => None
    case Null => Some(0.0)
    case Num(n) => Some(n)
    case Str(s) => StringToNumber(s)
  }

  /** String(i) for an integer. */
  function IntText(i: int): (r: string)
    ensures r != []
  {
    if i < 0 then "-" + NatText(-i) else NatText(i)
  }

  function NatText(n: nat): (r: string)
    ensures r != [] && AllDigits(r)
    ensures DigitsValue(r) == n
  {
    var d := ['0' + (n % 10) as char];
    if n < 10 then d
    else
      var r := NatText(n / 10) + d;
      assert r[..|r| - 1] == NatText(n / 10);
      r
  }

  /** The sign of a comparator's numeric result. */
  function Sign(x: real): int {
    if x < 0.0 then -1 else if x > 0.0 then 1 else 0
  }
}
