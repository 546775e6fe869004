/**
 * The small slice of JavaScript value semantics the client code leans on:
 * primitive values as they appear in grid rows and configuration flags,
 * `String(v)`, `v?.toString()`, truthiness, the `\s` whitespace class and
 * `String.prototype.trim`.
 */
module JsValues {

  datatype Option<+T> = None | Some(value: T) {
    function GetOr(default: T): T {
      match this
      case Some(v) => v
      case None => default
    }
  }

  /** A JavaScript primitive. Numbers are modelled as integers. */
  datatype Value = Undefined | Null | Bool(b: bool) | Num(n: int) | Str(s: string)

  /** A backend row or a config object read field by field; a missing key reads as `undefined`. */
  type Row = map<string, Value>

  function Get(row: Row, key: string): (v: Value)
    ensures key !in row ==> v == Undefined
  {
    if key in row then row[key] else Undefined
  }

  predicate IsNullish(v: Value) {
    v.Undefined? || v.Null?
  }

  /** JavaScript truthiness: `undefined`, `null`, `false`, `0` and `''` are falsy. */
  predicate Truthy(v: Value) {
    match v
    case Undefined => false
    case Null => false
    case Bool(b) => b
    case Num(n) => n != 0
    case Str(s) => s != ""
  }

  // ---------------------------------------------------------------------------
  // Decimal rendering of numbers
  // ---------------------------------------------------------------------------

  predicate IsDigit(c: char) {
    '0' <= c <= '9'
  }

  function DigitChar(d: nat): (c: char)
    requires d < 10
    ensures IsDigit(c)
  {
    "0123456789"[d]
  }

  function DigitValue(c: char): (d: nat)
    requires IsDigit(c)
    ensures d < 10
  {
    (c as int - '0' as int) as nat
  }

  /** The digits of `n`, most significant first, without leading zeros. */
  function NatToDecimal(n: nat): (r: string)
    ensures |r| > 0
    ensures forall i :: 0 <= i < |r| ==> IsDigit(r[i])
    ensures |r| > 1 ==> r[0] != '0'
    decreases n
  {
    if n < 10 then [DigitChar(n)] else NatToDecimal(n / 10) + [DigitChar(n % 10)]
  }

  /** Reads a digit string back as a number. */
  function DecimalValue(s: string): nat
    requires forall i :: 0 <= i < |s| ==> IsDigit(s[i])
  {
    if s == [] then 0 else 10 * DecimalValue(s[..|s| - 1]) + DigitValue(s[|s| - 1])
  }

  lemma {:induction false} DecimalRoundTrip(n: nat)
    ensures DecimalValue(NatToDecimal(n)) == n
    decreases n
  {
    var r := NatToDecimal(n);
    if n >= 10 {
      DecimalRoundTrip(n / 10);
      assert r[..|r| - 1] == NatToDecimal(n / 10);
    }
  }

  function IntToDecimal(n: int): (r: string)
    ensures |r| > 0
  {
    if n < 0 then "-" + NatToDecimal(-n) else NatToDecimal(n)
  }

  /** `String(v)`. */
  function ToStr(v: Value): (r: string)
    ensures v.Str? ==> r == v.s
    ensures v.Num? ==> r == IntToDecimal(v.n)
    ensures !v.Str? ==> |r| > 0
  {
    match v
    case Undefined => "undefined"
    case Null => "null"
    case Bool(b) => if b then "true" else "false"
    case Num(n) => IntToDecimal(n)
    case Str(s) => s
  }

  /** The UTF-16 code units JavaScript stores for one character: the
      character's own code below U+10000, else its surrogate pair. A Dafny
      `char` is a Unicode scalar value, so it is never itself a surrogate. */
  function Utf16Units(c: char): (u: seq<nat>)
    ensures (c as int) < 0x1_0000 ==> u == [c as nat]
    ensures (c as int) >= 0x1_0000 ==> |u| == 2 && 0xD800 <= u[0] < 0xDC00 && 0xDC00 <= u[1] < 0xE000
    ensures (c as int) >= 0x1_0000 ==> (u[0] - 0xD800) * 0x400 + (u[1] - 0xDC00) + 0x1_0000 == c as int
  {
    if (c as int) < 0x1_0000 then [c as nat]
    else
      var v := c as int - 0x1_0000;
      assert v < 0x10_0000;
      [0xD800 + v / 0x400, 0xDC00 + v % 0x400]
  }

  /** The code units of a string, which `split('')` yields one by one. */
  function Utf16(s: string): (u: seq<nat>)
    ensures |u| >= |s|
    decreases |s|
  {
    if s == [] then [] else Utf16Units(s[0]) + Utf16(s[1..])
  }

  lemma {:induction false} Utf16Append(a: string, b: string)
    ensures Utf16(a + b) == Utf16(a) + Utf16(b)
    decreases |a|
  {
    if a == [] {
      assert a + b == b;
    } else {
      assert (a + b)[0] == a[0] && (a + b)[1..] == a[1..] + b;
      Utf16Append(a[1..], b);
    }
  }

  /** `v?.toString()`: nothing for `null`/`undefined`, else `String(v)`. */
  function OptToString(v: Value): (r: Option<string>)
    ensures r.None? <==> IsNullish(v)
    ensures r.Some? ==> r.value == ToStr(v)
  {
    if IsNullish(v) then None else Some(ToStr(v))
  }

  /** `s || fallback` for an optional string. */
  function OrElse(s: Option<string>, fallback: string): (r: string)
    ensures s.Some? && s.value != "" ==> r == s.value
    ensures s.None? || s.value == "" ==> r == fallback
  {
    if s.Some? && s.value != "" then s.value else fallback
  }

  /** `String(flag) === 'true'`, as used for `mobileImp` and `mobileAllow`. */
  predicate IsTrueFlag(flag: Value) {
    ToStr(flag) == "true"
  }

  lemma TrueFlagCases(flag: Value)
    ensures IsTrueFlag(flag) <==> flag == Bool(true) || flag == Str("true")
  {
  }

  // ---------------------------------------------------------------------------
  // Whitespace
  // ---------------------------------------------------------------------------

  /** The line terminators, which the regular-expression `.` does not match. */
  predicate IsLineTerminator(c: char) {
    c == '\n' || c == '\r' || c == '\U{2028}' || c == '\U{2029}'
  }

  /** The regular-expression class `\s`; `trim` removes the same set. */
  predicate IsJsWhitespace(c: char) {
    || c == '\t' || c == '\n' || c == '\U{000B}' || c == '\U{000C}' || c == '\r' || c == ' '
    || c == '\U{00A0}' || c == '\U{1680}' || ('\U{2000}' <= c <= '\U{200A}')
    || c == '\U{2028}' || c == '\U{2029}' || c == '\U{202F}' || c == '\U{205F}'
    || c == '\U{3000}' || c == '\U{FEFF}'
  }

  lemma LineTerminatorIsWhitespace(c: char)
    requires IsLineTerminator(c)
    ensures IsJsWhitespace(c)
  {
  }

  predicate AllWhitespace(s: string) {
    forall i :: 0 <= i < |s| ==> IsJsWhitespace(s[i])
  }

  /** The index of the first character at or after `i` that is not whitespace. */
  function SkipWhitespace(s: string, i: nat): (n: nat)
    requires i <= |s|
    ensures i <= n <= |s|
    ensures forall k :: i <= k < n ==> IsJsWhitespace(s[k])
    ensures n < |s| ==> !IsJsWhitespace(s[n])
    decreases |s| - i
  {
    if i == |s| || !IsJsWhitespace(s[i]) then i else SkipWhitespace(s, i + 1)
  }

  /** Going back from `j` but not past `lo`: the index just after the last
      character that is not whitespace. */
  function BackOverWhitespace(s: string, lo: nat, j: nat): (n: nat)
    requires lo <= j <= |s|
    ensures lo <= n <= j
    ensures forall k :: n <= k < j ==> IsJsWhitespace(s[k])
    ensures n > lo ==> !IsJsWhitespace(s[n - 1])
    decreases j
  {
    if j == lo || !IsJsWhitespace(s[j - 1]) then j else BackOverWhitespace(s, lo, j - 1)
  }

  /** The number of leading whitespace characters `trim` removes. */
  function LeadLength(s: string): (n: nat)
    ensures n <= |s| && AllWhitespace(s[..n])
    ensures n < |s| ==> !IsJsWhitespace(s[n])
  {
    SkipWhitespace(s, 0)
  }

  /** `s.trim()`: `s` is a whitespace run, then the result, then a whitespace run. */
  function Trim(s: string): (r: string)
    ensures LeadLength(s) + |r| <= |s|
    ensures r == s[LeadLength(s)..LeadLength(s) + |r|]
    ensures AllWhitespace(s[LeadLength(s) + |r|..])
    ensures r != [] ==> !IsJsWhitespace(r[0]) && !IsJsWhitespace(r[|r| - 1])
  {
    var i := LeadLength(s);
    s[i..BackOverWhitespace(s, i, |s|)]
  }

  /** `s.trim() !== ''` holds exactly when `s` has a non-whitespace character. */
  lemma TrimEmptyIffBlank(s: string)
    ensures Trim(s) == "" <==> AllWhitespace(s)
  {
    var r := Trim(s);
    var i := LeadLength(s);
    if r == "" {
      assert s[..i] == s;
    } else {
      assert s[i] == r[0];
    }
  }
}
