/**
 * The JavaScript values that flow through the product form, and the three
 * language rules its code leans on: truthiness (`!x`, `x || d`), the `<=`
 * operator (which compares two strings character by character and anything
 * else as numbers), and `parseInt`. Numbers are restricted to integers.
 */
module JsValues {
  import opened Wrappers
  import opened JsText

  datatype JsValue = JsUndefined | JsBool(b: bool) | JsNum(n: int) | JsStr(s: string)

  /** JS truthiness: `undefined`, `false`, `0` and `""` are falsy. */
  predicate Truthy(v: JsValue) {
    match v
    case JsUndefined => false
    case JsBool(b) => b
    case JsNum(n) => n != 0
    case JsStr(s) => s != ""
  }

  predicate IsDigit(c: char) {
    '0' <= c <= '9'
  }

  predicate AllDigits(s: string) {
    forall i :: 0 <= i < |s| ==> IsDigit(s[i])
  }

  function DigitValue(c: char): nat
    requires IsDigit(c)
  {
    c as int - '0' as int
  }

  /** The value of a string of decimal digits, most significant first. */
  function DigitsValue(s: string): nat
    requires AllDigits(s)
  {
    if s == [] then 0 else DigitsValue(s[..|s| - 1]) * 10 + DigitValue(s[|s| - 1])
  }

  /** Length of the longest prefix of s made of decimal digits. */
  function DigitPrefix(s: string): (k: nat)
    ensures k <= |s|
    ensures AllDigits(s[..k])
    ensures k < |s| ==> !IsDigit(s[k])
  {
    if |s| > 0 && IsDigit(s[0]) then
      var k := 1 + DigitPrefix(s[1..]);
      assert s[..k] == [s[0]] + s[1..][..k - 1];
      k
    else 0
  }

  /**
   * `Number(s)` for strings: surrounding whitespace is ignored, the empty
   * string is 0, an optionally signed decimal integer is its value and any
   * other text is NaN (None).
   */
  function StringToNumber(s: string): Option<int> {
    var t := Trim(s);
    if t == "" then Some(0)
    else if |t| > 1 && (t[0] == '-' || t[0] == '+') && AllDigits(t[1..]) then
      var v: int := DigitsValue(t[1..]);
      Some(if t[0] == '-' then -v else v)
    else if AllDigits(t) then Some(DigitsValue(t))
    else None
  }

  /** `ToNumber(v)`; None stands for NaN. */
  function ToNumber(v: JsValue): Option<int> {
    match v
    case JsUndefined => None
    case JsBool(b) => Some(if b then 1 else 0)
    case JsNum(n) => Some(n)
    case JsStr(s) => StringToNumber(s)
  }

  /**
   * Lexicographic `a < b` on strings, comparing code points. This is the
   * order MongoDB sorts strings in (by their UTF-8 bytes). JavaScript's `<`
   * compares UTF-16 code units instead; the two differ only when a character
   * outside the Basic Multilingual Plane meets one in U+E000-U+FFFF.
   */
  predicate StrLess(a: string, b: string) {
    if a == [] then b != []
    else if b == [] then false
    else if a[0] != b[0] then a[0] < b[0]
    else StrLess(a[1..], b[1..])
  }

  /** No two strings each come before the other. */
  lemma {:induction false} StrLessAsymmetric(a: string, b: string)
    ensures !(StrLess(a, b) && StrLess(b, a))
  {
    if a != [] && b != [] && a[0] == b[0] {
      StrLessAsymmetric(a[1..], b[1..]);
    }
  }

  /** The JS expression `x <= y` (ECMA-262, section 7.2.13, IsLessThan with the operands swapped). */
  predicate LooseLessEq(x: JsValue, y: JsValue) {
    if x.JsStr? && y.JsStr? then !StrLess(y.s, x.s)
    else
      match (ToNumber(x), ToNumber(y))
      case (Some(a), Some(b)) => a <= b
      case _ => false
  }

  /** `String(v)` for the values of this model. */
  function ToText(v: JsValue): string {
    match v
    case JsUndefined => "undefined"
    case JsBool(b) => if b then "true" else "false"
    case JsNum(n) => IntToString(n)
    case JsStr(s) => s
  }

  /**
   * `parseInt(s)` with the default radix: leading whitespace is skipped, an
   * optional sign is read, then the longest run of decimal digits; no digit
   * at all gives NaN (None).
   */
  function ParseIntText(s: string): Option<int> {
    var t := TrimStart(s);
    var signed := |t| > 0 && (t[0] == '-' || t[0] == '+');
    var u := if signed then t[1..] else t;
    var k := DigitPrefix(u);
    if k == 0 then None
    else
      var v: int := DigitsValue(u[..k]);
      Some(if signed && t[0] == '-' then -v else v)
  }

  function ParseInt(v: JsValue): Option<int> {
    ParseIntText(ToText(v))
  }

  /** `parseInt(v) || d`: NaN and 0 are both falsy, so both give d. */
  function ParseIntOr(v: JsValue, d: int): (r: int)
    ensures ParseInt(v) == Some(r) || r == d
    ensures r == d <== ParseInt(v).None? || ParseInt(v) == Some(0)
    ensures ParseInt(v).Some? && ParseInt(v).value != 0 ==> r == ParseInt(v).value
  {
    match ParseInt(v)
    case Some(n) => if n != 0 then n else d
    case None => d
  }

  lemma DigitsOfNat(n: nat)
    ensures AllDigits(NatToString(n))
    ensures |NatToString(n)| > 0
  {
    if n >= 10 {
      DigitsOfNat(n / 10);
    }
  }

  /** Reading back the decimal rendering of n gives n. */
  lemma {:induction false} DigitsValueOfNat(n: nat)
    ensures AllDigits(NatToString(n))
    ensures DigitsValue(NatToString(n)) == n
    decreases n
  {
    DigitsOfNat(n);
    if n >= 10 {
      DigitsValueOfNat(n / 10);
      var s := NatToString(n);
      assert s[..|s| - 1] == NatToString(n / 10);
    }
  }

  lemma DigitPrefixAll(s: string)
    requires AllDigits(s)
    ensures DigitPrefix(s) == |s|
  {
    if |s| > 0 {
      DigitPrefixAll(s[1..]);
    }
  }

  /** A non-empty digit string, possibly after a minus sign, is read back by `parseInt` in full. */
  lemma ParseIntOfDigits(d: string)
    requires |d| > 0 && AllDigits(d)
    ensures ParseIntText(d) == Some(DigitsValue(d) as int)
    ensures ParseIntText("-" + d) == Some(-(DigitsValue(d) as int))
  {
    DigitPrefixAll(d);
    assert d[..|d|] == d;
    assert IsDigit(d[0]);
    assert LeadingSpace(d) == 0;
    assert TrimStart(d) == d;
    var s := "-" + d;
    assert LeadingSpace(s) == 0;
    assert TrimStart(s) == s;
    assert s[1..] == d;
  }

  /** `parseInt("")` is NaN and `parseInt("0")` is 0: both are falsy, so `parseInt(x) || d` gives d. */
  lemma ParseIntFalsyTexts(d: int)
    ensures ParseIntText("") == None
    ensures ParseIntText("0") == Some(0)
    ensures ParseIntOr(JsStr(""), d) == d && ParseIntOr(JsStr("0"), d) == d
  {
    assert DigitPrefix("") == 0;
    ParseIntOfDigits("0");
  }

  /** `parseInt(n)` recovers every integer n, so an untouched numeric field survives submit normalisation. */
  lemma ParseIntOfNumber(n: int)
    ensures ParseInt(JsNum(n)) == Some(n)
  {
    var m: nat := if n < 0 then -n else n;
    DigitsValueOfNat(m);
    DigitsOfNat(m);
    ParseIntOfDigits(NatToString(m));
  }

  /** A non-empty digit string, with or without a leading minus sign, has no surrounding whitespace. */
  lemma DigitsTrimmed(d: string)
    requires |d| > 0 && AllDigits(d)
    ensures Trim(d) == d
    ensures Trim("-" + d) == "-" + d
  {
    assert IsDigit(d[0]) && IsDigit(d[|d| - 1]);
    TrimOfTrimmed(d);
    var s := "-" + d;
    assert s[|s| - 1] == d[|d| - 1];
    TrimOfTrimmed(s);
  }

  /** `Number(String(n))` is n: an integer typed into a field compares as that integer with a number. */
  lemma NumberOfDecimal(n: int)
    ensures StringToNumber(IntToString(n)) == Some(n)
  {
    var m: nat := if n < 0 then -n else n;
    var d := NatToString(m);
    DigitsValueOfNat(m);
    DigitsOfNat(m);
    DigitsTrimmed(d);
    if n < 0 {
      var s := "-" + d;
      assert IntToString(n) == s;
      assert s[1..] == d;
      assert StringToNumber(s) == Some(-(DigitsValue(d) as int));
    } else {
      assert IntToString(n) == d;
      assert IsDigit(d[0]);
      assert StringToNumber(d) == Some(DigitsValue(d) as int);
    }
  }
}
