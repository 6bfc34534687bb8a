/**
 * The browser's constraint validation of the add-product form's
 * `<input type="number" required>` fields with `inputProps={{ min: 0 }}` (and
 * `step: 0.01` on the prices). The form has no `noValidate`, so the browser
 * refuses to submit while one of them is empty, unreadable, below zero or off
 * its step. The step base is the minimum, 0, so a step of 10^-places allows
 * exactly the values with no non-zero digit after `places` decimals.
 *
 * Number texts are read as in the HTML standard's "valid floating-point
 * number": an optional '-', then digits, then optionally '.' and digits, at
 * least one digit in all. Exponent notation is not modelled.
 */
module NumberInput {
  import opened Wrappers
  import opened JsText
  import opened JsValues

  /** A number text split at its sign and its decimal point. */
  datatype NumberText = NumberText(negative: bool, whole: string, fraction: string)

  /** Digits on both sides of the point, and at least one digit. */
  predicate WellFormed(t: NumberText) {
    AllDigits(t.whole) && AllDigits(t.fraction) && (t.whole != "" || t.fraction != "")
  }

  /** The text of a number: the sign, the whole digits, and '.' with the fraction when there is one. */
  function Render(t: NumberText): string {
    (if t.negative then "-" else "") + Unsigned(t)
  }

  /** The text after the sign. */
  function Unsigned(t: NumberText): string {
    t.whole + (if t.fraction == "" then "" else "." + t.fraction)
  }

  /** Reads a number text; None for anything else, the empty text included. */
  function ReadNumber(s: string): Option<NumberText> {
    var negative := |s| > 0 && s[0] == '-';
    ReadUnsigned(negative, if negative then s[1..] else s)
  }

  /** Reads the text after the sign: digits, then optionally '.' and digits, at least one digit in all. */
  function ReadUnsigned(negative: bool, u: string): Option<NumberText> {
    var k := IndexOf(u, '.');
    var whole := u[..k];
    var fraction := if k < |u| then u[k + 1..] else "";
    if AllDigits(whole) && AllDigits(fraction) && (whole != "" || fraction != "") && (k < |u| ==> fraction != "") then
      Some(NumberText(negative, whole, fraction))
    else None
  }

  /** `u` split at its first point, put back together. */
  lemma {:induction false} SplitAtPoint(u: string, k: nat)
    requires k <= |u| && (k < |u| ==> u[k] == '.')
    requires k < |u| ==> u[k + 1..] != ""
    ensures u == u[..k] + (if k < |u| then "." + u[k + 1..] else "")
  {
    if k < |u| {
      assert u == u[..k] + [u[k]] + u[k + 1..];
    } else {
      assert u[..k] == u;
    }
  }

  /** What the unsigned reader reads is well formed and gives back the text it read. */
  lemma {:induction false} UnsignedRead(negative: bool, u: string, t: NumberText)
    requires ReadUnsigned(negative, u) == Some(t)
    ensures t.negative == negative && WellFormed(t) && Unsigned(t) == u
  {
    var k := IndexOf(u, '.');
    assert t.whole == u[..k];
    assert t.fraction == if k < |u| then u[k + 1..] else "";
    SplitAtPoint(u, k);
  }

  /** What is read is well formed and renders as the text it was read from. */
  lemma {:induction false} RenderRead(s: string, t: NumberText)
    requires ReadNumber(s) == Some(t)
    ensures WellFormed(t) && Render(t) == s
  {
    var negative := |s| > 0 && s[0] == '-';
    UnsignedRead(negative, if negative then s[1..] else s, t);
    if negative {
      assert s == [s[0]] + s[1..];
    }
  }

  /** The unsigned reader gives back a number from its unsigned text. */
  lemma {:induction false} UnsignedReadBack(t: NumberText)
    requires WellFormed(t)
    ensures ReadUnsigned(t.negative, Unsigned(t)) == Some(t)
  {
    var u := Unsigned(t);
    var k := |t.whole|;
    if t.fraction == "" {
      IndexOfNone(u, '.');
      assert u[..k] == t.whole;
    } else {
      assert u == t.whole + ['.'] + t.fraction;
      IndexOfAfter(t.whole, '.', t.fraction);
      assert u[..k] == t.whole;
      assert u[k + 1..] == t.fraction;
    }
  }

  /** Reading a rendered number gives the number back. */
  lemma {:induction false} ReadRender(t: NumberText)
    requires WellFormed(t)
    ensures ReadNumber(Render(t)) == Some(t)
  {
    RenderedSign(t);
    UnsignedReadBack(t);
  }

  predicate AllZeros(s: string) {
    forall i :: 0 <= i < |s| ==> s[i] == '0'
  }

  /** The input's `value`: React renders a number through `String`, and an undefined value as empty. */
  function ValueText(v: JsValue): string {
    if v.JsUndefined? then "" else ToText(v)
  }

  /**
   * The input passes `required`, `min: 0` and a step of 10^-places: its value
   * reads as a number, is not below zero (a minus sign only before zeros) and
   * has no non-zero digit after `places` decimals.
   */
  predicate Accepts(v: JsValue, places: nat) {
    match ReadNumber(ValueText(v))
    case None => false
    case Some(t) =>
      && (t.negative ==> AllZeros(t.whole) && AllZeros(t.fraction))
      && (|t.fraction| > places ==> AllZeros(t.fraction[places..]))
  }

  /** A digit string of zeros has value 0. */
  lemma {:induction false} ZerosValue(s: string)
    requires AllDigits(s) && AllZeros(s)
    ensures DigitsValue(s) == 0
    decreases |s|
  {
    if s != [] {
      ZerosValue(s[..|s| - 1]);
    }
  }

  /** A number value is accepted exactly when it is not negative, whatever the step. */
  lemma AcceptsIntegers(n: int, places: nat)
    ensures Accepts(JsNum(n), places) <==> n >= 0
  {
    var m: nat := if n < 0 then -n else n;
    var d := NatToString(m);
    DigitsValueOfNat(m);
    assert |d| > 0;
    var t := NumberText(n < 0, d, "");
    ReadRender(t);
    assert Render(t) == IntToString(n);
    if n < 0 && AllZeros(d) {
      ZerosValue(d);
    }
  }

  /** A typed string of digits is accepted; an empty value is not. */
  lemma AcceptsDigits(d: string, places: nat)
    requires d != "" && AllDigits(d)
    ensures Accepts(JsStr(d), places)
    ensures !Accepts(JsStr(""), places) && !Accepts(JsUndefined, places)
  {
    var t := NumberText(false, d, "");
    ReadRender(t);
    assert Render(t) == d;
    assert IndexOf("", '.') == 0;
  }

  /** On the whole-number step "1.5" is refused; on the 0.01 step it is accepted. */
  lemma StepOfOneAndAHalf()
    ensures !Accepts(JsStr("1.5"), 0) && Accepts(JsStr("1.5"), 2)
  {
    var a := NumberText(false, "1", "5");
    ReadRender(a);
    assert Render(a) == "1.5";
  }

  /** On the 0.01 step a third decimal other than 0 is refused. */
  lemma StepOfThreeDecimals()
    ensures !Accepts(JsStr("0.015"), 2)
  {
    var b := NumberText(false, "0", "015");
    ReadRender(b);
    assert Render(b) == "0.015";
    assert b.fraction[2..] == "5";
  }

  /** `parseInt` reads the whole part exactly when there is one. */
  lemma {:induction false} DigitPrefixExact(u: string, k: nat)
    requires k <= |u| && AllDigits(u[..k])
    requires k < |u| ==> !IsDigit(u[k])
    ensures DigitPrefix(u) == k
    decreases k
  {
    if k > 0 {
      assert IsDigit(u[..k][0]);
      assert u[1..][..k - 1] == u[..k][1..];
      DigitPrefixExact(u[1..], k - 1);
    }
  }

  /** A number text starts with '-', a digit or '.', never with whitespace. */
  lemma {:induction false} RenderedUntrimmed(t: NumberText)
    requires WellFormed(t)
    ensures LeadingSpace(Render(t)) == 0
  {
    var s := Render(t);
    if t.negative {
      assert s[0] == '-';
    } else if t.whole != "" {
      assert s[0] == t.whole[0] && IsDigit(t.whole[0]);
    } else {
      assert s[0] == '.';
    }
  }

  /** The text starts with '-' exactly when the number is negative, never with '+', and after the sign come the unsigned digits. */
  lemma {:induction false} RenderedSign(t: NumberText)
    requires WellFormed(t)
    ensures |Render(t)| > 0
    ensures (Render(t)[0] == '-') == t.negative && Render(t)[0] != '+'
    ensures (if t.negative then Render(t)[1..] else Render(t)) == Unsigned(t)
  {
    var s := Render(t);
    if t.negative {
      assert s[0] == '-' && s[1..] == Unsigned(t);
    } else if t.whole != "" {
      assert s[0] == t.whole[0] && IsDigit(t.whole[0]);
    } else {
      assert s[0] == '.';
    }
  }

  /** The digit run `parseInt` reads after the sign is exactly the whole part. */
  lemma {:induction false} UnsignedDigits(t: NumberText)
    requires WellFormed(t)
    ensures DigitPrefix(Unsigned(t)) == |t.whole| && Unsigned(t)[..|t.whole|] == t.whole
  {
    var u := Unsigned(t);
    assert u[..|t.whole|] == t.whole;
    if t.fraction != "" {
      assert u[|t.whole|] == '.';
    }
    DigitPrefixExact(u, |t.whole|);
  }

  /** `parseInt` of a text with no leading space and a '-' sign or none: the digit run after the sign, negated after '-'. */
  lemma ParseIntOfSigned(s: string, negative: bool, u: string)
    requires LeadingSpace(s) == 0
    requires negative == (|s| > 0 && (s[0] == '-' || s[0] == '+'))
    requires negative ==> s[0] == '-'
    requires u == if negative then s[1..] else s
    ensures ParseIntText(s) == if DigitPrefix(u) == 0 then None else
      var v: int := DigitsValue(u[..DigitPrefix(u)]); Some(if negative then -v else v)
  {
    assert TrimStart(s) == s;
  }

  /** `parseInt` of a number text reads its sign and whole part, and is NaN when there is no whole part. */
  lemma ParseIntOfRendered(t: NumberText)
    requires WellFormed(t)
    ensures ParseIntText(Render(t)) ==
      if t.whole == "" then None
      else Some(if t.negative then -(DigitsValue(t.whole) as int) else DigitsValue(t.whole) as int)
  {
    RenderedUntrimmed(t);
    RenderedSign(t);
    UnsignedDigits(t);
    ParseIntOfSigned(Render(t), t.negative, Unsigned(t));
  }

  /** An accepted value never makes `parseInt` negative: it is NaN (no whole digits) or at least 0. */
  lemma {:induction false} AcceptedParsesNonNegative(v: JsValue, places: nat)
    requires Accepts(v, places)
    ensures ParseInt(v).None? || ParseInt(v).value >= 0
  {
    var s := ValueText(v);
    var t := ReadNumber(s).value;
    RenderRead(s, t);
    assert ToText(v) == s;
    ParseIntOfRendered(t);
    if t.negative && t.whole != "" {
      ZerosValue(t.whole);
    }
  }
}
