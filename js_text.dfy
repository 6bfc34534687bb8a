/**
 * The string operations of JavaScript that the application relies on:
 * `String.prototype.trim`, `toLowerCase`, `includes`, `split('.')` as used
 * by the form handlers, and the decimal rendering of an integer.
 */
module JsText {
  import opened Wrappers
  import Sequences

  /** WhiteSpace and LineTerminator code points, the set `trim` removes (ECMA-262, section 12.2 and 12.3). */
  predicate IsWhitespace(c: char) {
    || c == ' ' || c == '\t' || c == '\n' || c == '\r'
    || c == '\U{B}' || c == '\U{C}' || c == '\U{A0}' || c == '\U{1680}'
    || ('\U{2000}' <= c <= '\U{200A}')
    || c == '\U{2028}' || c == '\U{2029}' || c == '\U{202F}' || c == '\U{205F}'
    || c == '\U{3000}' || c == '\U{FEFF}'
  }

  /** Number of whitespace characters at the start of s. */
  function LeadingSpace(s: string): (n: nat)
    ensures n <= |s|
    ensures forall i :: 0 <= i < n ==> IsWhitespace(s[i])
    ensures n < |s| ==> !IsWhitespace(s[n])
  {
    if |s| > 0 && IsWhitespace(s[0]) then 1 + LeadingSpace(s[1..]) else 0
  }

  /** Number of whitespace characters at the end of s. */
  function TrailingSpace(s: string): (n: nat)
    ensures n <= |s|
    ensures forall i :: |s| - n <= i < |s| ==> IsWhitespace(s[i])
    ensures n < |s| ==> !IsWhitespace(s[|s| - 1 - n])
  {
    if |s| > 0 && IsWhitespace(s[|s| - 1]) then 1 + TrailingSpace(s[..|s| - 1]) else 0
  }

  /** `s.trimStart()` */
  function TrimStart(s: string): string {
    s[LeadingSpace(s)..]
  }

  /** `s.trim()` */
  function Trim(s: string): string {
    var t := TrimStart(s);
    t[..|t| - TrailingSpace(t)]
  }

  /** A string that neither starts nor ends with whitespace. */
  predicate IsTrimmed(s: string) {
    s == [] || (!IsWhitespace(s[0]) && !IsWhitespace(s[|s| - 1]))
  }

  /** Trimming leaves a trimmed string that is a contiguous piece of the input. */
  lemma TrimShape(s: string)
    ensures IsTrimmed(Trim(s))
    ensures exists i, j :: 0 <= i <= j <= |s| && Trim(s) == s[i..j]
  {
    var a := LeadingSpace(s);
    var t := s[a..];
    var b := TrailingSpace(t);
    assert Trim(s) == s[a..|s| - b];
    if Trim(s) != [] {
      assert Trim(s)[0] == s[a];
      assert Trim(s)[|Trim(s)| - 1] == t[|t| - 1 - b];
    }
  }

  /** A trimmed string is its own trim. */
  lemma TrimOfTrimmed(s: string)
    requires IsTrimmed(s)
    ensures Trim(s) == s
  {
    if s != [] {
      assert LeadingSpace(s) == 0;
      assert TrailingSpace(s) == 0;
    }
  }

  /** `trim` is idempotent. */
  lemma TrimIdempotent(s: string)
    ensures Trim(Trim(s)) == Trim(s)
  {
    TrimShape(s);
    TrimOfTrimmed(Trim(s));
  }

  /** The trim is empty exactly when the string is all whitespace, so `s.trim()` is falsy iff s is blank. */
  lemma TrimEmptyIffBlank(s: string)
    ensures Trim(s) == [] <==> forall i :: 0 <= i < |s| ==> IsWhitespace(s[i])
  {
    var a := LeadingSpace(s);
    var t := s[a..];
    var b := TrailingSpace(t);
    if Trim(s) == [] {
      assert |t| == 0;
    } else {
      assert !IsWhitespace(s[a]);
    }
  }

  /** `toLowerCase` restricted to the Latin capital letters. */
  function LowerChar(c: char): char {
    if 'A' <= c <= 'Z' then (c as int + 32) as char else c
  }

  function ToLower(s: string): string {
    seq(|s|, i requires 0 <= i < |s| => LowerChar(s[i]))
  }

  /** Lower-casing twice is lower-casing once. */
  lemma ToLowerIdempotent(s: string)
    ensures ToLower(ToLower(s)) == ToLower(s)
  {
  }

  /** Lower-casing commutes with slicing. */
  lemma ToLowerSlice(s: string, i: nat, j: nat)
    requires i <= j <= |s|
    ensures ToLower(s)[i..j] == ToLower(s[i..j])
  {
  }

  /** p is a prefix of s. */
  predicate StartsWith(s: string, p: string) {
    |p| <= |s| && s[..|p|] == p
  }

  /** `s.includes(sub)`: sub occurs in s as a contiguous substring. */
  predicate Includes(s: string, sub: string)
    decreases |s|
  {
    StartsWith(s, sub) || (|s| > 0 && Includes(s[1..], sub))
  }

  /** sub occurs in s starting at position i. */
  predicate OccursAt(s: string, sub: string, i: int) {
    0 <= i <= |s| - |sub| && s[i..i + |sub|] == sub
  }

  /** `Includes` agrees with the positional definition of a substring occurrence. */
  lemma {:induction false} IncludesAt(s: string, sub: string)
    ensures Includes(s, sub) <==> exists i :: OccursAt(s, sub, i)
    decreases |s|
  {
    if StartsWith(s, sub) {
      assert OccursAt(s, sub, 0);
    } else if |s| > 0 {
      IncludesAt(s[1..], sub);
      if Includes(s[1..], sub) {
        var i :| OccursAt(s[1..], sub, i);
        assert s[1..][i..i + |sub|] == s[i + 1..i + 1 + |sub|];
        assert OccursAt(s, sub, i + 1);
      }
      if exists i :: OccursAt(s, sub, i) {
        var i :| OccursAt(s, sub, i);
        assert i != 0;
        assert s[1..][i - 1..i - 1 + |sub|] == s[i..i + |sub|];
        assert OccursAt(s[1..], sub, i - 1);
      }
    } else {
      assert forall i :: !OccursAt(s, sub, i);
    }
  }

  /** An occurrence survives lower-casing both strings. */
  lemma IncludesLower(s: string, sub: string)
    requires Includes(s, sub)
    ensures Includes(ToLower(s), ToLower(sub))
  {
    IncludesAt(s, sub);
    var i :| OccursAt(s, sub, i);
    ToLowerSlice(s, i, i + |sub|);
    assert OccursAt(ToLower(s), ToLower(sub), i);
    IncludesAt(ToLower(s), ToLower(sub));
  }

  /** Every string includes the empty string. */
  lemma IncludesEmpty(s: string)
    ensures Includes(s, "")
  {
    assert s[..0] == "";
  }

  /** The index of the first occurrence of c in s, if any. */
  function IndexOf(s: string, c: char): (r: nat)
    ensures r <= |s|
    ensures r < |s| ==> s[r] == c
    ensures forall i :: 0 <= i < r ==> s[i] != c
  {
    Sequences.FirstIndex(s, (x: char) => x == c)
  }

  /**
   * The first two pieces of `s.split(sep)`, which is what the form handlers'
   * `const [parent, child] = name.split('.')` binds. The second piece runs up
   * to the next separator or to the end of the string.
   */
  function SplitFirstTwo(s: string, sep: char): (string, string)
    requires IndexOf(s, sep) < |s|
  {
    var i := IndexOf(s, sep);
    var rest := s[i + 1..];
    (s[..i], rest[..IndexOf(rest, sep)])
  }

  /** In `p + [c] + q` with no `c` in `p`, the first `c` is the one after `p`. */
  lemma {:induction false} IndexOfAfter(p: string, c: char, q: string)
    requires forall i :: 0 <= i < |p| ==> p[i] != c
    ensures IndexOf(p + [c] + q, c) == |p|
  {
    if p != [] {
      assert (p + [c] + q)[1..] == p[1..] + [c] + q;
      IndexOfAfter(p[1..], c, q);
    }
  }

  /** `(p + sep + q).split(sep)` starts with p and q when neither contains sep. */
  lemma SplitFirstTwoOf(p: string, sep: char, q: string)
    requires forall i :: 0 <= i < |p| ==> p[i] != sep
    requires forall i :: 0 <= i < |q| ==> q[i] != sep
    ensures IndexOf(p + [sep] + q, sep) < |p + [sep] + q|
    ensures SplitFirstTwo(p + [sep] + q, sep) == (p, q)
  {
    var s := p + [sep] + q;
    IndexOfAfter(p, sep, q);
    assert s[..|p|] == p;
    assert s[|p| + 1..] == q;
    IndexOfNone(q, sep);
    assert q[..|q|] == q;
  }

  /** With no `c` in s, IndexOf reports |s|. */
  lemma {:induction false} IndexOfNone(s: string, c: char)
    requires forall i :: 0 <= i < |s| ==> s[i] != c
    ensures IndexOf(s, c) == |s|
  {
    if s != [] {
      IndexOfNone(s[1..], c);
    }
  }

  /**
   * `message || fallback` for a message that may be missing, as in
   * `err.response?.data?.message || fallback`: a missing or empty message
   * gives the fallback.
   */
  function MessageOr(message: Option<string>, fallback: string): (r: string)
    ensures message.Some? && message.value != "" ==> r == message.value
    ensures message.None? || message.value == "" ==> r == fallback
    ensures fallback != "" ==> r != ""
  {
    match message
    case Some(m) => if m != "" then m else fallback
    case None => fallback
  }

  function DigitChar(d: nat): char
    requires d < 10
  {
    "0123456789"[d]
  }

  /** The decimal rendering of a non-negative integer. */
  function NatToString(n: nat): string
    decreases n
  {
    if n < 10 then [DigitChar(n)] else NatToString(n / 10) + [DigitChar(n % 10)]
  }

  /** `String(n)` for an integer, as used in template literals. */
  function IntToString(n: int): string {
    if n < 0 then "-" + NatToString(-n) else NatToString(n)
  }
}
