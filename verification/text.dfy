/**
 * The string operations the services and pages rely on: Java's and
 * JavaScript's `trim`, Java's `equalsIgnoreCase` restricted to ASCII letters,
 * and decimal rendering and reading of integers.
 */
module Text {

  // ---------------------------------------------------------------------------
  // Trimming
  // ---------------------------------------------------------------------------

  /** `s` with its longest prefix of `p`-characters removed. */
  function DropStart(s: string, p: char -> bool): (r: string)
    ensures |r| <= |s| && r == s[|s| - |r|..]
    ensures forall i :: 0 <= i < |s| - |r| ==> p(s[i])
    ensures |r| > 0 ==> !p(r[0])
  {
    if |s| > 0 && p(s[0]) then DropStart(s[1..], p) else s
  }

  /** `s` with its longest suffix of `p`-characters removed. */
  function DropEnd(s: string, p: char -> bool): (r: string)
    ensures |r| <= |s| && r == s[..|r|]
    ensures forall i :: |r| <= i < |s| ==> p(s[i])
    ensures |r| > 0 ==> !p(r[|r| - 1])
  {
    if |s| > 0 && p(s[|s| - 1]) then DropEnd(s[..|s| - 1], p) else s
  }

  /** Both ends stripped of `p`-characters. */
  function Strip(s: string, p: char -> bool): (r: string)
    ensures |r| <= |s|
    ensures |r| > 0 ==> !p(r[0]) && !p(r[|r| - 1])
  {
    DropEnd(DropStart(s, p), p)
  }

  /**
   * The stripped string is the slice of `s` from its first to its last kept
   * character: everything cut off before and after it is a `p`-character.
   */
  lemma StripSlice(s: string, p: char -> bool)
    ensures var k := |s| - |DropStart(s, p)|;
      var r := Strip(s, p);
      && k + |r| <= |s| && r == s[k..k + |r|]
      && (forall i :: 0 <= i < k ==> p(s[i]))
      && (forall i :: k + |r| <= i < |s| ==> p(s[i]))
  {
    var t := DropStart(s, p);
    var k := |s| - |t|;
    var r := DropEnd(t, p);
    assert t == s[k..];
    assert r == t[..|r|];
    forall i | k + |r| <= i < |s| ensures p(s[i]) {
      assert s[i] == t[i - k];
    }
  }

  /** Stripping twice strips nothing more. */
  lemma StripIdempotent(s: string, p: char -> bool)
    ensures Strip(Strip(s, p), p) == Strip(s, p)
  {
    var r := Strip(s, p);
    if |r| > 0 {
      assert DropStart(r, p) == r;
      assert DropEnd(r, p) == r;
    }
  }

  /** A string with no `p`-character at all is stripped of nothing. */
  lemma StripClean(s: string, p: char -> bool)
    ensures (forall i :: 0 <= i < |s| ==> !p(s[i])) ==> Strip(s, p) == s
  {
    if |s| > 0 && !p(s[0]) && !p(s[|s| - 1]) {
      assert DropStart(s, p) == s;
      assert DropEnd(s, p) == s;
    }
  }

  /** A character `String.trim` removes: any code point up to U+0020. */
  predicate IsJavaTrimmed(c: char) {
    c <= ' '
  }

  /** Java `String.trim`. */
  function JavaTrim(s: string): (r: string)
    ensures |r| <= |s|
    ensures |r| > 0 ==> r[0] > ' ' && r[|r| - 1] > ' '
    ensures (forall i :: 0 <= i < |s| ==> s[i] > ' ') ==> r == s
  {
    StripClean(s, IsJavaTrimmed);
    Strip(s, IsJavaTrimmed)
  }

  /**
   * A character JavaScript's `String.prototype.trim` removes: the ECMAScript
   * WhiteSpace and LineTerminator code points.
   */
  predicate IsJsWhitespace(c: char) {
    || ('\t' <= c <= '\r')
    || c == ' '
    || c == '\U{00A0}'
    || c == '\U{1680}'
    || ('\U{2000}' <= c <= '\U{200A}')
    || c == '\U{2028}'
    || c == '\U{2029}'
    || c == '\U{202F}'
    || c == '\U{205F}'
    || c == '\U{3000}'
    || c == '\U{FEFF}'
  }

  /** JavaScript `String.prototype.trim`. */
  function JsTrim(s: string): (r: string)
    ensures |r| <= |s|
    ensures |r| > 0 ==> !IsJsWhitespace(r[0]) && !IsJsWhitespace(r[|r| - 1])
  {
    Strip(s, IsJsWhitespace)
  }

  // ---------------------------------------------------------------------------
  // Case
  // ---------------------------------------------------------------------------

  /** Upper-casing of the ASCII letters; every other character is kept. */
  function UpperAscii(c: char): (u: char)
    ensures 'a' <= c <= 'z' ==> u as int == c as int - 32
    ensures !('a' <= c <= 'z') ==> u == c
  {
    if 'a' <= c <= 'z' then (c as int - 32) as char else c
  }

  /** `String.equalsIgnoreCase`, folding ASCII letters only. */
  predicate EqualsIgnoreCase(a: string, b: string) {
    |a| == |b| && forall i :: 0 <= i < |a| ==> UpperAscii(a[i]) == UpperAscii(b[i])
  }

  /** The ASCII upper-case form of a string. */
  function ToUpperAscii(s: string): (r: string)
    ensures |r| == |s|
    ensures forall i :: 0 <= i < |s| ==> r[i] == UpperAscii(s[i])
  {
    seq(|s|, i requires 0 <= i < |s| => UpperAscii(s[i]))
  }

  /** Comparison ignoring case is an equivalence that does not see case. */
  lemma EqualsIgnoreCaseLaws(a: string, b: string, c: string)
    ensures EqualsIgnoreCase(a, a)
    ensures EqualsIgnoreCase(a, b) ==> EqualsIgnoreCase(b, a)
    ensures EqualsIgnoreCase(a, b) && EqualsIgnoreCase(b, c) ==> EqualsIgnoreCase(a, c)
    ensures EqualsIgnoreCase(ToUpperAscii(a), b) <==> EqualsIgnoreCase(a, b)
  {
    assert forall ch :: UpperAscii(UpperAscii(ch)) == UpperAscii(ch);
  }

  // ---------------------------------------------------------------------------
  // Decimal integers
  // ---------------------------------------------------------------------------

  predicate IsDigit(c: char) {
    '0' <= c <= '9'
  }

  /** The decimal digits of `n`, without leading zeros (`"0"` for zero). */
  function Digits(n: nat): (s: string)
    ensures |s| > 0
    ensures forall i :: 0 <= i < |s| ==> IsDigit(s[i])
    decreases n
  {
    if n < 10 then [('0' as int + n) as char]
    else Digits(n / 10) + [('0' as int + n % 10) as char]
  }

  /** The value of a string of decimal digits; the empty string is worth 0. */
  function DigitsValue(s: string): (n: nat)
    requires forall i :: 0 <= i < |s| ==> IsDigit(s[i])
  {
    if |s| == 0 then 0
    else
      assert IsDigit(s[|s| - 1]);
      DigitsValue(s[..|s| - 1]) * 10 + (s[|s| - 1] as int - '0' as int)
  }

  /** Reading back the rendering of `n` gives `n`. */
  lemma {:induction false} DigitsRoundTrip(n: nat)
    ensures DigitsValue(Digits(n)) == n
    decreases n
  {
    if n >= 10 {
      DigitsRoundTrip(n / 10);
      var s := Digits(n);
      assert s[..|s| - 1] == Digits(n / 10);
    }
  }

  /** Java's `%d` / JavaScript's `String(n)` for an integer: an optional '-' then the digits. */
  function FormatInt(n: int): (s: string)
    ensures n >= 0 ==> s == Digits(n)
    ensures n < 0 ==> s == "-" + Digits(-n)
  {
    if n < 0 then "-" + Digits(-n) else Digits(n)
  }
}
