/** Character and string helpers shared by the backend and the frontend:
    the `\D` regular-expression class, `String.isBlank`, Bean Validation's
    `@NotBlank`, ASCII lower-casing (SQL `LOWER`, `equalsIgnoreCase`),
    substring search (SQL `LIKE '%x%'`) and decimal rendering of integers. */
module Text {

  /** The `\d` class of Java and JavaScript regular expressions: ASCII digits. */
  predicate IsDigit(c: char) {
    '0' <= c <= '9'
  }

  predicate AllDigits(s: string) {
    forall i | 0 <= i < |s| :: IsDigit(s[i])
  }

  /** `s.replaceAll("\\D", "")` in Java, `s.replace(/\D/g, '')` in JavaScript:
      every non-digit removed. */
  function Digits(s: string): (r: string)
    ensures AllDigits(r)
    ensures |r| <= |s|
  {
    if s == [] then []
    else (if IsDigit(s[0]) then [s[0]] else []) + Digits(s[1..])
  }

  /** Digits works character by character, keeping the digits in their order. */
  lemma {:induction false} DigitsAppend(a: string, b: string)
    ensures Digits(a + b) == Digits(a) + Digits(b)
  {
    if a == [] {
      assert a + b == b;
    } else {
      assert (a + b)[1..] == a[1..] + b;
      DigitsAppend(a[1..], b);
    }
  }

  /** A string made only of digits is left as it is. */
  lemma {:induction false} DigitsOfAllDigits(s: string)
    requires AllDigits(s)
    ensures Digits(s) == s
  {
    if s != [] {
      DigitsOfAllDigits(s[1..]);
    }
  }

  /** The characters removed by Digits are exactly the non-digits. */
  lemma {:induction false} DigitsCount(s: string, c: char)
    ensures multiset(Digits(s))[c] == if IsDigit(c) then multiset(s)[c] else 0
  {
    if s != [] {
      DigitsCount(s[1..], c);
      assert s == [s[0]] + s[1..];
    }
  }

  /** `Character.isWhitespace`: the Unicode space, line and paragraph
      separators other than the non-breaking ones, and the nine ASCII
      controls U+0009..U+000D and U+001C..U+001F. */
  predicate IsWhitespace(c: char) {
    || '\t' <= c <= '\r'
    || '\U{1C}' <= c <= ' '
    || c == '\U{1680}'
    || '\U{2000}' <= c <= '\U{2006}'
    || '\U{2008}' <= c <= '\U{200A}'
    || c == '\U{2028}' || c == '\U{2029}'
    || c == '\U{205F}' || c == '\U{3000}'
  }

  /** `String.isBlank()`: empty or only whitespace. */
  predicate IsBlank(s: string) {
    forall i | 0 <= i < |s| :: IsWhitespace(s[i])
  }

  /** `@NotBlank` of Bean Validation (Hibernate Validator): the string is
      not empty after `trim()`, which strips characters up to U+0020. */
  predicate NotBlank(s: string) {
    exists i | 0 <= i < |s| :: s[i] > ' '
  }

  /** SQL `LOWER` of one character: ASCII and Latin-1 capitals (which
      cover every accented capital of Portuguese) map to their small
      letters; the multiplication sign U+00D7 has no case. */
  function LowerChar(c: char): (r: char)
    ensures 'A' <= c <= 'Z' ==> 'a' <= r <= 'z' && r as int == c as int + 32
    ensures ('A' <= c <= 'Z' || ('\U{00C0}' <= c <= '\U{00DE}' && c != '\U{00D7}')) <==> r != c
    ensures c < '\U{0080}' ==> r < '\U{0080}'
  {
    if 'A' <= c <= 'Z' || ('\U{00C0}' <= c <= '\U{00DE}' && c != '\U{00D7}') then (c as int + 32) as char else c
  }

  /** SQL `LOWER`, character by character. */
  function Lower(s: string): (r: string)
    ensures |r| == |s|
    ensures forall i | 0 <= i < |s| :: r[i] == LowerChar(s[i])
  {
    seq(|s|, i requires 0 <= i < |s| => LowerChar(s[i]))
  }

  /** Java's per-character test in `equalsIgnoreCase` when the receiver's
      character `n` is ASCII: `c` is `n`, or the same letter in the other
      case, or one of the four non-ASCII characters whose upper case, or
      the lower case of whose upper case, is an ASCII letter: dotless
      U+0131 and dotted U+0130 for i, long U+017F for s, and the Kelvin sign
      U+212A for k. */
  predicate CharEqualsIgnoreCase(n: char, c: char) {
    || c == n
    || (('A' <= n <= 'Z' || 'a' <= n <= 'z') && c < '\U{0080}' && LowerChar(c) == LowerChar(n))
    || (LowerChar(n) == 'i' && (c == '\U{0131}' || c == '\U{0130}'))
    || (LowerChar(n) == 's' && c == '\U{017F}')
    || (LowerChar(n) == 'k' && c == '\U{212A}')
  }

  /** `a.equalsIgnoreCase(b)` for a receiver `a` made of ASCII characters
      (every receiver in this model is: a state name or "PR"). */
  predicate EqualsIgnoreCase(a: string, b: string) {
    |a| == |b| && forall i | 0 <= i < |a| :: CharEqualsIgnoreCase(a[i], b[i])
  }

  /** Every string equals itself ignoring case. */
  lemma EqualsIgnoreCaseReflexive(a: string)
    ensures EqualsIgnoreCase(a, a)
  {
  }

  /** Two strings of capital letters are equal ignoring case only when they
      are equal. */
  lemma CapitalsEqualIgnoringCase(a: string, b: string)
    requires forall i | 0 <= i < |a| :: 'A' <= a[i] <= 'Z'
    requires forall i | 0 <= i < |b| :: 'A' <= b[i] <= 'Z'
    requires EqualsIgnoreCase(a, b)
    ensures a == b
  {
  }

  /** A character matches at most one capital letter ignoring case. */
  lemma OneCapitalPerCharacter(p: char, q: char, c: char)
    requires 'A' <= p <= 'Z' && 'A' <= q <= 'Z'
    requires CharEqualsIgnoreCase(p, c) && CharEqualsIgnoreCase(q, c)
    ensures p == q
  {
  }

  /** `t` occurs in `s` as a contiguous substring: SQL `s LIKE '%t%'` when `t`
      holds no wildcard. */
  predicate Contains(s: string, t: string) {
    exists i | 0 <= i <= |s| :: t <= s[i..]
  }

  /** Every string contains itself and its prefixes. */
  lemma ContainsPrefix(s: string, t: string)
    requires t <= s
    ensures Contains(s, t)
  {
    assert s[0..] == s;
  }

  /** Text appended after a match keeps it. */
  lemma ContainsAfter(s: string, t: string, u: string)
    requires Contains(s, t)
    ensures Contains(s + u, t)
  {
    var i :| 0 <= i <= |s| && t <= s[i..];
    assert (s + u)[i..] == s[i..] + u;
  }

  /** Text prepended before a match keeps it. */
  lemma ContainsBefore(u: string, s: string, t: string)
    requires Contains(s, t)
    ensures Contains(u + s, t)
  {
    var i :| 0 <= i <= |s| && t <= s[i..];
    assert (u + s)[|u| + i..] == s[i..];
  }

  /** The decimal digit character for 0..9. */
  function DigitChar(d: nat): (c: char)
    requires d < 10
    ensures IsDigit(c)
  {
    ('0' as int + d) as char
  }

  /** The number a string of decimal digits denotes. */
  function DecimalValue(s: string): nat
    requires AllDigits(s)
  {
    if s == [] then 0 else DecimalValue(s[..|s| - 1]) * 10 + (s[|s| - 1] as int - '0' as int)
  }

  /** Decimal rendering of a natural number, as `String.valueOf` and string
      concatenation print it: the digits denote `n`, with no leading zero. */
  function NatToText(n: nat): (r: string)
    ensures |r| >= 1 && AllDigits(r)
    ensures DecimalValue(r) == n
    ensures r[0] == '0' ==> n == 0 && r == "0"
  {
    if n < 10 then [DigitChar(n)]
    else
      var init := NatToText(n / 10);
      assert (init + [DigitChar(n % 10)])[..|init|] == init;
      init + [DigitChar(n % 10)]
  }

  /** Decimal rendering of an integer, with a leading '-' when negative. */
  function IntToText(n: int): (r: string)
    ensures |r| >= 1
    ensures (r[0] == '-') <==> n < 0
    ensures n >= 0 ==> AllDigits(r) && DecimalValue(r) == n
    ensures n < 0 ==> AllDigits(r[1..]) && DecimalValue(r[1..]) == -n
    ensures n >= 0 && r[0] == '0' ==> r == "0"
    ensures n < 0 ==> |r| >= 2 && r[1] != '0'
  {
    if n < 0 then
      assert ("-" + NatToText(-n))[1..] == NatToText(-n);
      "-" + NatToText(-n)
    else NatToText(n)
  }

  /** `String.length()`: UTF-16 code units, two for a character outside the
      Basic Multilingual Plane. */
  function Utf16Length(s: string): (n: nat)
    ensures |s| <= n <= 2 * |s|
    ensures (forall i | 0 <= i < |s| :: s[i] <= '\U{FFFF}') ==> n == |s|
  {
    if s == [] then 0
    else (if s[0] > '\U{FFFF}' then 2 else 1) + Utf16Length(s[1..])
  }

  /** A string of digits is as long in UTF-16 units as in characters. */
  lemma Utf16LengthOfDigits(s: string)
    requires AllDigits(s)
    ensures Utf16Length(s) == |s|
  {
  }
}
