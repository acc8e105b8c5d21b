/**
  Character classes and the handful of string operations the acoustic link
  relies on: Python's `str.isdigit`, `str.isalpha`, `str.replace`,
  `str.split` and `int`, and Kotlin's `filter { it.isDigit() }` and
  `isBlank`. The digit and letter classes are restricted to ASCII (see
  README); whitespace is Kotlin's full set.
 */
module Text {
  import opened Wrappers

  predicate IsDigit(c: char) { '0' <= c <= '9' }

  predicate IsLowerLetter(c: char) { 'a' <= c <= 'z' }

  predicate IsAsciiLetter(c: char) { 'a' <= c <= 'z' || 'A' <= c <= 'Z' }

  /**
    Kotlin's `Char.isWhitespace()` on the JVM: Java's `isWhitespace` (tab to
    carriage return and the separators U+001C to U+001F) or `isSpaceChar`
    (the Unicode space, line and paragraph separators, no-break spaces included).
   */
  predicate IsWhitespace(c: char) {
    || '\t' <= c <= '\r'
    || '\U{001C}' <= c <= ' '
    || c == '\U{00A0}' || c == '\U{1680}'
    || '\U{2000}' <= c <= '\U{200A}'
    || c == '\U{2028}' || c == '\U{2029}' || c == '\U{202F}' || c == '\U{205F}' || c == '\U{3000}'
  }

  predicate AllDigits(s: string) { forall i | 0 <= i < |s| :: IsDigit(s[i]) }

  /** Python's `s.isdigit()`: false on the empty string. */
  predicate IsDigitString(s: string) { |s| > 0 && AllDigits(s) }

  /** Kotlin's `s.isBlank()`: empty or whitespace only. */
  predicate IsBlank(s: string) { forall i | 0 <= i < |s| :: IsWhitespace(s[i]) }

  function Last(s: string): char
    requires |s| > 0
  {
    s[|s| - 1]
  }

  /** The decimal value of a digit string, as Python's `int` computes it. */
  function DigitsValue(s: string): (n: nat)
    requires AllDigits(s)
    ensures s == [] ==> n == 0
    decreases |s|
  {
    if s == [] then 0 else 10 * DigitsValue(s[..|s| - 1]) + (Last(s) as int - '0' as int)
  }

  /** Number of occurrences of `c` in `s`. */
  function Count(s: string, c: char): (n: nat)
    ensures n == 0 <==> c !in s
    ensures n <= |s|
  {
    if s == [] then 0 else (if s[0] == c then 1 else 0) + Count(s[1..], c)
  }

  /** Python's `s.replace(c, '')`. */
  function Remove(s: string, c: char): (r: string)
    ensures c !in r
    ensures forall x | x in r :: x in s
    ensures c !in s ==> r == s
  {
    if s == [] then [] else (if s[0] == c then [] else [s[0]]) + Remove(s[1..], c)
  }

  /** Index of the first occurrence of `c`, if any. */
  function IndexOf(s: string, c: char): (r: Option<nat>)
    ensures r.None? <==> c !in s
    ensures r.Some? ==> r.value < |s| && s[r.value] == c && c !in s[..r.value]
  {
    if s == [] then None
    else if s[0] == c then Some(0)
    else match IndexOf(s[1..], c)
      case None => None
      case Some(i) => assert s[1..][..i] == s[1..i + 1]; Some(i + 1)
  }

  /** Index of the first digit, if any. */
  function FirstDigit(s: string): (r: Option<nat>)
    ensures r.None? <==> AllNonDigits(s)
    ensures r.Some? ==> r.value < |s| && IsDigit(s[r.value]) && AllNonDigits(s[..r.value])
  {
    if s == [] then None
    else if IsDigit(s[0]) then Some(0)
    else match FirstDigit(s[1..])
      case None => None
      case Some(i) => assert s[1..][..i] == s[1..i + 1]; Some(i + 1)
  }

  predicate AllNonDigits(s: string) { forall x | x in s :: !IsDigit(x) }

  /** Python's `s.split(sep)`: the pieces between occurrences of `sep`. */
  function Split(s: string, sep: char): (parts: seq<string>)
    ensures |parts| == Count(s, sep) + 1
    ensures forall k | 0 <= k < |parts| :: sep !in parts[k]
    decreases |s|
  {
    match IndexOf(s, sep)
    case None => [s]
    case Some(i) =>
      CountSplitAt(s, sep, i);
      [s[..i]] + Split(s[i + 1..], sep)
  }

  lemma {:induction false} CountSplitAt(s: string, c: char, i: nat)
    requires i < |s| && s[i] == c && c !in s[..i]
    ensures Count(s, c) == 1 + Count(s[i + 1..], c)
  {
    if i > 0 {
      assert s[0] != c by { assert s[0] == s[..i][0]; }
      assert s[1..][..i - 1] == s[1..i];
      assert s[1..][i - 1 + 1..] == s[i + 1..];
      CountSplitAt(s[1..], c, i - 1);
    }
  }

  /** A string with exactly one separator splits into the parts before and after it. */
  lemma SplitOnce(s: string, sep: char, i: nat)
    requires i < |s| && s[i] == sep && sep !in s[..i] && sep !in s[i + 1..]
    ensures Split(s, sep) == [s[..i], s[i + 1..]]
  {
  }

  /** Kotlin's `s.filter { it.isDigit() }`. */
  function Digits(s: string): (r: string)
    ensures AllDigits(r)
    ensures |r| <= |s|
    ensures AllDigits(s) ==> r == s
  {
    if s == [] then [] else (if IsDigit(s[0]) then [s[0]] else []) + Digits(s[1..])
  }

  lemma {:induction false} CountConcat(a: string, b: string, c: char)
    ensures Count(a + b, c) == Count(a, c) + Count(b, c)
  {
    if a == [] {
      assert a + b == b;
    } else {
      assert (a + b)[1..] == a[1..] + b;
      CountConcat(a[1..], b, c);
    }
  }

  lemma {:induction false} RemoveConcat(a: string, b: string, c: char)
    ensures Remove(a + b, c) == Remove(a, c) + Remove(b, c)
  {
    if a == [] {
      assert a + b == b;
    } else {
      assert (a + b)[1..] == a[1..] + b;
      RemoveConcat(a[1..], b, c);
    }
  }

  /**
    Python's `int(s)` on text without surrounding whitespace or underscores:
    an optional sign followed by one or more digits.
   */
  function ParseInt(s: string): (r: Option<int>)
    ensures IsDigitString(s) ==> r == Some(DigitsValue(s))
    ensures r.Some? ==> |s| > 0 && !AllNonDigits(s)
    ensures |s| > 1 && s[0] == '-' && IsDigitString(s[1..]) ==> r == Some(-(DigitsValue(s[1..]) as int))
  {
    if IsDigitString(s) then Some(DigitsValue(s))
    else if |s| > 1 && (s[0] == '-' || s[0] == '+') && IsDigitString(s[1..]) then
      assert s[1] in s;
      var v: int := DigitsValue(s[1..]);
      Some(if s[0] == '-' then -v else v)
    else None
  }
}
