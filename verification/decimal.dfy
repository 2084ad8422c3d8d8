/**
 Decimal text for integers: the rendering Python's `str(n)` gives a
 non-negative int, and the parsing `int(s)` does for a base-10 literal.
 */
module Decimal {
  import opened Wrappers

  predicate IsDigit(c: char) {
    '0' <= c <= '9'
  }

  predicate AllDigits(s: string) {
    forall i :: 0 <= i < |s| ==> IsDigit(s[i])
  }

  function DigitChar(d: nat): (c: char)
    requires d < 10
    ensures IsDigit(c)
  {
    ('0' as int + d) as char
  }

  function DigitValue(c: char): (d: nat)
    requires IsDigit(c)
    ensures d < 10
    ensures DigitChar(d) == c
  {
    c as int - '0' as int
  }

  /** `str(n)` for a non-negative int: most significant digit first, no leading zero. */
  function DecimalString(n: nat): (s: string)
    ensures |s| >= 1
    ensures AllDigits(s)
    ensures |s| > 1 ==> s[0] != '0'
    decreases n
  {
    if n < 10 then [DigitChar(n)] else DecimalString(n / 10) + [DigitChar(n % 10)]
  }

  /** The value of a string of decimal digits, most significant first. */
  function DigitsValue(s: string): nat
    requires AllDigits(s)
  {
    if |s| == 0 then 0 else DigitsValue(s[..|s| - 1]) * 10 + DigitValue(s[|s| - 1])
  }

  /** Rendering then reading back gives the number again. */
  lemma {:induction false} DigitsValueOfDecimalString(n: nat)
    ensures DigitsValue(DecimalString(n)) == n
    decreases n
  {
    if n >= 10 {
      var s := DecimalString(n);
      assert s[..|s| - 1] == DecimalString(n / 10);
      DigitsValueOfDecimalString(n / 10);
    }
  }

  /** Distinct numbers have distinct decimal renderings. */
  lemma DecimalStringInjective(a: nat, b: nat)
    requires DecimalString(a) == DecimalString(b)
    ensures a == b
  {
    DigitsValueOfDecimalString(a);
    DigitsValueOfDecimalString(b);
  }

  /** A four-digit number renders as exactly four characters. */
  lemma DecimalStringOfFourDigits(n: nat)
    requires 1000 <= n <= 9999
    ensures |DecimalString(n)| == 4
  {
    assert |DecimalString(n / 1000)| == 1;
    assert |DecimalString(n / 100)| == 2;
    assert |DecimalString(n / 10)| == 3;
  }

  /** The whitespace characters Python strips around an int literal: space, and tab through carriage return. */
  predicate IsSpace(c: char) {
    c == ' ' || '\t' <= c <= '\r'
  }

  /** The index of the first non-whitespace character at or after `i`, or `|s|`. */
  function SkipSpaces(s: string, i: nat): (n: nat)
    requires i <= |s|
    ensures i <= n <= |s|
    ensures forall k :: i <= k < n ==> IsSpace(s[k])
    ensures n < |s| ==> !IsSpace(s[n])
    decreases |s| - i
  {
    if i < |s| && IsSpace(s[i]) then SkipSpaces(s, i + 1) else i
  }

  /** The index just past the last non-whitespace character before `j`, or 0. */
  function SkipSpacesBack(s: string, j: nat): (n: nat)
    requires j <= |s|
    ensures n <= j
    ensures forall k :: n <= k < j ==> IsSpace(s[k])
    ensures n > 0 ==> !IsSpace(s[n - 1])
  {
    if j > 0 && IsSpace(s[j - 1]) then SkipSpacesBack(s, j - 1) else j
  }

  function StripLeft(s: string): (r: string)
    ensures |r| <= |s|
    ensures r == s[|s| - |r|..]
    ensures |r| > 0 ==> !IsSpace(r[0])
  {
    s[SkipSpaces(s, 0)..]
  }

  function StripRight(s: string): (r: string)
    ensures |r| <= |s|
    ensures r == s[..|r|]
    ensures |r| > 0 ==> !IsSpace(r[|r| - 1])
  {
    s[..SkipSpacesBack(s, |s|)]
  }

  /**
   `int(s)` for a text value in base 10: surrounding whitespace is ignored,
   then an optional sign, more whitespace after the sign, and at least one
   digit; anything else is a ValueError, modelled as None.
   */
  function ParseInt(s: string): (r: Option<int>)
    ensures r.Some? ==> exists i :: 0 <= i < |s| && IsDigit(s[i])
  {
    var t := StripRight(StripLeft(s));
    if |t| > 0 && (t[0] == '-' || t[0] == '+') then
      var digits := StripLeft(t[1..]);
      if |digits| > 0 && AllDigits(digits) then
        assert s[|s| - |StripLeft(s)| + |t| - |digits|] == digits[0];
        var v: int := DigitsValue(digits);
        Some(if t[0] == '-' then -v else v)
      else None
    else if |t| > 0 && AllDigits(t) then
      assert s[|s| - |StripLeft(s)|] == t[0];
      Some(DigitsValue(t))
    else None
  }

  /** `int(str(n)) == n`: the decimal rendering of a number parses back to it. */
  lemma ParseIntOfDecimalString(n: nat)
    ensures ParseInt(DecimalString(n)) == Some(n)
  {
    ParseIntUnsigned(DecimalString(n));
    DigitsValueOfDecimalString(n);
  }

  /** Digits with no outer whitespace read as their value. */
  lemma ParseIntUnsigned(s: string)
    requires |s| > 0 && AllDigits(s)
    ensures ParseInt(s) == Some(DigitsValue(s))
  {
    assert IsDigit(s[0]) && IsDigit(s[|s| - 1]);
    StripUnpadded(s);
  }

  /** Text with no whitespace at either end is left as it is by the stripping. */
  lemma StripUnpadded(s: string)
    requires |s| > 0 && !IsSpace(s[0]) && !IsSpace(s[|s| - 1])
    ensures StripLeft(s) == s
    ensures StripRight(s) == s
  {
  }

  /** A sign followed directly by digits: stripping leaves the text and, after the sign, the digits. */
  lemma SignedShape(sign: char, d: string)
    requires sign == '+' || sign == '-'
    requires |d| > 0 && AllDigits(d)
    ensures StripRight(StripLeft([sign] + d)) == [sign] + d
    ensures StripLeft(([sign] + d)[1..]) == d
  {
    var s := [sign] + d;
    assert IsDigit(d[|d| - 1]) && s[|s| - 1] == d[|d| - 1];
    StripUnpadded(s);
    assert !IsSpace(d[0]);
    assert s[1..] == d;
  }

  /** A sign, one space and digits: stripping leaves the text and, after the sign, the digits. */
  lemma SpacedSignedShape(sign: char, d: string)
    requires sign == '+' || sign == '-'
    requires |d| > 0 && AllDigits(d)
    ensures StripRight(StripLeft([sign, ' '] + d)) == [sign, ' '] + d
    ensures StripLeft(([sign, ' '] + d)[1..]) == d
  {
    var s := [sign, ' '] + d;
    assert IsDigit(d[|d| - 1]) && s[|s| - 1] == d[|d| - 1];
    StripUnpadded(s);
    var tail := s[1..];
    assert tail == [' '] + d;
    assert tail[0] == ' ' && tail[1..] == d;
    assert StripLeft(tail) == StripLeft(d);
    assert IsDigit(d[0]);
    StripUnpadded(d);
  }

  /** Text the stripping keeps, a sign, then digits worth `v` once the whitespace after the sign is gone. */
  lemma ParseIntSigned(s: string, d: string, v: nat)
    requires StripRight(StripLeft(s)) == s
    requires |s| > 0 && (s[0] == '+' || s[0] == '-')
    requires StripLeft(s[1..]) == d && |d| > 0 && AllDigits(d) && DigitsValue(d) == v
    ensures ParseInt(s) == Some(if s[0] == '-' then -(v as int) else v)
  {
  }

  /** `int('-' + str(n)) == -n`. */
  lemma ParseIntOfNegated(n: nat)
    ensures ParseInt("-" + DecimalString(n)) == Some(-(n as int))
  {
    var d := DecimalString(n);
    DigitsValueOfDecimalString(n);
    SignedShape('-', d);
    assert "-" + d == ['-'] + d;
    ParseIntSigned("-" + d, d, n);
  }

  /** `int('+ ' + str(n)) == n` and `int('- ' + str(n)) == -n`: whitespace may follow the sign. */
  lemma ParseIntSpaceAfterSign(n: nat)
    ensures ParseInt("+ " + DecimalString(n)) == Some(n)
    ensures ParseInt("- " + DecimalString(n)) == Some(-(n as int))
  {
    var d := DecimalString(n);
    DigitsValueOfDecimalString(n);
    SpacedSignedShape('+', d);
    SpacedSignedShape('-', d);
    assert "+ " + d == ['+', ' '] + d;
    assert "- " + d == ['-', ' '] + d;
    ParseIntSigned("+ " + d, d, n);
    ParseIntSigned("- " + d, d, n);
  }

  /** Text with no digit at all is never an int literal. */
  lemma ParseIntNeedsDigit(s: string)
    requires forall i :: 0 <= i < |s| ==> !IsDigit(s[i])
    ensures ParseInt(s) == None
  {
  }
}
