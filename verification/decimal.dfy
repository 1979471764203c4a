/**
 Decimal rendering of integers, as `Number.prototype.toString` produces it
 for integral values, with the parser that reads it back.
 */
module Decimal {

  predicate IsDigit(c: char) {
    '0' <= c <= '9'
  }

  function DigitChar(d: nat): (c: char)
    requires d < 10
    ensures IsDigit(c)
  {
    ('0' as int + d) as char
  }

  function DigitValue(c: char): nat
    requires IsDigit(c)
  {
    c as int - '0' as int
  }

  predicate AllDigits(s: string) {
    forall k :: 0 <= k < |s| ==> IsDigit(s[k])
  }

  /** An optional minus sign followed by at least one digit. */
  predicate IsIntegerText(s: string) {
    if |s| > 0 && s[0] == '-' then |s| > 1 && AllDigits(s[1..]) else |s| > 0 && AllDigits(s)
  }

  /** The digits of integer text, without the sign. */
  function Magnitude(s: string): string
    requires IsIntegerText(s)
  {
    if s[0] == '-' then s[1..] else s
  }

  /** Integer text in the shortest form `toString` gives: no leading zero,
      and no minus sign in front of zero. */
  predicate IsCanonicalInteger(s: string) {
    && IsIntegerText(s)
    && (|Magnitude(s)| > 1 ==> Magnitude(s)[0] != '0')
    && (s[0] == '-' ==> Magnitude(s) != "0")
  }

  /** Shortest decimal digits of `n`, most significant first. */
  function NatToString(n: nat): (s: string)
    ensures |s| >= 1 && AllDigits(s)
    ensures |s| > 1 ==> s[0] != '0'
  {
    if n < 10 then [DigitChar(n)]
    else NatToString(n / 10) + [DigitChar(n % 10)]
  }

  /** Value of a string of decimal digits. */
  function ParseDigits(s: string): nat
    requires AllDigits(s)
  {
    if |s| == 0 then 0
    else ParseDigits(s[..|s| - 1]) * 10 + DigitValue(s[|s| - 1])
  }

  /** Reading back the digits of `n` gives `n`. */
  lemma {:induction false} NatRoundTrip(n: nat)
    ensures ParseDigits(NatToString(n)) == n
  {
    var s := NatToString(n);
    if n >= 10 {
      NatRoundTrip(n / 10);
      assert s[..|s| - 1] == NatToString(n / 10);
    }
  }

  /** `n.toString()` for an integral `n`: a minus sign, then the digits. */
  function IntToString(n: int): (s: string)
    ensures IsCanonicalInteger(s)
    ensures s[0] == '-' <==> n < 0
  {
    var digits := NatToString(if n < 0 then -n else n);
    if n < 0 then
      NatRoundTrip(-n);
      assert ParseDigits("0") == 0;
      assert ("-" + digits)[1..] == digits;
      "-" + digits
    else digits
  }

  /** Inverse of `IntToString`: an optional minus sign, then digits. */
  function ParseInt(s: string): int
    requires IsIntegerText(s)
  {
    if s[0] == '-' then 0 - ParseDigits(s[1..]) else ParseDigits(s)
  }

  /** Rendering then parsing gives back the integer. */
  lemma IntRoundTrip(n: int)
    ensures ParseInt(IntToString(n)) == n
  {
    if n < 0 {
      NatRoundTrip(-n);
      assert IntToString(n)[1..] == NatToString(-n);
    } else {
      NatRoundTrip(n);
    }
  }

  /** Distinct integers render to distinct strings. */
  lemma IntToStringInjective(a: int, b: int)
    requires IntToString(a) == IntToString(b)
    ensures a == b
  {
    IntRoundTrip(a);
    IntRoundTrip(b);
  }

  /** The leading digit bounds the value from below. */
  lemma {:induction false} LeadingDigitBound(s: string)
    requires |s| >= 1 && AllDigits(s)
    ensures ParseDigits(s) >= DigitValue(s[0])
  {
    if |s| > 1 {
      LeadingDigitBound(s[..|s| - 1]);
    }
  }

  /** Digits without a leading zero are the shortest digits of their value. */
  lemma {:induction false} CanonicalDigits(s: string)
    requires |s| >= 1 && AllDigits(s)
    requires |s| > 1 ==> s[0] != '0'
    ensures NatToString(ParseDigits(s)) == s
  {
    var n := ParseDigits(s);
    var c := s[|s| - 1];
    assert DigitChar(DigitValue(c)) == c;
    if |s| > 1 {
      var front := s[..|s| - 1];
      CanonicalDigits(front);
      LeadingDigitBound(front);
      assert n / 10 == ParseDigits(front) && n % 10 == DigitValue(c);
      assert s == front + [c];
    }
  }

  /** Canonical integer text is the rendering of its value, so the
      rendering is the only canonical text for a given integer. */
  lemma CanonicalIsRendering(s: string)
    requires IsCanonicalInteger(s)
    ensures IntToString(ParseInt(s)) == s
  {
    var d := Magnitude(s);
    CanonicalDigits(d);
    if s[0] == '-' {
      assert ParseDigits(d) != 0;
      assert s == "-" + d;
    }
  }
}
