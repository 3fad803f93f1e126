/**
 * Decimal text of integers: how Python f-strings and JavaScript print an
 * integer, and how JavaScript's parseInt reads the text of a number input
 * back (an optional sign, then the longest run of decimal digits).
 */
module Numerals {
  import opened Wrappers

  predicate IsDigit(c: char) {
    '0' <= c <= '9'
  }

  predicate AllDigits(s: string) {
    forall i :: 0 <= i < |s| ==> IsDigit(s[i])
  }

  function DigitChar(d: nat): (c: char)
    requires d < 10
    ensures IsDigit(c) && c as int - '0' as int == d
  {
    ('0' as int + d) as char
  }

  function DigitValue(c: char): (d: nat)
    requires IsDigit(c)
    ensures d < 10 && DigitChar(d) == c
  {
    c as int - '0' as int
  }

  /** The decimal digits of a natural number, most significant first, without leading zeros. */
  function NatToString(n: nat): (s: string)
    ensures |s| > 0 && AllDigits(s)
    ensures n > 0 ==> s[0] != '0'
  {
    if n < 10 then [DigitChar(n)] else NatToString(n / 10) + [DigitChar(n % 10)]
  }

  /** `str(i)` in Python and `String(i)` in JavaScript, for an integer `i`. */
  function IntToString(i: int): (s: string)
    ensures |s| > 0
    ensures (s[0] == '-') <==> i < 0
  {
    if i < 0 then "-" + NatToString(-i) else NatToString(i)
  }

  /** The value of a string of decimal digits (most significant first). */
  function DigitsValue(s: string): nat
    requires AllDigits(s)
  {
    if s == [] then 0 else DigitsValue(s[..|s| - 1]) * 10 + DigitValue(s[|s| - 1])
  }

  /** The number of decimal digits at the start of `s`. */
  function LeadingDigits(s: string): (k: nat)
    ensures k <= |s| && AllDigits(s[..k])
    ensures k < |s| ==> !IsDigit(s[k])
  {
    if s == [] || !IsDigit(s[0]) then 0
    else
      var k := 1 + LeadingDigits(s[1..]);
      assert s[..k] == [s[0]] + s[1..][..k - 1];
      k
  }

  /**
   * JavaScript's `parseInt(s)` on the text of an `<input type="number">`
   * (which carries no blanks and no radix prefix): an optional sign, then the
   * digits up to the first non-digit; no digit at all gives NaN, here `None`.
   */
  function ParseInt(s: string): (r: Option<int>)
    ensures s == "" ==> r == None
    ensures r.Some? ==> exists i :: 0 <= i < |s| && IsDigit(s[i])
    ensures |s| > 0 && IsDigit(s[0]) ==> r.Some? && r.value >= 0
    ensures |s| > 0 && !IsDigit(s[0]) && s[0] != '-' && s[0] != '+' ==> r == None
  {
    if |s| > 0 && (s[0] == '-' || s[0] == '+') then
      var r := ParseUnsigned(s[1..]);
      if r.None? then None
      else
        assert IsDigit(s[1]);
        Some(if s[0] == '-' then -r.value else r.value)
    else ParseUnsigned(s)
  }

  /** The value of the digits at the start of `body`; `None` when it does not start with one. */
  function ParseUnsigned(body: string): (r: Option<int>)
    ensures r.Some? <==> |body| > 0 && IsDigit(body[0])
    ensures r.Some? ==> r.value >= 0
  {
    var k := LeadingDigits(body);
    if k == 0 then None else Some(DigitsValue(body[..k]))
  }


  /** The leading digits of `d + rest` are exactly `d` when `rest` does not start with a digit. */
  lemma {:induction false} LeadingDigitsThen(d: string, rest: string)
    requires AllDigits(d)
    requires rest == [] || !IsDigit(rest[0])
    ensures LeadingDigits(d + rest) == |d|
  {
    if d == [] {
      assert d + rest == rest;
    } else {
      assert (d + rest)[1..] == d[1..] + rest;
      LeadingDigitsThen(d[1..], rest);
    }
  }

  lemma {:induction false} DigitsValueOfNatToString(n: nat)
    ensures DigitsValue(NatToString(n)) == n
  {
    if n >= 10 {
      var s := NatToString(n);
      assert s[..|s| - 1] == NatToString(n / 10);
      DigitsValueOfNatToString(n / 10);
    }
  }

  /**
   * A message that embeds an integer's text after a fixed prefix, followed by
   * text that does not start with a digit, gives the integer back when read
   * from just after the prefix.
   */
  lemma ParseIntAfterPrefix(prefix: string, i: int, rest: string)
    requires rest == [] || !IsDigit(rest[0])
    ensures ParseInt((prefix + IntToString(i) + rest)[|prefix|..]) == Some(i)
  {
    assert (prefix + IntToString(i) + rest)[|prefix|..] == IntToString(i) + rest;
    ParseIntOfIntToStringThen(i, rest);
  }

  /**
   * The decimal text of an integer followed by anything that does not start
   * with a digit (a fraction ".5", an exponent "e3") reads as that integer.
   */
  lemma ParseIntOfIntToStringThen(i: int, rest: string)
    requires rest == [] || !IsDigit(rest[0])
    ensures ParseInt(IntToString(i) + rest) == Some(i)
  {
    if i < 0 {
      var d := NatToString(-i);
      var body := d + rest;
      assert ParseUnsigned(body) == Some(-i) by {
        DigitsValueOfNatToString(-i);
        UnsignedDigitsThen(d, rest);
      }
      assert IntToString(i) + rest == ['-'] + body;
      ParseMinus(body);
    } else {
      DigitsValueOfNatToString(i);
      ParseDigitsThen(NatToString(i), rest);
    }
  }

  /** Digits followed by a non-digit read as the digits' value. */
  lemma ParseDigitsThen(d: string, rest: string)
    requires |d| > 0 && AllDigits(d)
    requires rest == [] || !IsDigit(rest[0])
    ensures ParseInt(d + rest) == Some(DigitsValue(d))
  {
    UnsignedDigitsThen(d, rest);
    assert (d + rest)[0] == d[0];
  }

  /** The unsigned reading of digits followed by a non-digit is the digits' value. */
  lemma UnsignedDigitsThen(d: string, rest: string)
    requires |d| > 0 && AllDigits(d)
    requires rest == [] || !IsDigit(rest[0])
    ensures ParseUnsigned(d + rest) == Some(DigitsValue(d))
  {
    LeadingDigitsThen(d, rest);
    assert (d + rest)[..|d|] == d;
  }

  /** A leading minus negates what the rest reads as. */
  lemma ParseMinus(body: string)
    requires ParseUnsigned(body).Some?
    ensures ParseInt(['-'] + body) == Some(-ParseUnsigned(body).value)
  {
    assert (['-'] + body)[1..] == body;
  }

  /** Reading back the decimal text of an integer gives the integer. */
  lemma ParseIntOfIntToString(i: int)
    ensures ParseInt(IntToString(i)) == Some(i)
  {
    ParseIntOfIntToStringThen(i, []);
    assert IntToString(i) + [] == IntToString(i);
  }

  /** The number inputs' fractional and exponent texts: "2.5" reads as 2, "1e3" as 1. */
  lemma ParseIntStopsAtNonDigit()
    ensures ParseInt("2.5") == Some(2)
    ensures ParseInt("1e3") == Some(1)
    ensures ParseInt(".5") == None
  {
    ParseIntOfIntToStringThen(2, ".5");
    assert IntToString(2) + ".5" == "2.5";
    ParseIntOfIntToStringThen(1, "e3");
    assert IntToString(1) + "e3" == "1e3";
  }
}
