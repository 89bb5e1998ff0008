/**
 * Decimal text as the firmware reads and writes it: `atoi` (section 7.22.1.2
 * of ISO C11, which defers to `strtol` with base 10, section 7.22.1.4) and the
 * `%d` conversion of `sprintf`/`snprintf` (section 7.21.6.1).
 */
module Decimal {
  predicate IsDigit(c: char) { '0' <= c <= '9' }

  /** White space in the "C" locale: space, and '\t' '\n' '\v' '\f' '\r' (codes 9 to 13). */
  predicate IsSpace(c: char) { c == ' ' || '\t' <= c <= '\r' }

  predicate AllDigits(s: string) { forall k :: 0 <= k < |s| ==> IsDigit(s[k]) }

  function DigitValue(c: char): (d: nat)
    requires IsDigit(c)
    ensures d < 10
  {
    c as int - '0' as int
  }

  function DigitChar(d: int): (c: char)
    requires 0 <= d < 10
    ensures IsDigit(c) && DigitValue(c) == d
  {
    ('0' as int + d) as char
  }

  /** What is left of `s` once its leading white space is skipped. */
  function SkipSpace(s: string): string
  {
    if |s| > 0 && IsSpace(s[0]) then SkipSpace(s[1..]) else s
  }

  /** The longest prefix of `s` made of decimal digits. */
  function LeadingDigits(s: string): (d: string)
    ensures AllDigits(d)
  {
    if |s| > 0 && IsDigit(s[0]) then [s[0]] + LeadingDigits(s[1..]) else []
  }

  /** The number a string of digits denotes, most significant digit first. */
  function DigitsValue(d: string): nat
    requires AllDigits(d)
  {
    if d == [] then 0 else DigitsValue(d[..|d| - 1]) * 10 + DigitValue(d[|d| - 1])
  }

  /** `t` without its leading '-' or '+', if it has one. */
  function AfterSign(t: string): string
  {
    if |t| > 0 && (t[0] == '-' || t[0] == '+') then t[1..] else t
  }

  /**
   * `atoi`: skip white space, take an optional sign, then the longest run of
   * digits; no digits gives 0. The value is unbounded here (C leaves an
   * out-of-range result undefined).
   */
  function Atoi(s: string): (n: int)
    ensures LeadingDigits(AfterSign(SkipSpace(s))) == [] ==> n == 0
    ensures n < 0 ==> |SkipSpace(s)| > 0 && SkipSpace(s)[0] == '-'
  {
    var t := SkipSpace(s);
    var magnitude: int := DigitsValue(LeadingDigits(AfterSign(t)));
    if |t| > 0 && t[0] == '-' then -magnitude else magnitude
  }

  /** Skipping white space twice is skipping it once. */
  lemma {:induction false} SkipSpaceIdempotent(s: string)
    ensures SkipSpace(SkipSpace(s)) == SkipSpace(s)
    ensures |SkipSpace(s)| > 0 ==> !IsSpace(SkipSpace(s)[0])
  {
    if |s| > 0 && IsSpace(s[0]) {
      SkipSpaceIdempotent(s[1..]);
    }
  }

  /** Leading white space does not change what `atoi` reads. */
  lemma AtoiSkipsSpace(s: string)
    ensures Atoi(SkipSpace(s)) == Atoi(s)
  {
    SkipSpaceIdempotent(s);
  }

  /** A leading '+' reads the same as no sign at all. */
  lemma AtoiPlusSign(s: string)
    requires |s| > 0 && !IsSpace(s[0]) && s[0] != '-' && s[0] != '+'
    ensures Atoi(['+'] + s) == Atoi(s)
  {
    var t := ['+'] + s;
    assert t[1..] == s;
    assert SkipSpace(t) == t;
    assert SkipSpace(s) == s;
  }

  /** The digits of `n` with no leading zero (a lone "0" for zero). */
  function NatDigits(n: nat): (d: string)
    ensures |d| > 0 && AllDigits(d) && DigitsValue(d) == n
    ensures |d| > 1 ==> d[0] != '0'
  {
    if n < 10 then [DigitChar(n)]
    else
      var prefix := NatDigits(n / 10);
      assert (prefix + [DigitChar(n % 10)])[..|prefix|] == prefix;
      prefix + [DigitChar(n % 10)]
  }

  /** The `%d` rendering of `n`: a minus sign when negative, then the digits of |n|. */
  function FormatInt(n: int): (s: string)
    ensures |s| > 0 && (IsDigit(s[0]) || s[0] == '-')
  {
    if n < 0 then "-" + NatDigits(-n) else NatDigits(n)
  }

  lemma {:induction false} LeadingDigitsOfDigits(d: string, rest: string)
    requires AllDigits(d)
    requires rest == [] || !IsDigit(rest[0])
    ensures LeadingDigits(d + rest) == d
  {
    if d != [] {
      assert (d + rest)[1..] == d[1..] + rest;
      LeadingDigitsOfDigits(d[1..], rest);
    }
  }

  /** `atoi` of a digit string followed by a non-digit is the digits' value. */
  lemma AtoiOfDigits(d: string, rest: string)
    requires |d| > 0 && AllDigits(d)
    requires rest == [] || !IsDigit(rest[0])
    ensures Atoi(d + rest) == DigitsValue(d)
  {
    var s := d + rest;
    assert s[0] == d[0];
    assert SkipSpace(s) == s;
    LeadingDigitsOfDigits(d, rest);
  }

  /** `atoi` of a minus sign, digits, then a non-digit is the digits' value negated. */
  lemma AtoiOfNegatedDigits(d: string, rest: string)
    requires |d| > 0 && AllDigits(d)
    requires rest == [] || !IsDigit(rest[0])
    ensures Atoi(['-'] + (d + rest)) == -(DigitsValue(d) as int)
  {
    var t := d + rest;
    var s := ['-'] + t;
    assert s[1..] == t;
    assert SkipSpace(s) == s;
    LeadingDigitsOfDigits(d, rest);
  }

  /**
   * `atoi` reads back what `%d` wrote, whatever follows the number as long as
   * it does not start with a digit (a line end, say).
   */
  lemma AtoiFormatInt(n: int, rest: string)
    requires rest == [] || !IsDigit(rest[0])
    ensures Atoi(FormatInt(n) + rest) == n
  {
    if n < 0 {
      var d := NatDigits(-n);
      assert FormatInt(n) == ['-'] + d;
      assert (['-'] + d) + rest == ['-'] + (d + rest);
      AtoiOfNegatedDigits(d, rest);
    } else {
      AtoiOfDigits(NatDigits(n), rest);
    }
  }

  /** Different numbers have different `%d` renderings. */
  lemma FormatIntInjective(m: int, n: int)
    requires FormatInt(m) == FormatInt(n)
    ensures m == n
  {
    AtoiFormatInt(m, []);
    AtoiFormatInt(n, []);
    assert FormatInt(m) + [] == FormatInt(m);
    assert FormatInt(n) + [] == FormatInt(n);
  }
}
