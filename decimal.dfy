/**
 Decimal text of natural numbers: the digits that `std::ostream` writes for a
 non-negative `int` under its default formatting (decimal base, no sign, no
 field width, no digit grouping), and the inverse reading of a run of digits
 back into a number.
 */
module Decimal {

  predicate IsDigit(c: char) {
    '0' <= c <= '9'
  }

  predicate AllDigits(s: string) {
    forall i :: 0 <= i < |s| ==> IsDigit(s[i])
  }

  /** The character for a single decimal digit. */
  function DigitChar(d: nat): (c: char)
    requires d < 10
    ensures IsDigit(c)
  {
    ('0' as int + d) as char
  }

  function DigitValue(c: char): (d: nat)
    requires IsDigit(c)
    ensures d < 10 && DigitChar(d) == c
  {
    c as int - '0' as int
  }

  function Pow10(k: nat): (p: nat)
    ensures p >= 1
  {
    if k == 0 then 1 else 10 * Pow10(k - 1)
  }

  /**
   The shortest decimal text of `n`: at least one digit, no leading zero
   unless `n` is 0 itself, and exactly as many digits as `n` needs
   (`10^(|r|-1) <= n < 10^|r|` for a positive `n`).
   */
  function Digits(n: nat): (r: string)
    ensures 1 <= |r|
    ensures AllDigits(r)
    ensures n < Pow10(|r|)
    ensures n > 0 ==> r[0] != '0' && Pow10(|r| - 1) <= n
    ensures n == 0 ==> r == "0"
  {
    if n < 10 then [DigitChar(n)]
    else
      var r := Digits(n / 10) + [DigitChar(n % 10)];
      assert r[0] == Digits(n / 10)[0];
      r
  }

  /** The number a run of decimal digits denotes, most significant first. */
  function Parse(s: string): (n: nat)
    requires AllDigits(s)
    ensures n < Pow10(|s|)
  {
    if s == [] then 0
    else Parse(s[..|s| - 1]) * 10 + DigitValue(s[|s| - 1])
  }

  /** Reading back the digits of `n` gives `n`. */
  lemma {:induction false} ParseDigits(n: nat)
    ensures Parse(Digits(n)) == n
  {
    if n >= 10 {
      var d := Digits(n);
      assert d[..|d| - 1] == Digits(n / 10);
      ParseDigits(n / 10);
    }
  }

  /** Different numbers have different decimal texts. */
  lemma DigitsInjective(m: nat, n: nat)
    requires Digits(m) == Digits(n)
    ensures m == n
  {
    ParseDigits(m);
    ParseDigits(n);
  }

  /** Numbers from 10 to 99 have exactly two digits, 1 to 9 exactly one. */
  lemma DigitsCount(n: nat)
    ensures 1 <= n <= 9 ==> |Digits(n)| == 1
    ensures 10 <= n <= 99 ==> |Digits(n)| == 2
  {
  }
}
