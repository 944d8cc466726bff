/** Decimal numerals. */
module Decimals {

  const DIGITS := "0123456789"

  predicate IsDigit(c: char) {
    '0' <= c <= '9'
  }

  function DigitVal(c: char): nat
    requires IsDigit(c)
  {
    c as int - '0' as int
  }

  predicate AllDigits(s: string) {
    forall i :: 0 <= i < |s| ==> IsDigit(s[i])
  }

  function NatToString(n: nat): string {
    if n < 10 then [DIGITS[n]] else NatToString(n / 10) + [DIGITS[n % 10]]
  }

  function IntToString(i: int): string {
    if i < 0 then "-" + NatToString(-i) else NatToString(i)
  }

  function DigitsVal(s: string): nat
    requires AllDigits(s)
  {
    if s == [] then 0 else 10 * DigitsVal(s[..|s| - 1]) + DigitVal(s[|s| - 1])
  }

  lemma DigitOf(d: nat)
    requires d < 10
    ensures IsDigit(DIGITS[d]) && DigitVal(DIGITS[d]) == d
  {
  }

  /** Printing a natural and reading its digits gives it back. */
  lemma {:induction false} NumeralRoundTrip(n: nat)
    ensures AllDigits(NatToString(n)) && NatToString(n) != [] && DigitsVal(NatToString(n)) == n
  {
    DigitOf(n % 10);
    if n >= 10 {
      NumeralRoundTrip(n / 10);
      assert NatToString(n)[..|NatToString(n)| - 1] == NatToString(n / 10);
    }
  }
}
