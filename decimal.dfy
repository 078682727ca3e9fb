/** `Integer.toString` on the `int` that `getInt("year")` returns, and its inverse. */
module Decimal {

  /** The range of a Java `int`. */
  type Int32 = x: int | -0x8000_0000 <= x < 0x8000_0000

  predicate IsDigit(c: char) {
    '0' <= c <= '9'
  }

  predicate AllDigits(s: string) {
    forall i :: 0 <= i < |s| ==> IsDigit(s[i])
  }

  function DigitChar(d: nat): (c: char)
    requires d < 10
    ensures IsDigit(c) && DigitValue(c) == d
  {
    (('0' as int) + d) as char
  }

  function DigitValue(c: char): nat
    requires IsDigit(c)
  {
    (c as int) - ('0' as int)
  }

  /** The decimal digits of `n`, most significant first, with no leading zero. */
  function NatToDecimal(n: nat): (s: string)
    ensures 1 <= |s| && AllDigits(s)
    ensures s[0] == '0' ==> n == 0
    decreases n
  {
    if n < 10 then [DigitChar(n)] else NatToDecimal(n / 10) + [DigitChar(n % 10)]
  }

  /** `Integer.toString(x)`: a minus sign for a negative value, then the digits of its magnitude. */
  function IntToDecimal(x: int): (s: string)
    ensures 1 <= |s|
    ensures (s[0] == '-') <==> x < 0
  {
    if x < 0 then "-" + NatToDecimal(-x) else NatToDecimal(x)
  }

  /** The value of a string of decimal digits. */
  function DigitsValue(s: string): nat
    requires AllDigits(s)
    decreases |s|
  {
    if s == [] then 0 else 10 * DigitsValue(s[..|s| - 1]) + DigitValue(s[|s| - 1])
  }

  /** A decimal numeral: an optional minus sign, then at least one decimal digit. */
  predicate IsDecimal(s: string) {
    1 <= |s| && if s[0] == '-' then 2 <= |s| && AllDigits(s[1..]) else AllDigits(s)
  }

  function DecimalValue(s: string): int
    requires IsDecimal(s)
  {
    if s[0] == '-' then -(DigitsValue(s[1..]) as int) else DigitsValue(s)
  }

  lemma {:induction false} NatToDecimalRoundTrip(n: nat)
    ensures DigitsValue(NatToDecimal(n)) == n
    decreases n
  {
    if n >= 10 {
      var s := NatToDecimal(n / 10);
      var t := s + [DigitChar(n % 10)];
      assert t[..|t| - 1] == s;
      NatToDecimalRoundTrip(n / 10);
    }
  }

  /** Reading back what `Integer.toString` wrote gives the original number. */
  lemma DecimalRoundTrip(x: int)
    ensures IsDecimal(IntToDecimal(x))
    ensures DecimalValue(IntToDecimal(x)) == x
  {
    if x < 0 {
      var s := IntToDecimal(x);
      assert s[1..] == NatToDecimal(-x);
      NatToDecimalRoundTrip(-x);
    } else {
      NatToDecimalRoundTrip(x);
    }
  }
}
