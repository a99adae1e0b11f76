/** Decimal digit strings: the part of PHP's numeric-string handling that the
    model keeps (is_numeric, (int) casts, canonical integer array keys). */
module Decimal {

  predicate IsDigit(c: char) {
    '0' <= c <= '9'
  }

  predicate AllDigits(s: string) {
    forall i :: 0 <= i < |s| ==> IsDigit(s[i])
  }

  /** A non-empty digit string without a redundant leading zero: the form PHP
      treats as an integer array key and the form `Show` produces. */
  predicate IsCanonical(s: string) {
    |s| >= 1 && AllDigits(s) && (s[0] != '0' || |s| == 1)
  }

  function DigitValue(c: char): (d: nat)
    requires IsDigit(c)
    ensures d < 10
  {
    (c as int) - ('0' as int)
  }

  function DigitChar(d: nat): (c: char)
    requires d < 10
    ensures IsDigit(c) && DigitValue(c) == d
  {
    ((('0' as int) + d) as char)
  }

  /** The value of a digit string read most significant digit first. */
  function DigitsValue(s: string): nat
    requires AllDigits(s)
    decreases |s|
  {
    if s == [] then 0 else DigitsValue(s[..|s| - 1]) * 10 + DigitValue(s[|s| - 1])
  }

  /** The decimal spelling of a natural number. */
  function Show(n: nat): (s: string)
    ensures IsCanonical(s)
    decreases n
  {
    if n < 10 then [DigitChar(n)] else Show(n / 10) + [DigitChar(n % 10)]
  }

  /** Reading back what `Show` writes gives the number again. */
  lemma {:induction false} ValueOfShow(n: nat)
    ensures DigitsValue(Show(n)) == n
  {
    if n >= 10 {
      var s := Show(n);
      assert s[..|s| - 1] == Show(n / 10);
      ValueOfShow(n / 10);
    }
  }

  /** `10` to the power `k`. */
  function Pow10(k: nat): (p: nat)
    ensures p >= 1
  {
    if k == 0 then 1 else 10 * Pow10(k - 1)
  }

  /** A digit string that does not start with `0` is worth at least
      `10^(|s| - 1)`: its length bounds its value from below. */
  lemma {:induction false} DigitsValueLowerBound(s: string)
    requires |s| >= 1 && AllDigits(s) && s[0] != '0'
    ensures DigitsValue(s) >= Pow10(|s| - 1)
    decreases |s|
  {
    if |s| > 1 {
      var t := s[..|s| - 1];
      assert t[0] == s[0];
      DigitsValueLowerBound(t);
    }
  }

  /** `10^19`, the least power of ten above the 64-bit range. */
  lemma Pow10Nineteen()
    ensures Pow10(19) == 10000000000000000000
  {
    assert Pow10(0) == 1 && Pow10(1) == 10 && Pow10(2) == 100 && Pow10(3) == 1000 && Pow10(4) == 10000 && Pow10(5) == 100000 && Pow10(6) == 1000000 && Pow10(7) == 10000000 && Pow10(8) == 100000000 && Pow10(9) == 1000000000 && Pow10(10) == 10000000000 && Pow10(11) == 100000000000 && Pow10(12) == 1000000000000 && Pow10(13) == 10000000000000 && Pow10(14) == 100000000000000 && Pow10(15) == 1000000000000000 && Pow10(16) == 10000000000000000 && Pow10(17) == 100000000000000000 && Pow10(18) == 1000000000000000000 && Pow10(19) == 10000000000000000000;
  }
}
