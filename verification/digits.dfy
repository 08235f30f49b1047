/**
 * Decimal digits and the fixed-width and free-width decimal renderings that
 * the pipeline uses: `str(n)` for a non-negative integer, and the zero-padded
 * `%Y` / `%m` / `%d` fields of a date.
 */
module Digits {

  predicate IsDigit(c: char) {
    '0' <= c <= '9'
  }

  predicate AllDigits(s: string) {
    forall i :: 0 <= i < |s| ==> IsDigit(s[i])
  }

  function DigitValue(c: char): (k: int)
    requires IsDigit(c)
    ensures 0 <= k <= 9
  {
    c as int - '0' as int
  }

  function DigitChar(k: int): (c: char)
    requires 0 <= k <= 9
    ensures IsDigit(c) && DigitValue(c) == k
  {
    (k + '0' as int) as char
  }

  /** Digit characters are ordered like the digits they stand for. */
  lemma DigitCharOrder(j: int, k: int)
    requires 0 <= j <= 9 && 0 <= k <= 9
    ensures DigitChar(j) < DigitChar(k) <==> j < k
    ensures DigitChar(j) == DigitChar(k) <==> j == k
  {
  }

  /** Two-digit zero-padded rendering (`%m`, `%d`). */
  function Digits2(n: int): (s: string)
    requires 0 <= n <= 99
    ensures |s| == 2 && AllDigits(s)
  {
    [DigitChar(n / 10), DigitChar(n % 10)]
  }

  /** Four-digit zero-padded rendering (`%Y`). */
  function Digits4(n: int): (s: string)
    requires 0 <= n <= 9999
    ensures |s| == 4 && AllDigits(s)
  {
    Digits2(n / 100) + Digits2(n % 100)
  }

  function Value2(s: string): (n: int)
    requires |s| == 2 && AllDigits(s)
    ensures 0 <= n <= 99
  {
    10 * DigitValue(s[0]) + DigitValue(s[1])
  }

  function Value4(s: string): (n: int)
    requires |s| == 4 && AllDigits(s)
    ensures 0 <= n <= 9999
  {
    100 * Value2(s[..2]) + Value2(s[2..])
  }

  lemma Value2OfDigits2(n: int)
    requires 0 <= n <= 99
    ensures Value2(Digits2(n)) == n
  {
  }

  lemma Digits2OfValue2(s: string)
    requires |s| == 2 && AllDigits(s)
    ensures Digits2(Value2(s)) == s
  {
    var n := Value2(s);
    assert n / 10 == DigitValue(s[0]) && n % 10 == DigitValue(s[1]);
  }

  /** Reading back a four-digit rendering gives the number. */
  lemma Value4OfDigits4(n: int)
    requires 0 <= n <= 9999
    ensures Value4(Digits4(n)) == n
  {
    var s := Digits4(n);
    assert s[..2] == Digits2(n / 100) && s[2..] == Digits2(n % 100);
    Value2OfDigits2(n / 100);
    Value2OfDigits2(n % 100);
  }

  /** Rendering a four-digit numeral read from text gives the text back. */
  lemma Digits4OfValue4(s: string)
    requires |s| == 4 && AllDigits(s)
    ensures Digits4(Value4(s)) == s
  {
    var hi, lo := s[..2], s[2..];
    Digits2OfValue2(hi);
    Digits2OfValue2(lo);
    var n := Value4(s);
    assert n / 100 == Value2(hi) && n % 100 == Value2(lo);
    assert s == hi + lo;
  }

  /** Python's `str(n)` for a non-negative integer: no padding, no sign. */
  function DecimalString(n: nat): (s: string)
    ensures 1 <= |s| && AllDigits(s)
  {
    if n < 10 then [DigitChar(n)] else DecimalString(n / 10) + [DigitChar(n % 10)]
  }

  /** For a four-digit number `str(n)` and `%Y` coincide. */
  lemma DecimalStringFourDigits(n: nat)
    requires 1000 <= n <= 9999
    ensures DecimalString(n) == Digits4(n)
  {
    var n1, n2, n3 := n / 10, n / 100, n / 1000;
    assert n2 == n1 / 10 && n3 == n2 / 10;
    assert DecimalString(n3) == [DigitChar(n / 1000)];
    assert DecimalString(n2) == [DigitChar(n / 1000), DigitChar(n2 % 10)];
    assert DecimalString(n1) == [DigitChar(n / 1000), DigitChar(n2 % 10), DigitChar(n1 % 10)];
    assert (n / 100) / 10 == n / 1000 && (n / 100) % 10 == n2 % 10;
    assert (n % 100) / 10 == n1 % 10;
  }
}
