/**
 * Decimal rendering of the numbers in an output row: sizes as plain integers
 * and prices, held as integer ticks of one hundredth, with exactly two
 * fractional digits (the effect of `fixed << setprecision(2)` on a price
 * that is a whole number of hundredths).
 */
module Numerals {

  predicate IsDigit(c: char) {
    '0' <= c <= '9'
  }

  predicate AllDigits(s: string) {
    forall i :: 0 <= i < |s| ==> IsDigit(s[i])
  }

  function DigitValue(c: char): nat
    requires IsDigit(c)
  {
    (c as int) - ('0' as int)
  }

  function DigitChar(n: nat): (c: char)
    requires n < 10
    ensures IsDigit(c) && DigitValue(c) == n
  {
    (n + '0' as int) as char
  }

  /** Value of a string of decimal digits, most significant first. */
  function DigitsValue(s: string): nat
    requires AllDigits(s)
    decreases |s|
  {
    if |s| == 0 then 0 else DigitsValue(s[..|s| - 1]) * 10 + DigitValue(s[|s| - 1])
  }

  /** Shortest decimal text of `n`: digits only, no leading zero. */
  function NatText(n: nat): (s: string)
    ensures |s| >= 1 && AllDigits(s)
    ensures s[0] == '0' <==> n == 0
    decreases n
  {
    if n < 10 then [DigitChar(n)] else NatText(n / 10) + [DigitChar(n % 10)]
  }

  lemma {:induction false} NatTextValue(n: nat)
    ensures DigitsValue(NatText(n)) == n
    decreases n
  {
    if n >= 10 {
      NatTextValue(n / 10);
      var s := NatText(n);
      assert s[..|s| - 1] == NatText(n / 10);
    }
  }

  /** An integer as `operator<<` writes it: a minus sign, then the digits. */
  function IntText(n: int): (s: string)
    ensures |s| >= 1
  {
    if n < 0 then "-" + NatText(-n) else NatText(n)
  }

  /** A written integer holds only digits and the minus sign. */
  lemma IntTextChars(n: int)
    ensures forall i :: 0 <= i < |IntText(n)| ==> IsDigit(IntText(n)[i]) || IntText(n)[i] == '-'
  {
  }

  /** Optional minus sign followed by at least one digit. */
  predicate IsIntText(s: string) {
    if |s| > 0 && s[0] == '-' then |s| > 1 && AllDigits(s[1..]) else |s| > 0 && AllDigits(s)
  }

  function IntValue(s: string): int
    requires IsIntText(s)
  {
    if s[0] == '-' then 0 - DigitsValue(s[1..]) else DigitsValue(s)
  }

  /** Reading a rendered integer back gives the integer. */
  lemma IntTextValue(n: int)
    ensures IsIntText(IntText(n))
    ensures IntValue(IntText(n)) == n
  {
    var s := IntText(n);
    if n < 0 {
      assert s[1..] == NatText(-n);
      NatTextValue(-n);
    } else {
      NatTextValue(n);
    }
  }

  /** Two-decimal text of a non-negative number of hundredths. */
  function HundredthsText(m: nat): string {
    NatText(m / 100) + "." + [DigitChar(m / 10 % 10), DigitChar(m % 10)]
  }

  /**
   * A price of `ticks` hundredths with exactly two fractional digits:
   * 10050 is "100.50", 5 is "0.05" and -5 is "-0.05".
   */
  function PriceText(ticks: int): (s: string)
    ensures |s| >= 4
  {
    if ticks < 0 then "-" + HundredthsText(-ticks) else HundredthsText(ticks)
  }

  /** A written price holds only digits, the minus sign and the point. */
  lemma PriceTextChars(ticks: int)
    ensures var s := PriceText(ticks);
      forall i :: 0 <= i < |s| ==> IsDigit(s[i]) || s[i] == '-' || s[i] == '.'
  {
  }

  /** Whole digits, a point, and exactly two digits. */
  predicate IsHundredthsText(b: string) {
    && |b| >= 4
    && b[|b| - 3] == '.'
    && AllDigits(b[..|b| - 3])
    && AllDigits(b[|b| - 2..])
  }

  function HundredthsValue(b: string): nat
    requires IsHundredthsText(b)
  {
    DigitsValue(b[..|b| - 3]) * 100 + DigitsValue(b[|b| - 2..])
  }

  /** Optional minus sign, then a two-decimal number. */
  predicate IsPriceText(s: string) {
    if |s| > 0 && s[0] == '-' then IsHundredthsText(s[1..]) else IsHundredthsText(s)
  }

  /** Ticks denoted by a two-decimal price text. */
  function PriceValue(s: string): int
    requires IsPriceText(s)
  {
    if |s| > 0 && s[0] == '-' then 0 - HundredthsValue(s[1..]) else HundredthsValue(s)
  }

  /** Reading a rendered price back gives the same number of ticks. */
  lemma PriceTextValue(ticks: int)
    ensures IsPriceText(PriceText(ticks))
    ensures PriceValue(PriceText(ticks)) == ticks
  {
    var s := PriceText(ticks);
    if ticks < 0 {
      HundredthsTextValue(-ticks);
      assert s[1..] == HundredthsText(-ticks);
    } else {
      HundredthsTextValue(ticks);
      assert s[0] == NatText(ticks / 100)[0];
    }
  }

  lemma HundredthsTextValue(m: nat)
    ensures IsHundredthsText(HundredthsText(m))
    ensures HundredthsValue(HundredthsText(m)) == m
  {
    var whole := NatText(m / 100);
    var frac := [DigitChar(m / 10 % 10), DigitChar(m % 10)];
    var b := HundredthsText(m);
    assert b == whole + "." + frac;
    assert b[..|b| - 3] == whole;
    assert b[|b| - 2..] == frac;
    NatTextValue(m / 100);
    TwoDigitsValue(m / 10 % 10, m % 10);
    HundredthsDigits(m);
  }

  lemma TwoDigitsValue(a: nat, b: nat)
    requires a < 10 && b < 10
    ensures DigitsValue([DigitChar(a), DigitChar(b)]) == a * 10 + b
  {
    var s := [DigitChar(a), DigitChar(b)];
    var s1 := s[..1];
    assert s1 == [DigitChar(a)];
    assert s1[..0] == [];
    assert DigitsValue(s1) == DigitsValue(s1[..0]) * 10 + DigitValue(s1[0]) == a;
    assert DigitsValue(s) == DigitsValue(s1) * 10 + DigitValue(s[1]);
  }

  /** Splitting a non-negative number into hundreds, tens and units. */
  lemma HundredthsDigits(m: nat)
    ensures m == (m / 100) * 100 + (m / 10 % 10) * 10 + m % 10
  {
    var q := m / 10;
    var h := q / 10;
    var low := q % 10 * 10 + m % 10;
    assert m == q * 10 + m % 10;
    assert q == h * 10 + q % 10;
    assert m == h * 100 + low && 0 <= low < 100;
    assert m / 100 == h;
  }
}
