/** Decimal text for integers: Python's `str(int)` and `int(str)` restricted
    to the ASCII digits, which is all the scraper ever feeds them. */
module Decimal {

  predicate IsDigit(c: char) {
    '0' <= c <= '9'
  }

  predicate AllDigits(s: string) {
    forall i :: 0 <= i < |s| ==> IsDigit(s[i])
  }

  function DigitChar(d: nat): (c: char)
    requires d < 10
    ensures IsDigit(c)
  {
    ('0' as int + d) as char
  }

  function DigitValue(c: char): (d: nat)
    requires IsDigit(c)
    ensures d < 10
  {
    c as int - '0' as int
  }

  /** `str(n)` for a natural number: no leading zeros, at least one digit. */
  function Digits(n: nat): (s: string)
    ensures |s| >= 1 && AllDigits(s)
    ensures n >= 10 ==> s[0] != '0'
  {
    if n < 10 then [DigitChar(n)] else Digits(n / 10) + [DigitChar(n % 10)]
  }

  /** `str(i)` for any integer. */
  function IntToString(i: int): (s: string)
    ensures |s| >= 1
    ensures i >= 0 ==> s == Digits(i)
    ensures i < 0 ==> s == "-" + Digits(-i)
  {
    if i < 0 then "-" + Digits(-i) else Digits(i)
  }

  /** `int(s)` for a string of ASCII digits (leading zeros allowed, as in `int("08")`). */
  function Value(s: string): nat
    requires AllDigits(s)
  {
    if s == [] then 0 else Value(s[..|s| - 1]) * 10 + DigitValue(s[|s| - 1])
  }

  /** Reading back what `Digits` wrote gives the number. */
  lemma {:induction false} ValueOfDigits(n: nat)
    ensures Value(Digits(n)) == n
  {
    if n >= 10 {
      var s := Digits(n);
      assert s[..|s| - 1] == Digits(n / 10);
      ValueOfDigits(n / 10);
    }
  }

  /** A two-digit string reads as tens and units. */
  lemma ValueOfTwo(s: string)
    requires |s| == 2 && AllDigits(s)
    ensures Value(s) == DigitValue(s[0]) * 10 + DigitValue(s[1])
  {
    var t := s[..1];
    assert t[..|t| - 1] == [] && t[|t| - 1] == s[0];
    assert Value(t) == DigitValue(s[0]);
  }

  /** The four characters of `str(n)` for a four-digit number. */
  lemma DigitsOfFour(n: nat)
    requires 1000 <= n <= 9999
    ensures Digits(n) == [DigitChar(n / 1000), DigitChar(n / 100 % 10), DigitChar(n / 10 % 10), DigitChar(n % 10)]
  {
    assert n / 10 / 10 == n / 100;
    assert n / 100 / 10 == n / 1000;
    assert Digits(n / 1000) == [DigitChar(n / 1000)];
    assert Digits(n / 100) == [DigitChar(n / 1000), DigitChar(n / 100 % 10)];
    assert Digits(n / 10) == [DigitChar(n / 1000), DigitChar(n / 100 % 10), DigitChar(n / 10 % 10)];
  }

  /** The three characters of `str(n)` for a three-digit number. */
  lemma DigitsOfThree(n: nat)
    requires 100 <= n <= 999
    ensures Digits(n) == [DigitChar(n / 100), DigitChar(n / 10 % 10), DigitChar(n % 10)]
  {
    assert n / 10 / 10 == n / 100;
    assert Digits(n / 100) == [DigitChar(n / 100)];
  }

  /** The decimal places of a number below 10000, as the code splits them. */
  lemma SplitPlaces(n: nat)
    ensures n / 100 % 10 + n / 1000 * 10 == n / 100
    ensures n / 10 % 10 * 10 + n % 10 == n % 100
  {
    var q, r := n / 10, n % 10;
    var q2, r2 := q / 10, q % 10;
    assert n == 100 * q2 + 10 * r2 + r;
    assert n / 100 == q2;
    assert n % 100 == 10 * r2 + r;
    assert q2 / 10 == n / 1000;
  }

  /** How many characters `str(n)` has, by magnitude. */
  lemma {:induction false} DigitsLength(n: nat)
    ensures |Digits(n)| >= 2 <==> n >= 10
    ensures |Digits(n)| >= 3 <==> n >= 100
    ensures |Digits(n)| >= 4 <==> n >= 1000
    ensures |Digits(n)| >= 5 <==> n >= 10000
  {
    if n >= 10 {
      DigitsLength(n / 10);
      assert |Digits(n)| == |Digits(n / 10)| + 1;
    }
  }

  /** `IntToString` has fewer than three characters exactly for -9 .. 99. */
  lemma IntToStringShort(i: int)
    ensures |IntToString(i)| < 3 <==> -9 <= i <= 99
  {
    if i < 0 {
      DigitsLength(-i);
    } else {
      DigitsLength(i);
    }
  }

  /** Left-pad with '0' to at least `width` characters (strftime's `%Y`, `%m`, `%d`). */
  function ZeroPad(s: string, width: nat): (r: string)
    ensures |r| == if |s| < width then width else |s|
    decreases width - |s|
  {
    if |s| < width then ZeroPad(['0'] + s, width) else s
  }
}
