/** Proleptic Gregorian dates as Python's `datetime.date` accepts them, and
    their `strftime('%Y-%m-%d')` rendering. */
module Calendar {
  import opened Decimal

  datatype Date = Date(year: int, month: int, day: int)

  predicate IsLeap(y: int) {
    y % 4 == 0 && (y % 100 != 0 || y % 400 == 0)
  }

  function DaysInMonth(y: int, m: int): (n: int)
    requires 1 <= m <= 12
    ensures 28 <= n <= 31
    ensures n == 29 <==> m == 2 && IsLeap(y)
  {
    if m == 2 then (if IsLeap(y) then 29 else 28)
    else if m == 4 || m == 6 || m == 9 || m == 11 then 30
    else 31
  }

  /** The dates `datetime.date(y, m, d)` constructs without raising
      (`MINYEAR` is 1, `MAXYEAR` is 9999). */
  predicate ValidDate(y: int, m: int, d: int) {
    1 <= y <= 9999 && 1 <= m <= 12 && 1 <= d <= DaysInMonth(y, m)
  }

  /** `date.strftime('%Y-%m-%d')`: year padded to four digits, month and day to two. */
  function FormatIso(dt: Date): string
    requires ValidDate(dt.year, dt.month, dt.day)
  {
    ZeroPad(Digits(dt.year), 4) + "-" + ZeroPad(Digits(dt.month), 2) + "-" + ZeroPad(Digits(dt.day), 2)
  }

  /** Every valid date renders as exactly `YYYY-MM-DD`, and the three
      fields read back as the date. */
  lemma FormatIsoFields(dt: Date)
    requires ValidDate(dt.year, dt.month, dt.day)
    ensures |FormatIso(dt)| == 10 && FormatIso(dt)[4] == '-' && FormatIso(dt)[7] == '-'
    ensures AllDigits(FormatIso(dt)[..4]) && AllDigits(FormatIso(dt)[5..7]) && AllDigits(FormatIso(dt)[8..])
    ensures Value(FormatIso(dt)[..4]) == dt.year
    ensures Value(FormatIso(dt)[5..7]) == dt.month
    ensures Value(FormatIso(dt)[8..]) == dt.day
  {
    Padded(dt.year, 4);
    Padded(dt.month, 2);
    Padded(dt.day, 2);
    var y, m, d := ZeroPad(Digits(dt.year), 4), ZeroPad(Digits(dt.month), 2), ZeroPad(Digits(dt.day), 2);
    IsoParts(y, m, d);
  }

  /** Where the three fields sit in "YYYY-MM-DD". */
  lemma IsoParts(y: string, m: string, d: string)
    requires |y| == 4 && |m| == 2 && |d| == 2
    ensures var s := y + "-" + m + "-" + d;
            && |s| == 10 && s[4] == '-' && s[7] == '-'
            && s[..4] == y && s[5..7] == m && s[8..] == d
  {
    var s := y + "-" + m + "-" + d;
    assert s[..4] == y;
    assert s[5..7] == m;
    assert s[8..] == d;
  }

  /** `ZeroPad(str(n), width)` for a number of at most `width` digits. */
  lemma Padded(n: nat, width: nat)
    requires 1 <= width <= 4
    requires width == 1 ==> n < 10
    requires width == 2 ==> n < 100
    requires width == 3 ==> n < 1000
    requires width == 4 ==> n < 10000
    ensures |ZeroPad(Digits(n), width)| == width
    ensures AllDigits(ZeroPad(Digits(n), width)) && Value(ZeroPad(Digits(n), width)) == n
  {
    DigitsLength(n);
    PaddedValue(Digits(n), width);
    ValueOfDigits(n);
  }

  /** Leading zeros do not change what `int()` reads. */
  lemma {:induction false} PaddedValue(s: string, width: nat)
    requires AllDigits(s)
    ensures AllDigits(ZeroPad(s, width))
    ensures Value(ZeroPad(s, width)) == Value(s)
    decreases width - |s|
  {
    if |s| < width {
      LeadingZero(s);
      PaddedValue(['0'] + s, width);
    }
  }

  lemma {:induction false} LeadingZero(s: string)
    requires AllDigits(s)
    ensures AllDigits(['0'] + s) && Value(['0'] + s) == Value(s)
  {
    if s != [] {
      var t := ['0'] + s;
      assert t[..|t| - 1] == ['0'] + s[..|s| - 1];
      LeadingZero(s[..|s| - 1]);
    }
  }
}
