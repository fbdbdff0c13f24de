/** `_make_season` and `_make_datestr`: the season label used in archive
    addresses, and the resolution of a month/day code to a calendar date. */
module Dates {
  import opened Options
  import opened Decimal
  import opened Calendar
  import opened Strptime
  import opened Cells

  /** `_make_season`: the season's text, a dash, and one more than the number
      written from its third character on (`int('')` raises for seasons of
      fewer than three characters). */
  function MakeSeason(season: int): Option<string> {
    var s := IntToString(season);
    if |s| < 3 then None
    else
      assert AllDigits(s[2..]) by {
        assert season < 0 ==> s[2..] == Digits(-season)[1..];
      }
      Some(s + "-" + IntToString(Value(s[2..]) + 1))
  }

  /** The label is missing exactly for the seasons that print with fewer than
      three characters. */
  lemma MakeSeasonDefined(season: int)
    ensures MakeSeason(season).None? <==> -9 <= season <= 99
  {
    IntToStringShort(season);
  }

  /** For a four-digit season the label is "YYYY-" followed by the last two
      digits plus one, without zero padding. */
  lemma MakeSeasonFourDigits(season: int)
    requires 1000 <= season <= 9999
    ensures MakeSeason(season) == Some(Digits(season) + "-" + Digits(season % 100 + 1))
  {
    var s := Digits(season);
    DigitsOfFour(season);
    assert s[2..] == [DigitChar(season / 10 % 10), DigitChar(season % 10)];
    ValueOfTwo(s[2..]);
    SplitPlaces(season);
  }

  lemma MakeSeasonExample2015()
    ensures MakeSeason(2015) == Some("2015-16")
  {
    assert Digits(2015) == "2015" by {
      DigitsOfFour(2015);
      assert Digits(2015) == [DigitChar(2), DigitChar(0), DigitChar(1), DigitChar(5)];
    }
    assert Digits(16) == "16" by {
      assert Digits(16) == Digits(1) + [DigitChar(6)];
    }
    MakeSeasonFourDigits(2015);
    assert 2015 % 100 + 1 == 16;
    assert MakeSeason(2015) == Some(Digits(2015) + "-" + Digits(16));
    assert Digits(2015) + "-" + Digits(16) == "2015-16";
  }

  lemma MakeSeasonExample2008()
    ensures MakeSeason(2008) == Some("2008-9")
  {
    assert Digits(2008) == "2008" by {
      DigitsOfFour(2008);
      assert Digits(2008) == [DigitChar(2), DigitChar(0), DigitChar(0), DigitChar(8)];
    }
    assert Digits(9) == "9";
    MakeSeasonFourDigits(2008);
    assert 2008 % 100 + 1 == 9;
    assert MakeSeason(2008) == Some(Digits(2008) + "-" + Digits(9));
    assert Digits(2008) + "-" + Digits(9) == "2008-9";
  }

  /** `str(x)` of a date cell. Integer codes print in decimal and strings are
      kept. A float prints with a '.', an 'e', "inf" or "nan", and the month
      field or the date text then never parses, so those cells, `None` and
      NaN are given no text here: the date is rejected either way. */
  function DateText(c: Cell): (r: Option<string>)
    ensures c.Text? ==> r == Some(c.s)
    ensures c.Int? ==> r == Some(IntToString(c.i))
    ensures !(c.Text? || c.Int?) ==> r.None?
  {
    match c
    case Text(s) => Some(s)
    case Int(i) => Some(IntToString(i))
    case _ => None
  }

  /** `_make_datestr(date, season, start, yr_end)`: pad a three-character code
      with a leading '0', split it into month (first two characters) and day
      (the rest), take `season` as the year when `start <= int(month) <= yr_end`
      and `season + 1` otherwise, parse "YYYY" + month + day with
      `strptime('%Y%m%d')` and print it as "YYYY-MM-DD". `None` stands for the
      ValueError of `int(month)` or of `strptime`. `int()` also accepts a sign
      or blanks in the month; every such month makes `strptime` fail, so the
      model rejects it at the first step. */
  function MakeDateStr(date: string, season: int, start: int, yrEnd: int): Option<string> {
    var d := if |date| == 3 then "0" + date else date;
    var month := if |d| <= 2 then d else d[..2];
    var day := if |d| <= 2 then "" else d[2..];
    if month == [] || !AllDigits(month) then None
    else
      var year := if start <= Value(month) <= yrEnd then season else season + 1;
      match StrPTime(IntToString(year) + month + day)
      case None => None
      case Some(dt) => Some(FormatIso(dt))
  }

  /** The `date` column of `_reformat_data`: `_make_datestr` of a scraped
      cell with the caller's window. */
  function CellDate(c: Cell, season: int, start: int, yrEnd: int): Option<string> {
    match DateText(c)
    case None => None
    case Some(t) => MakeDateStr(t, season, start, yrEnd)
  }

  /** The year `_make_datestr` pairs with a month: the season's own year
      inside the window, the following year outside it. */
  function SeasonYear(season: int, start: int, yrEnd: int, month: int): (y: int)
    ensures y == season <==> start <= month <= yrEnd
    ensures y == season + 1 <==> !(start <= month <= yrEnd)
  {
    if start <= month <= yrEnd then season else season + 1
  }

  /** The code's four characters once a three-digit code is padded. */
  lemma PaddedCode(code: nat)
    requires 100 <= code <= 9999
    ensures var t := Digits(code);
            var d := if |t| == 3 then "0" + t else t;
            d == [DigitChar(code / 1000), DigitChar(code / 100 % 10), DigitChar(code / 10 % 10), DigitChar(code % 10)]
  {
    if code < 1000 {
      DigitsOfThree(code);
    } else {
      DigitsOfFour(code);
    }
  }

  /** A four-digit code with a four-digit season: month and day are the
      first and last two digits, the year is chosen by the window, and the
      result is that date in "YYYY-MM-DD" when it exists on the calendar. */
  lemma ResolveFourChars(d: string, season: int, start: int, yrEnd: int)
    requires |d| == 4 && AllDigits(d)
    requires 1000 <= season <= 9998
    ensures var m, dd := Value(d[..2]), Value(d[2..]);
            var y := SeasonYear(season, start, yrEnd, m);
            MakeDateStr(d, season, start, yrEnd) ==
              if ValidDate(y, m, dd) then Some(FormatIso(Date(y, m, dd))) else None
  {
    var y := SeasonYear(season, start, yrEnd, Value(d[..2]));
    var s := IntToString(y) + d[..2] + d[2..];
    EightChars(y, d);
    StrPTimeOfEightDigits(s);
  }

  /** A four-digit year followed by four code digits reads back as the
      year, the code's first two digits and its last two. */
  lemma EightChars(y: int, d: string)
    requires 1000 <= y <= 9999 && |d| == 4 && AllDigits(d)
    ensures var s := IntToString(y) + d[..2] + d[2..];
            && |s| == 8 && AllDigits(s) && Value(s[..4]) == y
            && MonthField(s) == Value(d[..2]) && DayField(s) == Value(d[2..])
  {
    DigitsLength(y);
    ValueOfDigits(y);
    var s := IntToString(y) + d[..2] + d[2..];
    assert s[..4] == Digits(y);
    assert s[4] == d[0] && s[5] == d[1] && s[6] == d[2] && s[7] == d[3];
    ValueOfTwo(d[..2]);
    ValueOfTwo(d[2..]);
  }

  /** The four characters a three- or four-digit code is read as. */
  function CodeChars(code: nat): (d: string)
    requires code <= 9999
    ensures |d| == 4 && AllDigits(d)
  {
    [DigitChar(code / 1000), DigitChar(code / 100 % 10), DigitChar(code / 10 % 10), DigitChar(code % 10)]
  }

  /** A three-digit code is padded to `CodeChars`, a four-digit one is it. */
  lemma CodeText(code: nat)
    requires 100 <= code <= 9999
    ensures |Digits(code)| == 3 ==> "0" + Digits(code) == CodeChars(code)
    ensures |Digits(code)| != 3 ==> Digits(code) == CodeChars(code)
  {
    if code < 1000 {
      DigitsOfThree(code);
    } else {
      DigitsOfFour(code);
    }
  }

  /** The month and day fields of `CodeChars(code)` are code / 100 and code % 100. */
  lemma CodeFields(code: nat)
    requires code <= 9999
    ensures Value(CodeChars(code)[..2]) == code / 100
    ensures Value(CodeChars(code)[2..]) == code % 100
  {
    var d := CodeChars(code);
    ValueOfTwo(d[..2]);
    ValueOfTwo(d[2..]);
    SplitPlaces(code);
  }

  /** Padding is all a three-character code gets. */
  lemma PadThree(t: string, season: int, start: int, yrEnd: int)
    requires |t| == 3
    ensures MakeDateStr(t, season, start, yrEnd) == MakeDateStr("0" + t, season, start, yrEnd)
  {
  }

  /** Date resolution for the codes the archives hold (three or four digits)
      and a four-digit season: a three-digit code is read as '0' + code, the
      month is code / 100 and the day code % 100, the year is chosen by the
      window, and the result is that date in "YYYY-MM-DD" when it exists on
      the calendar; an impossible date is rejected, never adjusted. */
  lemma ResolveCode(code: nat, season: int, start: int, yrEnd: int)
    requires 100 <= code <= 9999
    requires 1000 <= season <= 9998
    ensures var m, d := code / 100, code % 100;
            var y := SeasonYear(season, start, yrEnd, m);
            MakeDateStr(Digits(code), season, start, yrEnd) ==
              if ValidDate(y, m, d) then Some(FormatIso(Date(y, m, d))) else None
  {
    var t := Digits(code);
    CodeText(code);
    if |t| == 3 {
      PadThree(t, season, start, yrEnd);
    }
    assert MakeDateStr(t, season, start, yrEnd) == MakeDateStr(CodeChars(code), season, start, yrEnd);
    CodeFields(code);
    ResolveFourChars(CodeChars(code), season, start, yrEnd);
  }

  /** The text produced for a resolvable code reads back as the window year,
      the code's month and the code's day. */
  lemma ResolvedFields(code: nat, season: int, start: int, yrEnd: int)
    requires 100 <= code <= 9999
    requires 1000 <= season <= 9998
    requires MakeDateStr(Digits(code), season, start, yrEnd).Some?
    ensures var r := MakeDateStr(Digits(code), season, start, yrEnd).value;
            && |r| == 10 && r[4] == '-' && r[7] == '-'
            && AllDigits(r[..4]) && AllDigits(r[5..7]) && AllDigits(r[8..])
            && Value(r[..4]) == (if start <= code / 100 <= yrEnd then season else season + 1)
            && Value(r[5..7]) == code / 100
            && Value(r[8..]) == code % 100
  {
    ResolveCode(code, season, start, yrEnd);
    var y := SeasonYear(season, start, yrEnd, code / 100);
    FormatIsoFields(Date(y, code / 100, code % 100));
  }

  /** Codes of five or more digits always leave unconverted data. */
  lemma ResolveRejectsLongCodes(code: nat, season: int, start: int, yrEnd: int)
    requires code >= 10000
    requires 1000 <= season <= 9998
    ensures MakeDateStr(Digits(code), season, start, yrEnd) == None
  {
    DigitsLength(code);
    var t := Digits(code);
    if AllDigits(t[..2]) {
      var y := SeasonYear(season, start, yrEnd, Value(t[..2]));
      DigitsOfFour(y);
      StrPTimeRejectsLong(IntToString(y) + t[..2] + t[2..]);
    }
  }

  /** A two-digit code is not rejected: "11" lies in the default window, so
      "201511" is parsed, and the regular expression backtracks to month 1,
      day 1. */
  lemma TwoDigitCodeQuirk()
    ensures MakeDateStr("11", 2015, 8, 12) == Some(FormatIso(Date(2015, 1, 1)))
  {
    ValueOfTwo("11");
    var s := IntToString(2015) + "11";
    DigitsOfFour(2015);
    assert s == "201511";
    assert FirstDay(s, 6, 0) == None;
    assert FirstDay(s, 5, 0) == Some(1);
    assert FirstMatch(s, 4, 0) == Some((1, 1));
    assert s[..4] == Digits(2015) && s[4..5] == "1" && s[5..] == "1";
    ValueOfDigits(2015);
    assert Value(s[..4]) == 2015;
    assert Value(s[4..5]) == 1;
    assert DayGroupValue(s[5..]) == 1;
    assert StrPTime(s) == Some(Date(2015, 1, 1));
    assert SeasonYear(2015, 8, 12, Value("11")) == 2015;
    assert IntToString(2015) + "11" + "" == s;
    assert MakeDateStr("11", 2015, 8, 12) == Some(FormatIso(Date(2015, 1, 1)));
  }

  /** The worked example: code 101 in the 2015 season with the default window
      falls outside August-December and resolves to 2016-01-01. */
  lemma ResolveExample()
    ensures MakeDateStr(Digits(101), 2015, 8, 12) == Some(FormatIso(Date(2016, 1, 1)))
  {
    ResolveCode(101, 2015, 8, 12);
  }
}
