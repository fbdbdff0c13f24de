/** `datetime.strptime(s, '%Y%m%d').date()` as CPython's `_strptime` does it:
    the format becomes the regular expression
      (?P<Y>\d\d\d\d)(?P<m>1[0-2]|0[1-9]|[1-9])(?P<d>3[01]|[12]\d|0[1-9]|[1-9]| [1-9])
    which is applied with `re.match` (anchored at the start only, each
    alternation tried left to right with backtracking); a match that stops
    before the end raises "unconverted data remains", and the matched fields
    must then form a valid `datetime.date`. `\d` is taken to be the ASCII digits. */
module Strptime {
  import opened Options
  import opened Decimal
  import opened Calendar

  /** Alternative `k` of the month group matches at position `p`. */
  predicate MonthAlt(s: string, p: nat, k: nat) {
    if k == 0 then p + 1 < |s| && s[p] == '1' && '0' <= s[p + 1] <= '2'
    else if k == 1 then p + 1 < |s| && s[p] == '0' && '1' <= s[p + 1] <= '9'
    else k == 2 && p < |s| && '1' <= s[p] <= '9'
  }

  function MonthAltLen(k: nat): nat {
    if k < 2 then 2 else 1
  }

  /** Alternative `k` of the day group matches at position `q`. */
  predicate DayAlt(s: string, q: nat, k: nat) {
    if k == 0 then q + 1 < |s| && s[q] == '3' && '0' <= s[q + 1] <= '1'
    else if k == 1 then q + 1 < |s| && '1' <= s[q] <= '2' && IsDigit(s[q + 1])
    else if k == 2 then q + 1 < |s| && s[q] == '0' && '1' <= s[q + 1] <= '9'
    else if k == 3 then q < |s| && '1' <= s[q] <= '9'
    else k == 4 && q + 1 < |s| && s[q] == ' ' && '1' <= s[q + 1] <= '9'
  }

  function DayAltLen(k: nat): nat {
    if k == 3 then 1 else 2
  }

  /** Length of the day group: the first alternative, from `k` on, that matches. */
  function FirstDay(s: string, q: nat, k: nat): (r: Option<nat>)
    decreases 5 - k
    ensures r.Some? ==>
              || (r.value == 1 && DayAlt(s, q, 3))
              || (r.value == 2 && (DayAlt(s, q, 0) || DayAlt(s, q, 1) || DayAlt(s, q, 2) || DayAlt(s, q, 4)))
    ensures r.None? ==> forall j :: k <= j < 5 ==> !DayAlt(s, q, j)
  {
    if k >= 5 then None
    else if DayAlt(s, q, k) then Some(DayAltLen(k))
    else FirstDay(s, q, k + 1)
  }

  /** Lengths of the month and day groups in the first match at `p`, trying
      month alternatives from `k` on; a month alternative whose day group
      cannot follow is backtracked over. */
  function FirstMatch(s: string, p: nat, k: nat): (r: Option<(nat, nat)>)
    decreases 3 - k
    ensures r.Some? ==> ((r.value.0 == 2 && (MonthAlt(s, p, 0) || MonthAlt(s, p, 1)))
                         || (r.value.0 == 1 && MonthAlt(s, p, 2)))
                        && FirstDay(s, p + r.value.0, 0) == Some(r.value.1)
  {
    if k >= 3 then None
    else if MonthAlt(s, p, k) && FirstDay(s, p + MonthAltLen(k), 0).Some? then
      Some((MonthAltLen(k), FirstDay(s, p + MonthAltLen(k), 0).value))
    else FirstMatch(s, p, k + 1)
  }

  /** `int()` of the day group: the `" [1-9]"` alternative carries a blank
      that `int` skips. */
  function DayGroupValue(g: string): nat
    requires (|g| == 1 && IsDigit(g[0])) || (|g| == 2 && (g[0] == ' ' || IsDigit(g[0])) && IsDigit(g[1]))
  {
    if g[0] == ' ' then DigitValue(g[1]) else Value(g)
  }

  function StrPTime(s: string): (r: Option<Date>)
    ensures r.Some? ==> ValidDate(r.value.year, r.value.month, r.value.day)
    ensures r.Some? ==> 6 <= |s| <= 8
  {
    if |s| < 4 || !AllDigits(s[..4]) then None
    else match FirstMatch(s, 4, 0)
      case None => None
      case Some((lm, ld)) =>
        if 4 + lm + ld != |s| then None
        else
          var y, m, d := Value(s[..4]), Value(s[4..4 + lm]), DayGroupValue(s[4 + lm..]);
          if ValidDate(y, m, d) then Some(Date(y, m, d)) else None
  }

  /** The month and day fields of an all-digit "YYYYMMDD", as numbers. */
  function MonthField(s: string): nat
    requires |s| == 8 && AllDigits(s)
  {
    DigitValue(s[4]) * 10 + DigitValue(s[5])
  }

  function DayField(s: string): nat
    requires |s| == 8 && AllDigits(s)
  {
    DigitValue(s[6]) * 10 + DigitValue(s[7])
  }

  /** A month field 01..12 followed by a day field 01..31 matches as two
      two-character groups. */
  lemma MatchInRange(s: string)
    requires |s| == 8 && AllDigits(s)
    requires 1 <= MonthField(s) <= 12 && 1 <= DayField(s) <= 31
    ensures FirstMatch(s, 4, 0) == Some((2, 2))
  {
    assert IsDigit(s[4]) && IsDigit(s[5]) && IsDigit(s[6]) && IsDigit(s[7]);
    assert FirstDay(s, 6, 0) == Some(2);
    if s[4] == '1' {
      assert MonthAlt(s, 4, 0);
    } else {
      assert MonthAlt(s, 4, 1);
    }
  }

  /** A match that consumes all eight characters has both fields in range. */
  lemma FullMatchInRange(s: string)
    requires |s| == 8 && AllDigits(s)
    requires FirstMatch(s, 4, 0).Some?
    requires 4 + FirstMatch(s, 4, 0).value.0 + FirstMatch(s, 4, 0).value.1 == 8
    ensures 1 <= MonthField(s) <= 12 && 1 <= DayField(s) <= 31
  {
    assert IsDigit(s[4]) && IsDigit(s[5]) && IsDigit(s[6]) && IsDigit(s[7]);
    assert MonthAlt(s, 4, 0) || MonthAlt(s, 4, 1);
    assert DayAlt(s, 6, 0) || DayAlt(s, 6, 1) || DayAlt(s, 6, 2);
  }

  /** An all-digit "YYYYMMDD" parses to exactly (YYYY, MM, DD) when that is a
      real calendar date and raises otherwise: no other split of the digits is
      ever taken. */
  lemma StrPTimeOfEightDigits(s: string)
    requires |s| == 8 && AllDigits(s)
    ensures StrPTime(s) ==
            var y, m, d := Value(s[..4]), MonthField(s), DayField(s);
            if ValidDate(y, m, d) then Some(Date(y, m, d)) else None
  {
    var m, d := MonthField(s), DayField(s);
    if 1 <= m <= 12 && 1 <= d <= 31 {
      MatchInRange(s);
      ValueOfTwo(s[4..6]);
      ValueOfTwo(s[6..]);
    } else if FirstMatch(s, 4, 0).Some? && 4 + FirstMatch(s, 4, 0).value.0 + FirstMatch(s, 4, 0).value.1 == 8 {
      FullMatchInRange(s);
    }
  }

  /** Anything longer than eight characters leaves unconverted data. */
  lemma StrPTimeRejectsLong(s: string)
    requires |s| > 8
    ensures StrPTime(s) == None
  {
  }
}
