/** `MLBOddsScraper`: `_reformat_data` for one season's sheet (pitcher
    strings split into name and throwing hand, the column layout of seasons
    up to 2013) and `_to_schema` with its checks of each pair of rows. */
module Baseball {
  import opened Options
  import opened Cells
  import opened Dates
  import opened Columns

  /** The keys of the schema dict, one constructor per key. */
  datatype Col =
    | Season | GameDate | AwayName | HomeName | AwayFinal | HomeFinal
    | AwayPitcher | AwayThrows | HomePitcher | HomeThrows
    | AwayI1 | AwayI2 | AwayI3 | AwayI4 | AwayI5 | AwayI6 | AwayI7 | AwayI8 | AwayI9
    | HomeI1 | HomeI2 | HomeI3 | HomeI4 | HomeI5 | HomeI6 | HomeI7 | HomeI8 | HomeI9
    | AwayMlOpen | HomeMlOpen | AwayMlClose | HomeMlClose
    | AwayRunLine | AwayRunLineOdds | HomeRunLine | HomeRunLineOdds
    | TotalOpenLine | OverOpenOdds | UnderOpenOdds
    | TotalCloseLine | OverCloseOdds | UnderCloseOdds

  /** The key as the source spells it. */
  function KeyName(c: Col): string {
    match c
    case Season => "season"
    case GameDate => "date"
    case AwayName => "a_name"
    case HomeName => "h_name"
    case AwayFinal => "a_final"
    case HomeFinal => "h_final"
    case AwayPitcher => "a_SP"
    case AwayThrows => "a_thr"
    case HomePitcher => "h_SP"
    case HomeThrows => "h_thr"
    case AwayI1 => "a_i1"
    case AwayI2 => "a_i2"
    case AwayI3 => "a_i3"
    case AwayI4 => "a_i4"
    case AwayI5 => "a_i5"
    case AwayI6 => "a_i6"
    case AwayI7 => "a_i7"
    case AwayI8 => "a_i8"
    case AwayI9 => "a_i9"
    case HomeI1 => "h_i1"
    case HomeI2 => "h_i2"
    case HomeI3 => "h_i3"
    case HomeI4 => "h_i4"
    case HomeI5 => "h_i5"
    case HomeI6 => "h_i6"
    case HomeI7 => "h_i7"
    case HomeI8 => "h_i8"
    case HomeI9 => "h_i9"
    case AwayMlOpen => "a_ML_op"
    case HomeMlOpen => "h_ML_op"
    case AwayMlClose => "a_ML_cl"
    case HomeMlClose => "h_ML_cl"
    case AwayRunLine => "a_S_cl_line"
    case AwayRunLineOdds => "a_S_cl_odds"
    case HomeRunLine => "h_S_cl_line"
    case HomeRunLineOdds => "h_S_cl_odds"
    case TotalOpenLine => "OU_op_line"
    case OverOpenOdds => "O_op_odds"
    case UnderOpenOdds => "U_op_odds"
    case TotalCloseLine => "OU_cl_line"
    case OverCloseOdds => "O_cl_odds"
    case UnderCloseOdds => "U_cl_odds"
  }

  /** The position of a key in the dict. */
  function Position(c: Col): (i: nat)
  {
    match c
    case Season => 0
    case GameDate => 1
    case AwayName => 2
    case HomeName => 3
    case AwayFinal => 4
    case HomeFinal => 5
    case AwayPitcher => 6
    case AwayThrows => 7
    case HomePitcher => 8
    case HomeThrows => 9
    case AwayI1 => 10
    case AwayI2 => 11
    case AwayI3 => 12
    case AwayI4 => 13
    case AwayI5 => 14
    case AwayI6 => 15
    case AwayI7 => 16
    case AwayI8 => 17
    case AwayI9 => 18
    case HomeI1 => 19
    case HomeI2 => 20
    case HomeI3 => 21
    case HomeI4 => 22
    case HomeI5 => 23
    case HomeI6 => 24
    case HomeI7 => 25
    case HomeI8 => 26
    case HomeI9 => 27
    case AwayMlOpen => 28
    case HomeMlOpen => 29
    case AwayMlClose => 30
    case HomeMlClose => 31
    case AwayRunLine => 32
    case AwayRunLineOdds => 33
    case HomeRunLine => 34
    case HomeRunLineOdds => 35
    case TotalOpenLine => 36
    case OverOpenOdds => 37
    case UnderOpenOdds => 38
    case TotalCloseLine => 39
    case OverCloseOdds => 40
    case UnderCloseOdds => 41
  }

  /** The keys in dict order, which is the order `_to_schema` appends in:
      the game and its teams, the innings, the lines. */
  const Names: seq<Col> := GameKeys + InningKeys + LineKeys

  const GameKeys: seq<Col> := [
    Season, GameDate, AwayName, HomeName, AwayFinal, HomeFinal,
    AwayPitcher, AwayThrows, HomePitcher, HomeThrows]

  const InningKeys: seq<Col> := [
    AwayI1, AwayI2, AwayI3, AwayI4, AwayI5, AwayI6, AwayI7, AwayI8, AwayI9,
    HomeI1, HomeI2, HomeI3, HomeI4, HomeI5, HomeI6, HomeI7, HomeI8, HomeI9]

  const LineKeys: seq<Col> := [
    AwayMlOpen, HomeMlOpen, AwayMlClose, HomeMlClose,
    AwayRunLine, AwayRunLineOdds, HomeRunLine, HomeRunLineOdds,
    TotalOpenLine, OverOpenOdds, UnderOpenOdds,
    TotalCloseLine, OverCloseOdds, UnderCloseOdds]

  lemma NamesDistinct()
    ensures |Names| == 42 && Distinct(Names)
  {
    NamesInOrder();
  }

  /** Each key sits at its own position. */
  lemma NamesInOrder()
    ensures |Names| == 42
    ensures forall i :: 0 <= i < |Names| ==> Position(Names[i]) == i
  {
    GameKeysAt();
    InningKeysAt();
    LineKeysAt();
    forall i | 0 <= i < |Names|
      ensures Position(Names[i]) == i
    {
      if i < 10 {
        assert Names[i] == GameKeys[i];
      } else if i < 28 {
        assert Names[i] == InningKeys[i - 10];
      } else {
        assert Names[i] == LineKeys[i - 28];
      }
    }
  }

  lemma GameKeysAt()
    ensures |GameKeys| == 10 && forall i :: 0 <= i < |GameKeys| ==> Position(GameKeys[i]) == i
  {
  }

  lemma InningKeysAt()
    ensures |InningKeys| == 18 && forall i :: 0 <= i < |InningKeys| ==> Position(InningKeys[i]) == 10 + i
  {
  }

  lemma LineKeysAt()
    ensures |LineKeys| == 14 && forall i :: 0 <= i < |LineKeys| ==> Position(LineKeys[i]) == 28 + i
  {
    LineKeysFrontAt();
    LineKeysBackAt();
  }

  lemma LineKeysFrontAt()
    ensures forall i :: 0 <= i < 7 ==> Position(LineKeys[i]) == 28 + i
  {
  }

  lemma LineKeysBackAt()
    ensures forall i :: 7 <= i < 14 ==> Position(LineKeys[i]) == 28 + i
  {
  }

  /** The runs of nine innings. */
  type Innings = s: seq<Cell> | |s| == 9 witness [Null, Null, Null, Null, Null, Null, Null, Null, Null]

  /** A row of the frame `_reformat_data` builds: one team's line of a game. */
  datatype GameRow = GameRow(
    season: Cell, date: Cell, team: Cell, pitcher: Cell, hand: Cell,
    innings: Innings, final: Cell, openMl: Cell, closeMl: Cell,
    runLine: Cell, runLineOdds: Cell,
    openTotal: Cell, openTotalOdds: Cell, closeTotal: Cell, closeTotalOdds: Cell)

  /** `"-" + [hand] in s`. */
  predicate Marked(s: string, hand: char) {
    exists i :: 0 <= i < |s| - 1 && s[i] == '-' && s[i + 1] == hand
  }

  /** The `pName` lambda: a string marked "-L" or "-R" anywhere loses its
      last two characters, another string is kept, and anything that is not
      a string becomes `None`. */
  function PitcherName(c: Cell): (r: Cell)
    ensures !c.Text? <==> r.Null?
    ensures c.Text? && (Marked(c.s, 'L') || Marked(c.s, 'R')) ==> |c.s| >= 2 && r == Text(c.s[..|c.s| - 2])
    ensures c.Text? && !Marked(c.s, 'L') && !Marked(c.s, 'R') ==> r == c
  {
    if !c.Text? then Null
    else if Marked(c.s, 'L') || Marked(c.s, 'R') then Text(c.s[..|c.s| - 2])
    else c
  }

  /** The `pThrow` lambda: 'L' for a string marked "-L" anywhere, 'R' for
      any other string, `None` for anything else. */
  function PitcherHand(c: Cell): (r: Cell)
    ensures !c.Text? <==> r.Null?
    ensures c.Text? ==> (r == Text("L") <==> Marked(c.s, 'L'))
    ensures c.Text? ==> (r == Text("R") <==> !Marked(c.s, 'L'))
  {
    if !c.Text? then Null
    else if Marked(c.s, 'L') then Text("L")
    else Text("R")
  }

  /** A name with its hand appended reads back as that name and hand, as
      long as the name itself holds no "-L". */
  lemma PitcherRoundTrip(name: string, hand: char)
    requires hand == 'L' || hand == 'R'
    requires !Marked(name, 'L')
    ensures PitcherName(Text(name + ['-', hand])) == Text(name)
    ensures PitcherHand(Text(name + ['-', hand])) == Text([hand])
  {
    var s := name + ['-', hand];
    assert s[|name|] == '-' && s[|name| + 1] == hand;
    assert s[..|s| - 2] == name;
    if hand == 'R' {
      forall i | 0 <= i < |s| - 1 && s[i] == '-'
        ensures s[i + 1] != 'L'
      {
        if i + 1 < |name| {
          assert name[i] == '-';
        }
      }
    }
  }

  /** "SMITH-L" is Smith throwing left; "JONES" has no mark and is taken to
      throw right; in "A-LEE-R" the "-L" inside the name wins over the
      suffix. */
  lemma PitcherExamples()
    ensures PitcherName(Text("SMITH-L")) == Text("SMITH") && PitcherHand(Text("SMITH-L")) == Text("L")
    ensures PitcherName(Text("JONES")) == Text("JONES") && PitcherHand(Text("JONES")) == Text("R")
    ensures PitcherName(Text("A-LEE-R")) == Text("A-LEE") && PitcherHand(Text("A-LEE-R")) == Text("L")
    ensures PitcherName(Nan) == Null && PitcherHand(Nan) == Null
  {
    PitcherRoundTrip("SMITH", 'L');
    assert "SMITH" + ['-', 'L'] == "SMITH-L";
    var j := "JONES";
    assert !Marked(j, 'L') && !Marked(j, 'R') by {
      forall i | 0 <= i < |j| - 1 ensures j[i] != '-' { }
    }
    var a := "A-LEE-R";
    assert a[1] == '-' && a[2] == 'L';
    assert a[..|a| - 2] == "A-LEE";
  }

  /** The layout of a season's sheet: from 2014 on the run line and its
      odds sit in columns 17 and 18 and the totals in 19-22; before, there
      is no run line and the totals sit in 17-20. */
  function Shift(season: int): (s: nat)
    ensures season > 2013 <==> s == 0
    ensures season <= 2013 <==> s == 2
  {
    if season > 2013 then 0 else 2
  }

  function Width(season: int): nat {
    23 - Shift(season)
  }

  /** One sheet row as `_reformat_data` maps it (date codes resolved with
      the March-to-November window); only the date can fail. */
  function RowOf(cells: seq<Cell>, season: int): (r: Option<GameRow>)
    ensures r.Some? <==> |cells| >= Width(season) && CellDate(cells[0], season, 3, 11).Some?
    ensures r.Some? ==> r.value.season == Int(season)
                        && r.value.date == Text(CellDate(cells[0], season, 3, 11).value)
    ensures r.Some? ==> r.value.team == cells[3]
                        && r.value.pitcher == PitcherName(cells[4]) && r.value.hand == PitcherHand(cells[4])
    ensures r.Some? ==> r.value.innings == cells[5..14] && r.value.final == cells[14]
                        && r.value.openMl == cells[15] && r.value.closeMl == cells[16]
    ensures r.Some? && season > 2013 ==> r.value.runLine == cells[17] && r.value.runLineOdds == cells[18]
    ensures r.Some? && season <= 2013 ==> r.value.runLine == Int(0) && r.value.runLineOdds == Int(0)
    ensures r.Some? ==> r.value.openTotal == cells[19 - Shift(season)] && r.value.openTotalOdds == cells[20 - Shift(season)]
                        && r.value.closeTotal == cells[21 - Shift(season)] && r.value.closeTotalOdds == cells[22 - Shift(season)]
  {
    if |cells| < Width(season) then None
    else match CellDate(cells[0], season, 3, 11)
      case None => None
      case Some(d) =>
        var innings: Innings := cells[5..14];
        if season > 2013 then
          Some(GameRow(Int(season), Text(d), cells[3], PitcherName(cells[4]), PitcherHand(cells[4]),
                       innings, cells[14], cells[15], cells[16], cells[17], cells[18],
                       cells[19], cells[20], cells[21], cells[22]))
        else
          Some(GameRow(Int(season), Text(d), cells[3], PitcherName(cells[4]), PitcherHand(cells[4]),
                       innings, cells[14], cells[15], cells[16], Int(0), Int(0),
                       cells[17], cells[18], cells[19], cells[20]))
  }

  /** `_reformat_data(df, season)`: a missing column is a KeyError and an
      unresolvable date code a ValueError; otherwise every row is mapped. */
  function Reformat(df: Frame, season: int): (r: Option<seq<GameRow>>)
    requires df.WellFormed()
    ensures r.Some? <==> df.width >= Width(season) && forall k :: 0 <= k < |df.rows| ==> CellDate(df.rows[k][0], season, 3, 11).Some?
    ensures r.Some? ==> |r.value| == |df.rows|
    ensures r.Some? ==> forall k :: 0 <= k < |df.rows| ==> Some(r.value[k]) == RowOf(df.rows[k], season)
  {
    if df.width < Width(season) then None
    else MapAll(df.rows, cells => RowOf(cells, season))
  }

  /** The warnings `_to_schema` prints, each naming the game. */
  datatype Kind = BadMoneyline | RunLineNotInverse | BadRunLineOdds | BadTotalOdds
  datatype Warning = Warning(kind: Kind, away: Cell, home: Cell, date: Cell)

  /** Some warning of this kind was printed. */
  predicate Warned(ws: seq<Warning>, kind: Kind) {
    exists i :: 0 <= i < |ws| && ws[i].kind == kind
  }

  lemma WarnedConcat(a: seq<Warning>, b: seq<Warning>, kind: Kind)
    ensures Warned(a + b, kind) <==> Warned(a, kind) || Warned(b, kind)
  {
    if Warned(a + b, kind) {
      var i :| 0 <= i < |a + b| && (a + b)[i].kind == kind;
      if i >= |a| {
        assert b[i - |a|].kind == kind;
      }
    }
    if Warned(b, kind) {
      var i :| 0 <= i < |b| && b[i].kind == kind;
      assert (a + b)[|a| + i] == b[i];
    }
    if Warned(a, kind) {
      var i :| 0 <= i < |a| && a[i].kind == kind;
      assert (a + b)[i] == a[i];
    }
  }

  /** The 42 appends of a pair, away row first and home row second. */
  function Game(row: GameRow, next: GameRow, table: map<string, string>): (rec: seq<Cell>)
    ensures |rec| == |Names|
  {
    Head(row, next, table) + row.innings + next.innings + Tail(row, next)
  }

  function Head(row: GameRow, next: GameRow, table: map<string, string>): seq<Cell> {
    [row.season, row.date, Translate(table, row.team), Translate(table, next.team),
     row.final, next.final, row.pitcher, row.hand, next.pitcher, next.hand]
  }

  function Tail(row: GameRow, next: GameRow): seq<Cell> {
    [row.openMl, next.openMl, row.closeMl, next.closeMl,
     row.runLine, row.runLineOdds, next.runLine, next.runLineOdds,
     row.openTotal, row.openTotalOdds, next.openTotalOdds,
     row.closeTotal, row.closeTotalOdds, next.closeTotalOdds]
  }

  /** Where each field of a record comes from: season and date from the
      first row, the away side from the first row and the home side from
      the second; the opening and closing total lines, and the "over" odds,
      from the first row, the "under" odds from the second. */
  lemma GameFields(row: GameRow, next: GameRow, table: map<string, string>)
    ensures var rec := Game(row, next, table);
            && rec[0] == row.season && rec[1] == row.date
            && rec[2] == Translate(table, row.team) && rec[3] == Translate(table, next.team)
            && rec[4] == row.final && rec[5] == next.final
            && rec[6] == row.pitcher && rec[7] == row.hand && rec[8] == next.pitcher && rec[9] == next.hand
            && rec[10..19] == row.innings && rec[19..28] == next.innings
            && rec[28..32] == [row.openMl, next.openMl, row.closeMl, next.closeMl]
            && rec[32..36] == [row.runLine, row.runLineOdds, next.runLine, next.runLineOdds]
            && rec[36..] == [row.openTotal, row.openTotalOdds, next.openTotalOdds,
                             row.closeTotal, row.closeTotalOdds, next.closeTotalOdds]
  {
    var rec := Game(row, next, table);
    FourParts(Head(row, next, table), row.innings, next.innings, Tail(row, next));
    HeadFields(rec, row, next, table);
    TailFields(rec, row, next);
  }

  lemma HeadFields(rec: seq<Cell>, row: GameRow, next: GameRow, table: map<string, string>)
    requires |rec| >= 10 && rec[..10] == Head(row, next, table)
    ensures rec[0] == row.season && rec[1] == row.date
    ensures rec[2] == Translate(table, row.team) && rec[3] == Translate(table, next.team)
    ensures rec[4] == row.final && rec[5] == next.final
    ensures rec[6] == row.pitcher && rec[7] == row.hand && rec[8] == next.pitcher && rec[9] == next.hand
  {
    var h := Head(row, next, table);
    assert forall i :: 0 <= i < 10 ==> rec[i] == h[i];
  }

  lemma TailFields(rec: seq<Cell>, row: GameRow, next: GameRow)
    requires |rec| == 42 && rec[28..] == Tail(row, next)
    ensures rec[28..32] == [row.openMl, next.openMl, row.closeMl, next.closeMl]
    ensures rec[32..36] == [row.runLine, row.runLineOdds, next.runLine, next.runLineOdds]
    ensures rec[36..] == [row.openTotal, row.openTotalOdds, next.openTotalOdds,
                          row.closeTotal, row.closeTotalOdds, next.closeTotalOdds]
  {
    var t := Tail(row, next);
    assert rec[28..32] == t[..4];
    assert rec[32..36] == t[4..8];
    assert rec[36..] == t[8..];
  }

  /** The four parts of a concatenation, read back by slicing. */
  lemma FourParts<T>(a: seq<T>, b: seq<T>, c: seq<T>, d: seq<T>)
    ensures var s := a + b + c + d;
            && s[..|a|] == a && s[|a|..|a| + |b|] == b
            && s[|a| + |b|..|a| + |b| + |c|] == c && s[|a| + |b| + |c|..] == d
  {
  }

  /** The opening and closing moneylines are all numbers. */
  predicate MoneylinesValid(row: GameRow, next: GameRow) {
    IsNumber(row.openMl) && IsNumber(next.openMl) && IsNumber(row.closeMl) && IsNumber(next.closeMl)
  }

  predicate RunLineOddsValid(row: GameRow, next: GameRow) {
    IsNumber(row.runLineOdds) && IsNumber(next.runLineOdds)
  }

  predicate TotalOddsValid(row: GameRow, next: GameRow) {
    IsNumber(row.openTotalOdds) && IsNumber(next.openTotalOdds)
    && IsNumber(row.closeTotalOdds) && IsNumber(next.closeTotalOdds)
  }

  /** The checks that raise: the dates differ, the home run line is `None`
      (so `-1 *` it raises), or the opening or closing total lines differ. */
  predicate Aborts(row: GameRow, next: GameRow) {
    !PyEq(row.date, next.date) || next.runLine.Null?
    || !PyEq(row.openTotal, next.openTotal) || !PyEq(row.closeTotal, next.closeTotal)
  }

  /** The warning of one kind about this game, when its condition holds. */
  function WarnIf(bad: bool, kind: Kind, row: GameRow, next: GameRow, table: map<string, string>): (ws: seq<Warning>)
    ensures bad ==> |ws| == 1 && ws[0].kind == kind
    ensures !bad ==> ws == []
  {
    if bad then [Warning(kind, Translate(table, row.team), Translate(table, next.team), row.date)] else []
  }

  /** The checks after the appends, in order: a failed `assert` (or the
      `TypeError` of `-1 * None`) ends the run with the whole record
      appended and the warnings printed so far; a run line that is not the
      additive inverse, or odds that are not numbers, only warn. */
  function Check(row: GameRow, next: GameRow, table: map<string, string>): (s: Step<Warning>)
    ensures !s.Skip?
    ensures s.Fail? <==> Aborts(row, next)
    ensures s.Emit? ==> s.rec == Game(row, next, table)
    ensures s.Fail? ==> s.partial == Game(row, next, table)
    ensures forall w :: w in s.notes ==>
              w == Warning(w.kind, Translate(table, row.team), Translate(table, next.team), row.date)
    ensures !PyEq(row.date, next.date) ==> s.notes == []
    ensures PyEq(row.date, next.date) ==> (Warned(s.notes, BadMoneyline) <==> !MoneylinesValid(row, next))
    ensures PyEq(row.date, next.date) && !next.runLine.Null? ==>
              && (Warned(s.notes, RunLineNotInverse) <==> !PyEq(row.runLine, NegOne(next.runLine).value))
              && (Warned(s.notes, BadRunLineOdds) <==> !RunLineOddsValid(row, next))
    ensures next.runLine.Null? ==> !Warned(s.notes, RunLineNotInverse) && !Warned(s.notes, BadRunLineOdds)
    ensures s.Fail? ==> !Warned(s.notes, BadTotalOdds)
    ensures s.Emit? ==> (Warned(s.notes, BadTotalOdds) <==> !TotalOddsValid(row, next))
  {
    var rec := Game(row, next, table);
    if !PyEq(row.date, next.date) then Fail(rec, [])
    else
      var n1 := WarnIf(!MoneylinesValid(row, next), BadMoneyline, row, next, table);
      match NegOne(next.runLine)
      case None =>
        WarnedOnly(n1, BadMoneyline);
        Fail(rec, n1)
      case Some(neg) =>
        var n2 := n1 + WarnIf(!PyEq(row.runLine, neg), RunLineNotInverse, row, next, table);
        var n3 := n2 + WarnIf(!RunLineOddsValid(row, next), BadRunLineOdds, row, next, table);
        if !PyEq(row.openTotal, next.openTotal) || !PyEq(row.closeTotal, next.closeTotal) then
          WarnedThree(n1, n2, n3, row, next, table, neg);
          Fail(rec, n3)
        else
          var n4 := WarnIf(!TotalOddsValid(row, next), BadTotalOdds, row, next, table);
          WarnedAll(n1, n2, n3, n4, row, next, table, neg);
          Emit(rec, n3 + n4)
  }

  /** The warnings printed before the total-line asserts: one kind per
      check, each exactly when its condition holds. */
  lemma WarnedThree(n1: seq<Warning>, n2: seq<Warning>, n3: seq<Warning>,
                    row: GameRow, next: GameRow, table: map<string, string>, neg: Cell)
    requires n1 == WarnIf(!MoneylinesValid(row, next), BadMoneyline, row, next, table)
    requires n2 == n1 + WarnIf(!PyEq(row.runLine, neg), RunLineNotInverse, row, next, table)
    requires n3 == n2 + WarnIf(!RunLineOddsValid(row, next), BadRunLineOdds, row, next, table)
    ensures Warned(n3, BadMoneyline) <==> !MoneylinesValid(row, next)
    ensures Warned(n3, RunLineNotInverse) <==> !PyEq(row.runLine, neg)
    ensures Warned(n3, BadRunLineOdds) <==> !RunLineOddsValid(row, next)
    ensures !Warned(n3, BadTotalOdds)
  {
    var w2 := WarnIf(!PyEq(row.runLine, neg), RunLineNotInverse, row, next, table);
    var w3 := WarnIf(!RunLineOddsValid(row, next), BadRunLineOdds, row, next, table);
    forall k | k in [BadMoneyline, RunLineNotInverse, BadRunLineOdds, BadTotalOdds]
      ensures Warned(n3, k) <==> Warned(n1, k) || Warned(w2, k) || Warned(w3, k)
    {
      WarnedConcat(n1, w2, k);
      WarnedConcat(n2, w3, k);
    }
    WarnedOnly(n1, BadMoneyline);
    WarnedOnly(w2, RunLineNotInverse);
    WarnedOnly(w3, BadRunLineOdds);
  }

  /** The same with the total-odds warning printed after the asserts. */
  lemma WarnedAll(n1: seq<Warning>, n2: seq<Warning>, n3: seq<Warning>, n4: seq<Warning>,
                  row: GameRow, next: GameRow, table: map<string, string>, neg: Cell)
    requires n1 == WarnIf(!MoneylinesValid(row, next), BadMoneyline, row, next, table)
    requires n2 == n1 + WarnIf(!PyEq(row.runLine, neg), RunLineNotInverse, row, next, table)
    requires n3 == n2 + WarnIf(!RunLineOddsValid(row, next), BadRunLineOdds, row, next, table)
    requires n4 == WarnIf(!TotalOddsValid(row, next), BadTotalOdds, row, next, table)
    ensures Warned(n3 + n4, BadMoneyline) <==> !MoneylinesValid(row, next)
    ensures Warned(n3 + n4, RunLineNotInverse) <==> !PyEq(row.runLine, neg)
    ensures Warned(n3 + n4, BadRunLineOdds) <==> !RunLineOddsValid(row, next)
    ensures Warned(n3 + n4, BadTotalOdds) <==> !TotalOddsValid(row, next)
  {
    WarnedThree(n1, n2, n3, row, next, table, neg);
    forall k | k in [BadMoneyline, RunLineNotInverse, BadRunLineOdds, BadTotalOdds]
      ensures Warned(n3 + n4, k) <==> Warned(n3, k) || Warned(n4, k)
    {
      WarnedConcat(n3, n4, k);
    }
    WarnedOnly(n4, BadTotalOdds);
  }

  /** A list that is empty or a single warning of one kind. */
  lemma WarnedOnly(ws: seq<Warning>, kind: Kind)
    requires ws == [] || (|ws| == 1 && ws[0].kind == kind)
    ensures forall k :: Warned(ws, k) <==> ws != [] && k == kind
  {
    if ws != [] {
      assert Warned(ws, kind) by { assert ws[0].kind == kind; }
    }
  }

  /** Iteration `i` of the loop over the reset index: odd positions are
      skipped, and an even position without a next row raises KeyError
      before any append. */
  function PairStep(rows: seq<GameRow>, i: int, table: map<string, string>): (s: Step<Warning>)
    requires 0 <= i < |rows|
    ensures i % 2 == 1 ==> s.Skip?
    ensures i % 2 == 0 && i + 1 == |rows| ==> s == Fail([], [])
    ensures i % 2 == 0 && i + 1 < |rows| ==> s == Check(rows[i], rows[i + 1], table)
  {
    if i % 2 != 0 then Skip
    else if i + 1 >= |rows| then Fail([], [])
    else Check(rows[i], rows[i + 1], table)
  }

  function StepFn(rows: seq<GameRow>, table: map<string, string>): int --> Step<Warning> {
    (i: int) requires 0 <= i < |rows| => PairStep(rows, i, table)
  }

  /** `range(len(df))`. */
  function Positions(n: nat): (ps: seq<int>)
    ensures |ps| == n && forall k :: 0 <= k < n ==> ps[k] == k
  {
    seq(n, k requires 0 <= k < n => k)
  }

  /** What `_to_schema(df)` does to the schema, over the frame with its
      index reset. */
  function RunOn(rows: seq<GameRow>, table: map<string, string>): (r: Columns.Run<Warning>)
    ensures WholeOrEmpty(r.appended, |Names|)
  {
    var steps := StepsOf(Positions(|rows|), StepFn(rows, table));
    RunWholeOrEmpty(steps, |Names|);
    RunOf(steps)
  }

  /** The pairs are rows (0,1), (2,3), ...: an odd number of rows always
      raises, on the last row's missing partner if not before. */
  lemma OddCountFails(rows: seq<GameRow>, table: map<string, string>)
    requires |rows| % 2 == 1
    ensures RunOn(rows, table).failed
  {
    var steps := StepsOf(Positions(|rows|), StepFn(rows, table));
    assert steps[|rows| - 1].Fail?;
  }

  /** A pair whose checks abort ends the run: nothing after it is appended. */
  lemma AbortingPairFails(rows: seq<GameRow>, table: map<string, string>, j: nat)
    requires 2 * j + 1 < |rows| && Aborts(rows[2 * j], rows[2 * j + 1])
    ensures RunOn(rows, table).failed
  {
    var steps := StepsOf(Positions(|rows|), StepFn(rows, table));
    assert steps[2 * j].Fail?;
  }

  /** The games of rows (0,1), (2,3), ...: away row first, home row second. */
  function SeasonGames(rows: seq<GameRow>, table: map<string, string>): (gs: seq<seq<Cell>>)
    ensures |gs| == |rows| / 2
    ensures forall j :: 0 <= j < |gs| ==> gs[j] == Game(rows[2 * j], rows[2 * j + 1], table)
  {
    seq(|rows| / 2, j requires 0 <= j < |rows| / 2 => Game(rows[2 * j], rows[2 * j + 1], table))
  }

  /** An even number of rows with no pair aborting: one record per pair,
      warnings or not, and no exception. */
  lemma PairedRun(rows: seq<GameRow>, table: map<string, string>)
    requires |rows| % 2 == 0
    requires forall j :: 0 <= j < |rows| / 2 ==> !Aborts(rows[2 * j], rows[2 * j + 1])
    ensures RunOn(rows, table).appended == SeasonGames(rows, table)
    ensures !RunOn(rows, table).failed
  {
    var steps := StepsOf(Positions(|rows|), StepFn(rows, table));
    var games := SeasonGames(rows, table);
    forall j | 0 <= j < |games|
      ensures steps[2 * j].Emit? && steps[2 * j].rec == games[j]
    {
      PairInside(|rows|, j);
      StepAt(rows, table, 2 * j);
      CheckedStep(rows, table, j);
    }
    forall j | 0 <= j && 2 * j + 1 < |steps|
      ensures steps[2 * j + 1].Skip?
    {
      StepAt(rows, table, 2 * j + 1);
      SkippedStep(rows, table, j);
    }
    AlternatingAppends(steps, games);
  }

  /** Step `i` of the loop is the body applied to position `i`. */
  lemma StepAt(rows: seq<GameRow>, table: map<string, string>, i: nat)
    requires i < |rows|
    ensures StepsOf(Positions(|rows|), StepFn(rows, table))[i] == PairStep(rows, i, table)
  {
  }

  /** Step `2j` checks rows `2j` and `2j + 1`. */
  lemma CheckedStep(rows: seq<GameRow>, table: map<string, string>, j: nat)
    requires 2 * j + 1 < |rows|
    ensures PairStep(rows, 2 * j, table) == Check(rows[2 * j], rows[2 * j + 1], table)
  {
  }

  /** Step `2j + 1` is skipped. */
  lemma SkippedStep(rows: seq<GameRow>, table: map<string, string>, j: nat)
    requires 2 * j + 1 < |rows|
    ensures PairStep(rows, 2 * j + 1, table).Skip?
  {
  }

  /** Pair `j` of (0,1), (2,3), ... lies inside a frame of `len` rows. */
  lemma PairInside(len: nat, j: nat)
    requires j < len / 2
    ensures 2 * j + 1 < len
  {
  }

  /** Every append is a whole record, so the lists stay of one length:
      starting from lists of one length, `_to_schema` returns its frame
      exactly when no check raised. */
  lemma RunKeepsColumnsEven(t: Table<Col>, h: nat, rows: seq<GameRow>, table: map<string, string>)
    requires Covers(t, Names) && HasHeight(t, h)
    ensures Rectangular(AppendRecords(t, Names, RunOn(rows, table).appended))
  {
    NamesDistinct();
    WholeOrEmptyKeepHeight(t, Names, RunOn(rows, table).appended, h);
  }

  /** A freshly built scraper fed one season's rows, paired and with no
      check aborting: column `Names[i]` holds field `i` of each game. */
  lemma FreshScraperColumns(rows: seq<GameRow>, table: map<string, string>)
    requires |rows| % 2 == 0
    requires forall j :: 0 <= j < |rows| / 2 ==> !Aborts(rows[2 * j], rows[2 * j + 1])
    ensures var t := AppendRecords(EmptyTable(Names), Names, RunOn(rows, table).appended);
            && HasHeight(t, |rows| / 2)
            && forall i :: 0 <= i < |Names| ==> t[Names[i]] == Column(SeasonGames(rows, table), i)
  {
    PairedRun(rows, table);
    var games := SeasonGames(rows, table);
    NamesDistinct();
    AppendFullRecords(EmptyTable(Names), Names, games);
    FullRecordsKeepHeight(EmptyTable(Names), Names, games, 0);
  }

  /** `MLBOddsScraper`. `schema` holds the lists `_to_schema` appends to
      through its shallow copy of the dict. */
  class Scraper {
    const sport: string
    const seasons: seq<int>
    /** `self.translator[self.sport]`. */
    const table: map<string, string>
    const schema: Schema<Col>

    predicate Valid()
      reads this, schema
    {
      schema.Valid() && schema.names == Names
    }

    constructor (years: seq<int>, table: map<string, string>)
      ensures Valid()
      ensures sport == "mlb" && seasons == years && this.table == table
      ensures fresh(schema) && schema.columns == EmptyTable(Names)
    {
      sport := "mlb";
      seasons := years;
      this.table := table;
      schema := new Schema(Names);
    }

    /** `_to_schema(df)`: `ok` is false when a check raises; the appends
        made before are kept, the failing pair's included. `warnings` are
        the warnings printed, in order. */
    method ToSchema(df: seq<GameRow>) returns (ok: bool, frame: Table<Col>, warnings: seq<Warning>)
      requires Valid()
      modifies schema
      ensures Valid()
      ensures schema.columns == AppendRecords(old(schema.columns), Names, RunOn(df, table).appended)
      ensures warnings == RunOn(df, table).notes
      ensures ok <==> !RunOn(df, table).failed && Rectangular(schema.columns)
      ensures ok ==> frame == schema.columns
    {
      var completed;
      completed, warnings := schema.Drive(Positions(|df|), StepFn(df, table));
      if !completed {
        return false, map[], warnings;
      }
      ok := Rectangular(schema.columns);
      frame := schema.columns;
    }
  }
}
