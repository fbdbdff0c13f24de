/** `NHLOddsScraper`: `_reformat_data` for one season's table (with the
    column layout of seasons up to 2013 and the date window of the 2020
    season), the season label of `driver`, and `_to_schema`. */
module Hockey {
  import opened Options
  import opened Decimal
  import opened Calendar
  import opened Cells
  import opened Sentinels
  import opened Dates
  import opened Pairing
  import opened Columns

  /** The keys of the schema dict, one constructor per key. */
  datatype Col =
    | Season | GameDate | HomeTeam | AwayTeam
    | Home1stPeriod | Away1stPeriod | Home2ndPeriod | Away2ndPeriod
    | Home3rdPeriod | Away3rdPeriod | HomeFinal | AwayFinal
    | MlHomeOpen | MlAwayOpen | MlHomeClose | MlAwayClose
    | SpreadHomeLine | SpreadAwayLine | SpreadHomeOdds | SpreadAwayOdds
    | TotalOpenLine | TotalOpenOdds | TotalCloseLine | TotalCloseOdds

  /** The key as the source spells it. */
  function KeyName(c: Col): string {
    match c
    case Season => "season"
    case GameDate => "date"
    case HomeTeam => "home_team"
    case AwayTeam => "away_team"
    case Home1stPeriod => "home_1stPeriod"
    case Away1stPeriod => "away_1stPeriod"
    case Home2ndPeriod => "home_2ndPeriod"
    case Away2ndPeriod => "away_2ndPeriod"
    case Home3rdPeriod => "home_3rdPeriod"
    case Away3rdPeriod => "away_3rdPeriod"
    case HomeFinal => "home_final"
    case AwayFinal => "away_final"
    case MlHomeOpen => "ML_H_op_odds"
    case MlAwayOpen => "ML_A_op_odds"
    case MlHomeClose => "ML_H_cl_odds"
    case MlAwayClose => "ML_A_cl_odds"
    case SpreadHomeLine => "S_H_cl_line"
    case SpreadAwayLine => "S_A_cl_line"
    case SpreadHomeOdds => "S_H_cl_odds"
    case SpreadAwayOdds => "S_A_cl_odds"
    case TotalOpenLine => "OU_op_line"
    case TotalOpenOdds => "OU_op_odds"
    case TotalCloseLine => "OU_cl_line"
    case TotalCloseOdds => "OU_cl_odds"
  }

  /** The columns in dict order, which is the order `_to_schema` appends in. */
  const Names: seq<Col> := [
    Season, GameDate, HomeTeam, AwayTeam,
    Home1stPeriod, Away1stPeriod, Home2ndPeriod, Away2ndPeriod,
    Home3rdPeriod, Away3rdPeriod, HomeFinal, AwayFinal,
    MlHomeOpen, MlAwayOpen, MlHomeClose, MlAwayClose,
    SpreadHomeLine, SpreadAwayLine, SpreadHomeOdds, SpreadAwayOdds,
    TotalOpenLine, TotalOpenOdds, TotalCloseLine, TotalCloseOdds]

  /** The season label `driver` puts in the address: the 2020 season's
      games are published under "2021". */
  function SeasonSlug(season: int): (r: Option<string>)
    ensures season == 2020 ==> r == Some("2021")
    ensures season != 2020 ==> r == MakeSeason(season)
  {
    if season != 2020 then MakeSeason(season) else Some("2021")
  }

  /** `is_cov` as `driver` sets it: only the 2020 season was played in
      the shortened calendar. */
  function Covid(season: int): (c: bool)
    ensures c <==> season == 2020
  {
    season == 2020
  }

  /** The month window `_reformat_data` resolves date codes with: January
      to March when `is_cov` is set, August to December otherwise. */
  function Window(covid: bool): (w: (int, int))
    ensures covid ==> w == (1, 3)
    ensures !covid ==> w == (8, 12)
  {
    if covid then (1, 3) else (8, 12)
  }

  /** A row of the frame `_reformat_data` builds. */
  datatype GameRow = GameRow(
    season: Cell, date: Cell, name: Cell,
    p1: Cell, p2: Cell, p3: Cell, final: Cell,
    openMl: Cell, closeMl: Cell,
    spreadLine: Cell, spreadOdds: Cell,
    openTotal: Cell, openTotalOdds: Cell, closeTotal: Cell, closeTotalOdds: Cell)

  /** `0 if x in self.blacklist else float(x)`: `None` when `float` raises. */
  function TokenOrFloat(c: Cell, num: Numerals): (r: Option<Cell>)
    ensures IsSentinel(c) ==> r == Some(Int(0))
    ensures !IsSentinel(c) ==> r == PyFloat(c, num)
    ensures r.Some? ==> !IsSentinel(r.value)
  {
    if IsSentinel(c) then Some(Int(0)) else PyFloat(c, num)
  }

  /** The layout of a season's table: from 2014 on the spread line and odds
      sit in columns 10 and 11 and the totals in 12-15; before, there is
      no spread and the totals sit in 10-13. The baseball scraper makes the
      same 2013/2014 split in its own `_reformat_data` (`Baseball.Shift`). */
  function Shift(season: int): (s: nat)
    ensures season > 2013 <==> s == 0
    ensures season <= 2013 <==> s == 2
  {
    if season > 2013 then 0 else 2
  }

  function Width(season: int): nat {
    16 - Shift(season)
  }

  /** The cells `_reformat_data` reads the spread and totals from, in the
      order spread line, spread odds, opening total line and odds, closing
      total line and odds. A season up to 2013 has no spread: the constant
      0 stands in for it. */
  function LineSources(cells: seq<Cell>, season: int): (src: seq<Cell>)
    requires |cells| >= Width(season)
    ensures |src| == 6
    ensures season > 2013 ==> src == cells[10..16]
    ensures season <= 2013 ==> src == [Int(0), Int(0)] + cells[10..14]
  {
    var s := Shift(season);
    [if season > 2013 then cells[10] else Int(0), if season > 2013 then cells[11] else Int(0),
     cells[12 - s], cells[13 - s], cells[14 - s], cells[15 - s]]
  }

  /** `0 if x in blacklist else float(x)` over the line cells. */
  function Lines(cells: seq<Cell>, season: int, num: Numerals): (r: Option<seq<Cell>>)
    requires |cells| >= Width(season)
    ensures r.Some? <==> forall k :: 0 <= k < 6 ==> TokenOrFloat(LineSources(cells, season)[k], num).Some?
    ensures r.Some? ==> |r.value| == 6 && forall k :: 0 <= k < 6 ==> Some(r.value[k]) == TokenOrFloat(LineSources(cells, season)[k], num)
  {
    MapAll(LineSources(cells, season), c => TokenOrFloat(c, num))
  }

  /** A season up to 2013 reads its spread line and odds as 0.0. */
  lemma NoSpreadBefore2014(cells: seq<Cell>, season: int, num: Numerals)
    requires season <= 2013 && |cells| >= Width(season)
    requires Lines(cells, season, num).Some?
    ensures Lines(cells, season, num).value[..2] == [Real(0.0), Real(0.0)]
  {
    var src := LineSources(cells, season);
    assert src[0] == Int(0) && src[1] == Int(0);
  }

  /** One scraped row as `_reformat_data` maps it. */
  function RowOf(cells: seq<Cell>, season: int, covid: bool, num: Numerals): (r: Option<GameRow>)
    ensures r.Some? <==> |cells| >= Width(season)
                         && CellDate(cells[0], season, Window(covid).0, Window(covid).1).Some?
                         && Lines(cells, season, num).Some?
    ensures r.Some? ==> r.value.season == Int(season)
                        && r.value.date == Text(CellDate(cells[0], season, Window(covid).0, Window(covid).1).value)
    ensures r.Some? ==> r.value.name == cells[3] && r.value.p1 == cells[4] && r.value.p2 == cells[5]
                        && r.value.p3 == cells[6] && r.value.final == cells[7]
    ensures r.Some? ==> r.value.openMl == Normalize(cells[8]) && r.value.closeMl == Normalize(cells[9])
    ensures r.Some? ==> r.value.spreadLine == Lines(cells, season, num).value[0]
                        && r.value.spreadOdds == Lines(cells, season, num).value[1]
                        && r.value.openTotal == Lines(cells, season, num).value[2]
                        && r.value.openTotalOdds == Lines(cells, season, num).value[3]
                        && r.value.closeTotal == Lines(cells, season, num).value[4]
                        && r.value.closeTotalOdds == Lines(cells, season, num).value[5]
  {
    if |cells| < Width(season) then None
    else match CellDate(cells[0], season, Window(covid).0, Window(covid).1)
      case None => None
      case Some(d) =>
        match Lines(cells, season, num)
        case None => None
        case Some(v) =>
          Some(GameRow(Int(season), Text(d), cells[3], cells[4], cells[5], cells[6], cells[7],
                       Normalize(cells[8]), Normalize(cells[9]), v[0], v[1], v[2], v[3], v[4], v[5]))
  }

  /** `_reformat_data(df, season, covid)`: a missing column is a KeyError,
      an unresolvable date code or an unreadable line a ValueError or
      TypeError; otherwise every row is mapped. */
  function Reformat(df: Frame, season: int, covid: bool, num: Numerals): (r: Option<seq<GameRow>>)
    requires df.WellFormed()
    ensures r.Some? ==> df.width >= Width(season)
    ensures r.Some? <==> df.width >= Width(season) && forall k :: 0 <= k < |df.rows| ==> RowOf(df.rows[k], season, covid, num).Some?
    ensures r.Some? ==> |r.value| == |df.rows|
    ensures r.Some? ==> forall k :: 0 <= k < |df.rows| ==> Some(r.value[k]) == RowOf(df.rows[k], season, covid, num)
  {
    if df.width < Width(season) then None
    else MapAll(df.rows, cells => RowOf(cells, season, covid, num))
  }

  /** For the 2020 season a January-to-March code is dated in 2020 and a
      later month in 2021. */
  lemma CovidSeasonYears(code: nat)
    requires 100 <= code <= 9999
    ensures var m, d := code / 100, code % 100;
            CellDate(Int(code), 2020, Window(Covid(2020)).0, Window(Covid(2020)).1)
              == if ValidDate(SeasonYear(2020, 1, 3, m), m, d) then Some(FormatIso(Date(SeasonYear(2020, 1, 3, m), m, d))) else None
    ensures 1 <= code / 100 <= 3 ==> SeasonYear(2020, 1, 3, code / 100) == 2020
    ensures 4 <= code / 100 <= 12 ==> SeasonYear(2020, 1, 3, code / 100) == 2021
  {
    ResolveCode(code, 2020, 1, 3);
  }

  /** No field is NaN. */
  predicate Clean(r: GameRow) {
    !r.season.Nan? && !r.date.Nan? && !r.name.Nan? && !r.p1.Nan? && !r.p2.Nan? && !r.p3.Nan?
    && !r.final.Nan? && !r.openMl.Nan? && !r.closeMl.Nan? && !r.spreadLine.Nan? && !r.spreadOdds.Nan?
    && !r.openTotal.Nan? && !r.openTotalOdds.Nan? && !r.closeTotal.Nan? && !r.closeTotalOdds.Nan?
  }

  /** `df.fillna(0)` on one row. */
  function Filled(r: GameRow): (f: GameRow)
    ensures Clean(f)
  {
    GameRow(FillNa(r.season), FillNa(r.date), FillNa(r.name), FillNa(r.p1), FillNa(r.p2), FillNa(r.p3),
            FillNa(r.final), FillNa(r.openMl), FillNa(r.closeMl), FillNa(r.spreadLine), FillNa(r.spreadOdds),
            FillNa(r.openTotal), FillNa(r.openTotalOdds), FillNa(r.closeTotal), FillNa(r.closeTotalOdds))
  }

  /** `int()` of each cell in turn, up to the first that raises. */
  function IntPrefix(cs: seq<Cell>, num: Numerals): (r: seq<Cell>)
    ensures |r| <= |cs|
    ensures forall i :: 0 <= i < |r| ==> PyInt(cs[i], num).Some? && r[i] == Int(PyInt(cs[i], num).value)
    ensures |r| < |cs| ==> PyInt(cs[|r|], num).None?
  {
    if cs == [] then []
    else match PyInt(cs[0], num)
      case None => []
      case Some(i) => [Int(i)] + IntPrefix(cs[1..], num)
  }

  /** The record of a selected pair, away row first, home row second, as
      far as the appends get: the four moneyline appends each convert with
      `int()` first, and the first that raises ends the record there. The
      record is whole exactly when none raises. */
  function Game(row: GameRow, next: GameRow, table: map<string, string>, num: Numerals): (rec: seq<Cell>)
    ensures 12 <= |rec| <= |Names|
    ensures |rec| < |Names| ==> |rec| <= 15
    ensures |rec| == |Names| <==> forall c :: c in MoneyLines(row, next) ==> PyInt(c, num).Some?
  {
    var ints := IntPrefix(MoneyLines(row, next), num);
    assert |ints| == 4 <==> forall c :: c in MoneyLines(row, next) ==> PyInt(c, num).Some? by {
      if |ints| < 4 {
        assert MoneyLines(row, next)[|ints|] in MoneyLines(row, next);
      }
    }
    if |ints| < 4 then Head(row, next, table) + ints else Head(row, next, table) + ints + Tail(row, next)
  }

  /** The moneylines in append order: home opening, away opening, home
      closing, away closing. */
  function MoneyLines(row: GameRow, next: GameRow): seq<Cell> {
    [next.openMl, row.openMl, next.closeMl, row.closeMl]
  }

  function Head(row: GameRow, next: GameRow, table: map<string, string>): seq<Cell> {
    [row.season, row.date, Translate(table, next.name), Translate(table, row.name),
     next.p1, row.p1, next.p2, row.p2, next.p3, row.p3, next.final, row.final]
  }

  function Tail(row: GameRow, next: GameRow): seq<Cell> {
    [next.spreadLine, row.spreadLine, next.spreadOdds, row.spreadOdds,
     next.openTotal, next.openTotalOdds, next.closeTotal, next.closeTotalOdds]
  }

  /** Where each field of a record comes from: season and date from the
      first row, the home team and the home scores from the second, the
      away side from the first; the moneylines are read as integers; the
      totals all come from the second row. */
  lemma GameFields(row: GameRow, next: GameRow, table: map<string, string>, num: Numerals)
    ensures var rec := Game(row, next, table, num);
            && rec[0] == row.season && rec[1] == row.date
            && rec[2] == Translate(table, next.name) && rec[3] == Translate(table, row.name)
            && rec[4] == next.p1 && rec[5] == row.p1 && rec[6] == next.p2 && rec[7] == row.p2
            && rec[8] == next.p3 && rec[9] == row.p3 && rec[10] == next.final && rec[11] == row.final
            && (forall i :: 12 <= i < |rec| && i < 16 ==> rec[i] == Int(PyInt(MoneyLines(row, next)[i - 12], num).value))
            && (|rec| == |Names| ==> rec[16..] == Tail(row, next))
  {
    var rec := Game(row, next, table, num);
    GameSplit(row, next, table, num);
    HeadFields(rec, row, next, table);
  }

  /** A record is the head, the moneylines read so far and, when whole,
      the tail. */
  lemma GameSplit(row: GameRow, next: GameRow, table: map<string, string>, num: Numerals)
    ensures var rec := Game(row, next, table, num);
            && rec[..12] == Head(row, next, table)
            && (forall i :: 12 <= i < |rec| && i < 16 ==> rec[i] == Int(PyInt(MoneyLines(row, next)[i - 12], num).value))
            && (|rec| == |Names| ==> rec[16..] == Tail(row, next))
  {
    var ints := IntPrefix(MoneyLines(row, next), num);
    var rec := Game(row, next, table, num);
    assert rec[12..12 + |ints|] == ints;
  }

  lemma HeadFields(rec: seq<Cell>, row: GameRow, next: GameRow, table: map<string, string>)
    requires |rec| >= 12 && rec[..12] == Head(row, next, table)
    ensures rec[0] == row.season && rec[1] == row.date
    ensures rec[2] == Translate(table, next.name) && rec[3] == Translate(table, row.name)
    ensures rec[4] == next.p1 && rec[5] == row.p1 && rec[6] == next.p2 && rec[7] == row.p2
    ensures rec[8] == next.p3 && rec[9] == row.p3 && rec[10] == next.final && rec[11] == row.final
  {
    var h := Head(row, next, table);
    assert forall i :: 0 <= i < 12 ==> rec[i] == h[i];
  }

  /** A frame row with its index label. */
  type Labelled = (int, GameRow)

  /** One loop iteration: pairs whose first label is even are skipped, a
      record cut short by an `int()` is appended as far as it got. */
  function PairStep(p: (Labelled, Labelled), table: map<string, string>, num: Numerals): Step<()> {
    if p.0.0 % 2 == 0 then Skip
    else
      var rec := Game(p.0.1, p.1.1, table, num);
      if |rec| == |Names| then Emit(rec, []) else Fail(rec, [])
  }

  function StepFn(table: map<string, string>, num: Numerals): ((Labelled, Labelled)) --> Step<()> {
    (p: (Labelled, Labelled)) => PairStep(p, table, num)
  }

  /** `df.fillna(0)` on the whole frame; labels are kept. The hockey
      `_to_schema` repeats the football one here (`Football.FillAll`). */
  function FillAll(rows: seq<Labelled>): (f: seq<Labelled>)
    ensures |f| == |rows|
    ensures forall k :: 0 <= k < |rows| ==> f[k] == (rows[k].0, Filled(rows[k].1))
  {
    seq(|rows|, k requires 0 <= k < |rows| => (rows[k].0, Filled(rows[k].1)))
  }

  /** The pairs `_to_schema` iterates over: the filled frame without its
      first row, each row paired with the next. */
  function Pairs(rows: seq<Labelled>): (ps: seq<(Labelled, Labelled)>)
    requires |rows| >= 1
    ensures |ps| == if |rows| == 1 then 0 else |rows| - 2
    ensures forall k :: 0 <= k < |ps| ==>
              ps[k] == ((rows[k + 1].0, Filled(rows[k + 1].1)), (rows[k + 2].0, Filled(rows[k + 2].1)))
  {
    var f := FillAll(rows);
    Pairwise(f[1..])
  }

  /** What `_to_schema(df)` does to the schema: an empty frame raises
      StopIteration before the loop. */
  function RunOn(rows: seq<Labelled>, table: map<string, string>, num: Numerals): (r: Columns.Run<()>)
    ensures rows == [] ==> r.failed && r.appended == []
    ensures RecordsFit(r.appended, |Names|)
  {
    if rows == [] then Columns.Run([], true, [])
    else
      var steps := StepsOf(Pairs(rows), StepFn(table, num));
      RunFits(steps, |Names|);
      RunOf(steps)
  }

  lemma NamesDistinct()
    ensures Distinct(Names)
  {
    NamesInOrder();
  }

  /** Where each key sits in the schema. */
  function Position(c: Col): nat {
    match c
    case Season => 0 case GameDate => 1 case HomeTeam => 2 case AwayTeam => 3
    case Home1stPeriod => 4 case Away1stPeriod => 5 case Home2ndPeriod => 6 case Away2ndPeriod => 7
    case Home3rdPeriod => 8 case Away3rdPeriod => 9 case HomeFinal => 10 case AwayFinal => 11
    case MlHomeOpen => 12 case MlAwayOpen => 13 case MlHomeClose => 14 case MlAwayClose => 15
    case SpreadHomeLine => 16 case SpreadAwayLine => 17 case SpreadHomeOdds => 18 case SpreadAwayOdds => 19
    case TotalOpenLine => 20 case TotalOpenOdds => 21 case TotalCloseLine => 22 case TotalCloseOdds => 23
  }

  lemma NamesInOrder()
    ensures forall i :: 0 <= i < |Names| ==> Position(Names[i]) == i
  {
  }

  /** Each step appends a whole record, or at least twelve values of one. */
  lemma StepShapes(rows: seq<Labelled>, table: map<string, string>, num: Numerals)
    requires |rows| >= 1
    ensures StepsShaped(StepsOf(Pairs(rows), StepFn(table, num)), |Names|, 12)
  {
    var steps := StepsOf(Pairs(rows), StepFn(table, num));
    forall k | 0 <= k < |steps|
      ensures steps[k].Emit? ==> |steps[k].rec| == |Names|
      ensures steps[k].Fail? ==> 12 <= |steps[k].partial| < |Names|
    {
      StepAt(rows, table, num, k);
      PairStepShape(Pairs(rows)[k], table, num);
    }
  }

  /** One step appends a whole record, or twelve to fifteen values of one:
      at most three `int()` values precede the one that raises. */
  lemma PairStepShape(p: (Labelled, Labelled), table: map<string, string>, num: Numerals)
    ensures PairStep(p, table, num).Emit? ==> |PairStep(p, table, num).rec| == |Names|
    ensures PairStep(p, table, num).Fail? ==> 12 <= |PairStep(p, table, num).partial| <= 15
  {
  }

  /** Once an `int()` has raised inside `_to_schema`, the schema's first
      list is one value longer than its last. */
  lemma FailedRunRagged(t: Table<Col>, h: nat, rows: seq<Labelled>, table: map<string, string>, num: Numerals)
    requires Covers(t, Names) && HasHeight(t, h)
    requires rows != [] && RunOn(rows, table, num).failed
    ensures |AppendRecords(t, Names, RunOn(rows, table, num).appended)[Names[0]]|
            == |AppendRecords(t, Names, RunOn(rows, table, num).appended)[Names[|Names| - 1]]| + 1
  {
    NamesDistinct();
    RunShapes(rows, table, num);
    ShortRunRagged(t, Names, RunOn(rows, table, num), 12, h);
  }

  /** The records a run appends: all whole when nothing raised; otherwise
      whole except the last, which holds 12 to 23 values. */
  lemma RunShapes(rows: seq<Labelled>, table: map<string, string>, num: Numerals)
    requires rows != []
    ensures EndsShort(RunOn(rows, table, num), |Names|, 12)
  {
    RunOnSteps(rows, table, num);
    StepShapes(rows, table, num);
    RunEndsShort(StepsOf(Pairs(rows), StepFn(table, num)), |Names|, 12);
  }

  /** A non-empty frame's run is the run of its pairs' steps. */
  lemma RunOnSteps(rows: seq<Labelled>, table: map<string, string>, num: Numerals)
    requires rows != []
    ensures RunOn(rows, table, num) == RunOf(StepsOf(Pairs(rows), StepFn(table, num)))
  {
  }

  /** So that call fails, and so does every later call, whatever it is
      given. */
  lemma FailureDesyncs(t: Table<Col>, h: nat, rows: seq<Labelled>, later: seq<Labelled>, table: map<string, string>, num: Numerals)
    requires Covers(t, Names) && HasHeight(t, h)
    requires rows != [] && RunOn(rows, table, num).failed
    ensures !Rectangular(AppendRecords(t, Names, RunOn(rows, table, num).appended))
    ensures !Rectangular(AppendRecords(AppendRecords(t, Names, RunOn(rows, table, num).appended), Names, RunOn(later, table, num).appended))
  {
    NamesDistinct();
    FailedRunRagged(t, h, rows, table, num);
    var t1 := AppendRecords(t, Names, RunOn(rows, table, num).appended);
    StaysRagged(t1, Names, RunOn(later, table, num).appended);
  }

  /** Starting from lists of one length, `_to_schema` on a non-empty frame
      leaves them of one length exactly when no `int()` raised. */
  lemma EvenExactlyWithoutRaise(t: Table<Col>, h: nat, rows: seq<Labelled>, table: map<string, string>, num: Numerals)
    requires Covers(t, Names) && HasHeight(t, h) && rows != []
    ensures Rectangular(AppendRecords(t, Names, RunOn(rows, table, num).appended)) <==> !RunOn(rows, table, num).failed
  {
    NamesDistinct();
    if RunOn(rows, table, num).failed {
      FailedRunRagged(t, h, rows, table, num);
    } else {
      RunShapes(rows, table, num);
      FullRecordsKeepHeight(t, Names, RunOn(rows, table, num).appended, h);
    }
  }

  /** Every pair of rows (1,2), (3,4), ... converts without raising. */
  predicate Readable(rows: seq<Labelled>, table: map<string, string>, num: Numerals) {
    forall j :: 0 <= j < (|rows| - 1) / 2 ==>
      |Game(Filled(rows[2 * j + 1].1), Filled(rows[2 * j + 2].1), table, num)| == |Names|
  }

  /** The games of rows (1,2), (3,4), ...: away row first, home row second. */
  function SeasonGames(rows: seq<Labelled>, table: map<string, string>, num: Numerals): (gs: seq<seq<Cell>>)
    ensures |gs| == if |rows| == 0 then 0 else (|rows| - 1) / 2
    ensures forall j :: 0 <= j < |gs| ==> 2 * j + 2 < |rows| && gs[j] == GameOfPair(rows, j, table, num)
  {
    var n := if |rows| == 0 then 0 else (|rows| - 1) / 2;
    seq(n, j requires 0 <= j < n => GameOfPair(rows, j, table, num))
  }

  /** The record of rows `2j + 1` and `2j + 2`. */
  function GameOfPair(rows: seq<Labelled>, j: nat, table: map<string, string>, num: Numerals): seq<Cell>
    requires 2 * j + 2 < |rows|
  {
    Game(Filled(rows[2 * j + 1].1), Filled(rows[2 * j + 2].1), table, num)
  }

  /** With the labels 0, 1, 2, ... of a single season's frame and every
      moneyline readable, the run appends one whole record per pair of rows
      (1,2), (3,4), ... and nothing else. The proof follows
      `Football.PositionalRun`, as the two loops share their selection. */
  lemma PositionalRun(rows: seq<Labelled>, table: map<string, string>, num: Numerals)
    requires |rows| >= 1
    requires forall k :: 0 <= k < |rows| ==> rows[k].0 == k
    requires Readable(rows, table, num)
    ensures RunOn(rows, table, num) == Columns.Run(SeasonGames(rows, table, num), false, [])
  {
    var games := SeasonGames(rows, table, num);
    var steps := StepsOf(Pairs(rows), StepFn(table, num));
    RunOnSteps(rows, table, num);
    PositionalCounts(|rows|);
    forall j | 0 <= j < |games|
      ensures steps[2 * j] == Emit(games[j], [])
    {
      PositionalPairInside(|rows|, j);
      GameAt(rows, table, num, j);
      EvenStep(rows, table, num, j);
    }
    forall j | 0 <= j && 2 * j + 1 < |steps|
      ensures steps[2 * j + 1] == Skip
    {
      OddStep(rows, table, num, j);
    }
    AlternatingRun(steps, games);
  }

  /** Step `2j` appends the record of rows `2j + 1` and `2j + 2` when it
      is whole. */
  lemma EvenStep(rows: seq<Labelled>, table: map<string, string>, num: Numerals, j: nat)
    requires 2 * j + 2 < |rows|
    requires rows[2 * j + 1].0 == 2 * j + 1
    requires |Game(Filled(rows[2 * j + 1].1), Filled(rows[2 * j + 2].1), table, num)| == |Names|
    ensures 2 * j < |Pairs(rows)|
    ensures StepsOf(Pairs(rows), StepFn(table, num))[2 * j]
              == Emit(Game(Filled(rows[2 * j + 1].1), Filled(rows[2 * j + 2].1), table, num), [])
  {
    var p := ((rows[2 * j + 1].0, Filled(rows[2 * j + 1].1)), (rows[2 * j + 2].0, Filled(rows[2 * j + 2].1)));
    PairAt(rows, 2 * j);
    StepAt(rows, table, num, 2 * j);
    SelectedStep(p, table, num);
  }

  /** Step `2j + 1` is skipped. */
  lemma OddStep(rows: seq<Labelled>, table: map<string, string>, num: Numerals, j: nat)
    requires |rows| >= 1 && 2 * j + 1 < |Pairs(rows)|
    requires rows[2 * j + 2].0 == 2 * j + 2
    ensures StepsOf(Pairs(rows), StepFn(table, num))[2 * j + 1] == Skip
  {
    var k := 2 * j + 1;
    var p := ((rows[k + 1].0, Filled(rows[k + 1].1)), (rows[k + 2].0, Filled(rows[k + 2].1)));
    PairAt(rows, k);
    StepAt(rows, table, num, k);
    SkippedStep(p, table, num);
  }

  /** Step `k` is the loop body applied to pair `k`. */
  lemma StepAt(rows: seq<Labelled>, table: map<string, string>, num: Numerals, k: nat)
    requires |rows| >= 1 && k < |Pairs(rows)|
    ensures StepsOf(Pairs(rows), StepFn(table, num))[k] == PairStep(Pairs(rows)[k], table, num)
  {
  }

  /** Pair `k` of the loop is rows `k + 1` and `k + 2`, filled. */
  lemma PairAt(rows: seq<Labelled>, k: nat)
    requires |rows| >= 1 && k < |Pairs(rows)|
    ensures Pairs(rows)[k] == ((rows[k + 1].0, Filled(rows[k + 1].1)), (rows[k + 2].0, Filled(rows[k + 2].1)))
  {
  }

  /** Game `j` is the record of rows `2j + 1` and `2j + 2`. */
  lemma GameAt(rows: seq<Labelled>, table: map<string, string>, num: Numerals, j: nat)
    requires 2 * j + 2 < |rows|
    ensures j < |SeasonGames(rows, table, num)|
    ensures SeasonGames(rows, table, num)[j] == Game(Filled(rows[2 * j + 1].1), Filled(rows[2 * j + 2].1), table, num)
  {
  }

  /** Every game of a readable season is a whole record. */
  lemma SeasonGamesWhole(rows: seq<Labelled>, table: map<string, string>, num: Numerals)
    requires Readable(rows, table, num)
    ensures forall j :: 0 <= j < |SeasonGames(rows, table, num)| ==> |SeasonGames(rows, table, num)[j]| == |Names|
  {
  }

  /** A pair whose first label is odd and whose moneylines all convert
      appends its whole record. */
  lemma SelectedStep(p: (Labelled, Labelled), table: map<string, string>, num: Numerals)
    requires p.0.0 % 2 == 1 && |Game(p.0.1, p.1.1, table, num)| == |Names|
    ensures PairStep(p, table, num) == Emit(Game(p.0.1, p.1.1, table, num), [])
  {
  }

  /** A pair whose first label is even is skipped. */
  lemma SkippedStep(p: (Labelled, Labelled), table: map<string, string>, num: Numerals)
    requires p.0.0 % 2 == 0
    ensures PairStep(p, table, num) == Skip
  {
  }

  /** A freshly built scraper fed one season's frame: column `Names[i]`
      holds field `i` of each game, one value per game. */
  lemma FreshScraperColumns(rows: seq<Labelled>, table: map<string, string>, num: Numerals)
    requires |rows| >= 1
    requires forall k :: 0 <= k < |rows| ==> rows[k].0 == k
    requires Readable(rows, table, num)
    ensures var games := SeasonGames(rows, table, num);
            var t := AppendRecords(EmptyTable(Names), Names, RunOn(rows, table, num).appended);
            && HasHeight(t, (|rows| - 1) / 2)
            && forall i :: 0 <= i < |Names| ==> t[Names[i]] == Column(games, i)
  {
    PositionalRun(rows, table, num);
    var games := SeasonGames(rows, table, num);
    SeasonGamesWhole(rows, table, num);
    NamesDistinct();
    AppendFullRecords(EmptyTable(Names), Names, games);
    FullRecordsKeepHeight(EmptyTable(Names), Names, games, 0);
  }

  /** `NHLOddsScraper`. `schema` holds the lists `_to_schema` appends to
      through its shallow copy of the dict. */
  class Scraper {
    const sport: string
    const seasons: seq<int>
    /** `self.translator[self.sport]`. */
    const table: map<string, string>
    const schema: Schema<Col>

    predicate Valid()
      reads this, schema
    {
      schema.Valid() && schema.names == Names
    }

    constructor (years: seq<int>, table: map<string, string>)
      ensures Valid()
      ensures sport == "nhl" && seasons == years && this.table == table
      ensures fresh(schema) && schema.columns == EmptyTable(Names)
    {
      sport := "nhl";
      seasons := years;
      this.table := table;
      schema := new Schema(Names);
    }

    /** `_to_schema(df)`: `ok` is false when it raises, inside the loop or
        in `pd.DataFrame(new_df)`; the appends made before are kept, a cut
        short record included. */
    method ToSchema(df: seq<Labelled>, num: Numerals) returns (ok: bool, frame: Table<Col>)
      requires Valid()
      modifies schema
      ensures Valid()
      ensures schema.columns == AppendRecords(old(schema.columns), Names, RunOn(df, table, num).appended)
      ensures ok <==> !RunOn(df, table, num).failed && Rectangular(schema.columns)
      ensures ok ==> frame == schema.columns
    {
      if |df| == 0 {
        return false, map[];
      }
      var completed, _ := schema.Drive(Pairs(df), StepFn(table, num));
      if !completed {
        return false, map[];
      }
      ok := Rectangular(schema.columns);
      frame := schema.columns;
    }
  }
}
