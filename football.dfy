/** `NFLOddsScraper` and `NBAOddsScraper` (the same pipeline under another
    sport name): `_reformat_data` for one season's table and `_to_schema`
    over the concatenated, labelled rows. */
module Football {
  import opened Options
  import opened Cells
  import opened Sentinels
  import opened Dates
  import opened Pairing
  import opened Columns
  import opened Spreads

  /** The keys of the schema dict, one constructor per key. */
  datatype Col =
    | Season | GameDate | HomeTeam | AwayTeam
    | Home1stQtr | Away1stQtr | Home2ndQtr | Away2ndQtr
    | Home3rdQtr | Away3rdQtr | Home4thQtr | Away4thQtr
    | HomeFinal | AwayFinal | MlHomeClose | MlAwayClose
    | HomeOpenSpread | AwayOpenSpread | SpreadHomeClose | SpreadAwayClose
    | Home2HSpread | Away2HSpread | Total2H | TotalOpen | TotalClose

  /** The key as the source spells it. */
  function KeyName(c: Col): string {
    match c
    case Season => "season"
    case GameDate => "date"
    case HomeTeam => "home_team"
    case AwayTeam => "away_team"
    case Home1stQtr => "home_1stQtr"
    case Away1stQtr => "away_1stQtr"
    case Home2ndQtr => "home_2ndQtr"
    case Away2ndQtr => "away_2ndQtr"
    case Home3rdQtr => "home_3rdQtr"
    case Away3rdQtr => "away_3rdQtr"
    case Home4thQtr => "home_4thQtr"
    case Away4thQtr => "away_4thQtr"
    case HomeFinal => "home_final"
    case AwayFinal => "away_final"
    case MlHomeClose => "ML_H_cl_odds"
    case MlAwayClose => "ML_A_cl_odds"
    case HomeOpenSpread => "home_open_spread"
    case AwayOpenSpread => "away_open_spread"
    case SpreadHomeClose => "S_H_cl_line"
    case SpreadAwayClose => "S_A_cl_line"
    case Home2HSpread => "home_2H_spread"
    case Away2HSpread => "away_2H_spread"
    case Total2H => "2H_total"
    case TotalOpen => "OU_op_line"
    case TotalClose => "OU_cl_line"
  }

  /** The columns in dict order, which is the order `_to_schema` appends in. */
  const Names: seq<Col> := [
    Season, GameDate, HomeTeam, AwayTeam,
    Home1stQtr, Away1stQtr, Home2ndQtr, Away2ndQtr,
    Home3rdQtr, Away3rdQtr, Home4thQtr, Away4thQtr,
    HomeFinal, AwayFinal, MlHomeClose, MlAwayClose,
    HomeOpenSpread, AwayOpenSpread, SpreadHomeClose, SpreadAwayClose,
    Home2HSpread, Away2HSpread, Total2H, TotalOpen, TotalClose]

  /** A row of the frame `_reformat_data` builds: one team's line of a game. */
  datatype GameRow = GameRow(
    season: Cell, date: Cell, name: Cell,
    q1: Cell, q2: Cell, q3: Cell, q4: Cell, final: Cell,
    openOdds: Cell, closeOdds: Cell, closeMl: Cell, halfOdds: Cell)

  /** One scraped row as `_reformat_data` maps it: the date code resolved in
      the August-December window, team and scores copied from columns 3-8,
      placeholder tokens in the three line columns (9, 10, 12) read as 0,
      and the closing moneyline (11) copied as it is. */
  function RowOf(cells: seq<Cell>, season: int): (r: Option<GameRow>)
    ensures r.Some? <==> |cells| >= 13 && CellDate(cells[0], season, 8, 12).Some?
    ensures r.Some? ==> r.value.season == Int(season) && r.value.date == Text(CellDate(cells[0], season, 8, 12).value)
    ensures r.Some? ==> r.value.name == cells[3] && r.value.final == cells[8] && r.value.closeMl == cells[11]
    ensures r.Some? ==> r.value.q1 == cells[4] && r.value.q2 == cells[5] && r.value.q3 == cells[6]
                        && r.value.q4 == cells[7]
    ensures r.Some? ==> r.value.openOdds == Normalize(cells[9]) && r.value.closeOdds == Normalize(cells[10])
                        && r.value.halfOdds == Normalize(cells[12])
  {
    if |cells| < 13 then None
    else match CellDate(cells[0], season, 8, 12)
      case None => None
      case Some(d) =>
        Some(GameRow(Int(season), Text(d), cells[3], cells[4], cells[5], cells[6], cells[7], cells[8],
                     Normalize(cells[9]), Normalize(cells[10]), cells[11], Normalize(cells[12])))
  }

  /** `_reformat_data(df, season)`: a missing column is a KeyError and an
      unresolvable date code a ValueError; otherwise every row is mapped. */
  function Reformat(df: Frame, season: int): (r: Option<seq<GameRow>>)
    requires df.WellFormed()
    ensures r.Some? <==> df.width >= 13 && forall k :: 0 <= k < |df.rows| ==> CellDate(df.rows[k][0], season, 8, 12).Some?
    ensures r.Some? ==> |r.value| == |df.rows|
    ensures r.Some? ==> forall k :: 0 <= k < |df.rows| ==> Some(r.value[k]) == RowOf(df.rows[k], season)
  {
    if df.width < 13 then None
    else MapAll(df.rows, cells => RowOf(cells, season))
  }

  /** After `_reformat_data` no line column holds a placeholder token. */
  lemma ReformatClearsTokens(df: Frame, season: int, k: nat)
    requires df.WellFormed() && Reformat(df, season).Some? && k < |df.rows|
    ensures var row := Reformat(df, season).value[k];
            !IsSentinel(row.openOdds) && !IsSentinel(row.closeOdds) && !IsSentinel(row.halfOdds)
  {
  }

  /** No field is NaN. */
  predicate Clean(r: GameRow) {
    !r.season.Nan? && !r.date.Nan? && !r.name.Nan? && !r.q1.Nan? && !r.q2.Nan? && !r.q3.Nan?
    && !r.q4.Nan? && !r.final.Nan? && !r.openOdds.Nan? && !r.closeOdds.Nan? && !r.closeMl.Nan? && !r.halfOdds.Nan?
  }

  /** `df.fillna(0)` on one row. */
  function Filled(r: GameRow): (f: GameRow)
    ensures Clean(f)
  {
    GameRow(FillNa(r.season), FillNa(r.date), FillNa(r.name), FillNa(r.q1), FillNa(r.q2), FillNa(r.q3),
            FillNa(r.q4), FillNa(r.final), FillNa(r.openOdds), FillNa(r.closeOdds), FillNa(r.closeMl),
            FillNa(r.halfOdds))
  }

  /** `float()` of a row's opening, closing and second-half values. */
  function QuoteOf(r: GameRow, num: Numerals): (q: Option<Quote>)
    requires Clean(r)
    ensures q.Some? <==> FloatValue(r.openOdds, num).Some? && FloatValue(r.closeOdds, num).Some?
                         && FloatValue(r.halfOdds, num).Some?
    ensures q.Some? ==> q.value == Quote(FloatValue(r.openOdds, num).value, FloatValue(r.closeOdds, num).value,
                                         FloatValue(r.halfOdds, num).value)
  {
    match (FloatValue(r.openOdds, num), FloatValue(r.closeOdds, num), FloatValue(r.halfOdds, num))
    case (Some(o), Some(c), Some(h)) => Some(Quote(o, c, h))
    case _ => None
  }

  /** The moneyline and line columns of a record, in schema order. */
  function LineCells(homeMl: int, awayMl: int, l: Lines): seq<Cell> {
    [Int(homeMl), Int(awayMl), Real(l.homeOpenSpread), Real(l.awayOpenSpread),
     Real(l.homeCloseSpread), Real(l.awayCloseSpread), Real(l.homeHalfSpread), Real(l.awayHalfSpread),
     Real(l.halfTotal), Real(l.openTotal), Real(l.closeTotal)]
  }

  /** The record `_to_schema` appends for a selected pair, the away team's
      `row` followed by the home team's `next`; `None` when an `int()` or a
      `float()` raises, which happens before the first append. */
  function Game(row: GameRow, next: GameRow, table: map<string, string>, num: Numerals): (r: Option<seq<Cell>>)
    requires Clean(row) && Clean(next)
    ensures r.Some? <==> PyInt(next.closeMl, num).Some? && PyInt(row.closeMl, num).Some?
                         && QuoteOf(row, num).Some? && QuoteOf(next, num).Some?
    ensures r.Some? ==> |r.value| == |Names|
  {
    match (PyInt(next.closeMl, num), PyInt(row.closeMl, num), QuoteOf(row, num), QuoteOf(next, num))
    case (Some(homeMl), Some(awayMl), Some(away), Some(home)) =>
      Some([row.season, row.date, Translate(table, next.name), Translate(table, row.name),
            next.q1, row.q1, next.q2, row.q2, next.q3, row.q3, next.q4, row.q4, next.final, row.final]
           + LineCells(homeMl, awayMl, Derive(away, home, homeMl, awayMl)))
    case _ => None
  }

  /** Where each field of a game's record comes from: season and date from
      the first row, the home team's figures from the second row and the
      away team's from the first, and the lines as `Derive` computes them
      from the two rows' closing moneylines and quotes. */
  lemma GameFields(row: GameRow, next: GameRow, table: map<string, string>, num: Numerals)
    requires Clean(row) && Clean(next)
    requires Game(row, next, table, num).Some?
    ensures var rec := Game(row, next, table, num).value;
            && rec[0] == row.season && rec[1] == row.date
            && rec[2] == Translate(table, next.name) && rec[3] == Translate(table, row.name)
            && rec[4..14] == [next.q1, row.q1, next.q2, row.q2, next.q3, row.q3,
                              next.q4, row.q4, next.final, row.final]
            && var homeMl, awayMl := PyInt(next.closeMl, num).value, PyInt(row.closeMl, num).value;
               rec[14..] == LineCells(homeMl, awayMl, Derive(QuoteOf(row, num).value, QuoteOf(next, num).value, homeMl, awayMl))
  {
  }

  /** A frame row with its index label. */
  type Labelled = (int, GameRow)

  /** `df.fillna(0)` on the whole frame; labels are kept. */
  function FillAll(rows: seq<Labelled>): (f: seq<Labelled>)
    ensures |f| == |rows|
    ensures forall k :: 0 <= k < |rows| ==> f[k] == (rows[k].0, Filled(rows[k].1))
  {
    seq(|rows|, k requires 0 <= k < |rows| => (rows[k].0, Filled(rows[k].1)))
  }

  predicate AllClean(rows: seq<Labelled>) {
    forall k :: 0 <= k < |rows| ==> Clean(rows[k].1)
  }

  /** One loop iteration: pairs whose first label is even are skipped. */
  function PairStep(p: (Labelled, Labelled), table: map<string, string>, num: Numerals): Step<()>
    requires Clean(p.0.1) && Clean(p.1.1)
  {
    if p.0.0 % 2 == 0 then Skip
    else match Game(p.0.1, p.1.1, table, num)
      case None => Fail([], [])
      case Some(rec) => Emit(rec, [])
  }

  /** The loop body as a function of the pair. */
  function StepFn(table: map<string, string>, num: Numerals): ((Labelled, Labelled)) --> Step<()> {
    (p: (Labelled, Labelled)) requires Clean(p.0.1) && Clean(p.1.1) => PairStep(p, table, num)
  }

  /** The pairs `_to_schema` iterates over: the filled frame without its
      first row, each row paired with the next. */
  function Pairs(rows: seq<Labelled>): (ps: seq<(Labelled, Labelled)>)
    requires |rows| >= 1
    ensures |ps| == if |rows| == 1 then 0 else |rows| - 2
    ensures forall k :: 0 <= k < |ps| ==>
              ps[k] == ((rows[k + 1].0, Filled(rows[k + 1].1)), (rows[k + 2].0, Filled(rows[k + 2].1)))
    ensures forall k :: 0 <= k < |ps| ==> Clean(ps[k].0.1) && Clean(ps[k].1.1)
  {
    var f := FillAll(rows);
    Pairwise(f[1..])
  }

  /** What `_to_schema(df)` does to the schema: `next(progress)` on an empty
      frame raises StopIteration before the loop. */
  function RunOn(rows: seq<Labelled>, table: map<string, string>, num: Numerals): (r: Columns.Run<()>)
    ensures rows == [] ==> r.failed && r.appended == []
    ensures WholeOrEmpty(r.appended, |Names|)
  {
    if rows == [] then Columns.Run([], true, [])
    else
      var steps := StepsOf(Pairs(rows), StepFn(table, num));
      RunWholeOrEmpty(steps, |Names|);
      RunOf(steps)
  }

  lemma NamesDistinct()
    ensures Distinct(Names)
  {
    NamesInOrder();
  }

  /** Where each key sits in the schema. */
  function Position(c: Col): nat {
    match c
    case Season => 0 case GameDate => 1 case HomeTeam => 2 case AwayTeam => 3
    case Home1stQtr => 4 case Away1stQtr => 5 case Home2ndQtr => 6 case Away2ndQtr => 7
    case Home3rdQtr => 8 case Away3rdQtr => 9 case Home4thQtr => 10 case Away4thQtr => 11
    case HomeFinal => 12 case AwayFinal => 13 case MlHomeClose => 14 case MlAwayClose => 15
    case HomeOpenSpread => 16 case AwayOpenSpread => 17 case SpreadHomeClose => 18 case SpreadAwayClose => 19
    case Home2HSpread => 20 case Away2HSpread => 21 case Total2H => 22 case TotalOpen => 23 case TotalClose => 24
  }

  lemma NamesInOrder()
    ensures forall i :: 0 <= i < |Names| ==> Position(Names[i]) == i
  {
  }

  /** Each step emits a whole record or fails before its first append. */
  lemma StepShapes(rows: seq<Labelled>, table: map<string, string>, num: Numerals)
    requires |rows| >= 1
    ensures var steps := StepsOf(Pairs(rows), StepFn(table, num));
            && (forall k :: 0 <= k < |steps| && steps[k].Emit? ==> |steps[k].rec| == |Names|)
            && (forall k :: 0 <= k < |steps| && steps[k].Fail? ==> steps[k].partial == [])
  {
  }

  /** Every record is whole or empty, so the columns stay of one length:
      after `_to_schema` `pd.DataFrame(new_df)` can only fail if the schema
      was already uneven. */
  lemma RunKeepsColumnsEven(t: Table<Col>, rows: seq<Labelled>, table: map<string, string>, num: Numerals, h: nat)
    requires Covers(t, Names) && HasHeight(t, h)
    ensures Rectangular(AppendRecords(t, Names, RunOn(rows, table, num).appended))
  {
    NamesDistinct();
    WholeOrEmptyKeepHeight(t, Names, RunOn(rows, table, num).appended, h);
  }

  /** Every pair of rows (1,2), (3,4), ... converts without raising. */
  predicate Readable(rows: seq<Labelled>, table: map<string, string>, num: Numerals) {
    forall j :: 0 <= j < (|rows| - 1) / 2 ==>
      Game(Filled(rows[2 * j + 1].1), Filled(rows[2 * j + 2].1), table, num).Some?
  }

  /** The games of rows (1,2), (3,4), ...: away row first, home row second. */
  function SeasonGames(rows: seq<Labelled>, table: map<string, string>, num: Numerals): (gs: seq<seq<Cell>>)
    requires Readable(rows, table, num)
    ensures |gs| == if |rows| == 0 then 0 else (|rows| - 1) / 2
    ensures forall j :: 0 <= j < |gs| ==>
              gs[j] == Game(Filled(rows[2 * j + 1].1), Filled(rows[2 * j + 2].1), table, num).value
  {
    var n := if |rows| == 0 then 0 else (|rows| - 1) / 2;
    seq(n, j requires 0 <= j < n => GameOfPair(rows, j, table, num))
  }

  /** The record of rows `2j + 1` and `2j + 2`. */
  function GameOfPair(rows: seq<Labelled>, j: nat, table: map<string, string>, num: Numerals): seq<Cell>
    requires 2 * j + 2 < |rows|
    requires Game(Filled(rows[2 * j + 1].1), Filled(rows[2 * j + 2].1), table, num).Some?
  {
    Game(Filled(rows[2 * j + 1].1), Filled(rows[2 * j + 2].1), table, num).value
  }

  /** Every game of a readable season is a whole record. */
  lemma SeasonGamesWhole(rows: seq<Labelled>, table: map<string, string>, num: Numerals)
    requires Readable(rows, table, num)
    ensures forall j :: 0 <= j < |SeasonGames(rows, table, num)| ==> |SeasonGames(rows, table, num)[j]| == |Names|
  {
  }

  /** With the labels 0, 1, 2, ... of a single season's frame and every
      line readable, the run appends one record per pair of rows (1,2),
      (3,4), ... and nothing else: row 0 is dropped and the pairs (2,3),
      (4,5), ... are skipped. */
  lemma PositionalRun(rows: seq<Labelled>, table: map<string, string>, num: Numerals)
    requires |rows| >= 1
    requires forall k :: 0 <= k < |rows| ==> rows[k].0 == k
    requires Readable(rows, table, num)
    ensures RunOn(rows, table, num) == Columns.Run(SeasonGames(rows, table, num), false, [])
  {
    var games := SeasonGames(rows, table, num);
    var steps := StepsOf(Pairs(rows), StepFn(table, num));
    RunOnSteps(rows, table, num);
    PositionalCounts(|rows|);
    forall j | 0 <= j < |games|
      ensures steps[2 * j] == Emit(games[j], [])
    {
      PositionalPairInside(|rows|, j);
      GameAt(rows, table, num, j);
      EvenStep(rows, table, num, j);
    }
    forall j | 0 <= j && 2 * j + 1 < |steps|
      ensures steps[2 * j + 1] == Skip
    {
      OddStep(rows, table, num, j);
    }
    AlternatingRun(steps, games);
  }

  /** A non-empty frame's run is the run of its pairs' steps. */
  lemma RunOnSteps(rows: seq<Labelled>, table: map<string, string>, num: Numerals)
    requires rows != []
    ensures RunOn(rows, table, num) == RunOf(StepsOf(Pairs(rows), StepFn(table, num)))
  {
  }

  /** Step `2j` appends the record of rows `2j + 1` and `2j + 2`. */
  lemma EvenStep(rows: seq<Labelled>, table: map<string, string>, num: Numerals, j: nat)
    requires 2 * j + 2 < |rows|
    requires rows[2 * j + 1].0 == 2 * j + 1
    requires Game(Filled(rows[2 * j + 1].1), Filled(rows[2 * j + 2].1), table, num).Some?
    ensures 2 * j < |Pairs(rows)|
    ensures StepsOf(Pairs(rows), StepFn(table, num))[2 * j]
              == Emit(Game(Filled(rows[2 * j + 1].1), Filled(rows[2 * j + 2].1), table, num).value, [])
  {
    var a, b := Filled(rows[2 * j + 1].1), Filled(rows[2 * j + 2].1);
    var p := ((2 * j + 1, a), (rows[2 * j + 2].0, b));
    assert p.0.0 % 2 == 1;
    PairAt(rows, 2 * j);
    StepAt(rows, table, num, 2 * j);
    SelectedStep(p, table, num);
  }

  /** Step `2j + 1` is skipped. */
  lemma OddStep(rows: seq<Labelled>, table: map<string, string>, num: Numerals, j: nat)
    requires |rows| >= 1 && 2 * j + 1 < |Pairs(rows)|
    requires rows[2 * j + 2].0 == 2 * j + 2
    ensures StepsOf(Pairs(rows), StepFn(table, num))[2 * j + 1] == Skip
  {
    var k := 2 * j + 1;
    var p := ((rows[k + 1].0, Filled(rows[k + 1].1)), (rows[k + 2].0, Filled(rows[k + 2].1)));
    PairAt(rows, k);
    StepAt(rows, table, num, k);
    SkippedStep(p, table, num);
  }

  /** Pair `k` of the loop is rows `k + 1` and `k + 2`, filled. */
  lemma PairAt(rows: seq<Labelled>, k: nat)
    requires |rows| >= 1 && k < |Pairs(rows)|
    ensures Pairs(rows)[k] == ((rows[k + 1].0, Filled(rows[k + 1].1)), (rows[k + 2].0, Filled(rows[k + 2].1)))
  {
  }

  /** Step `k` is the loop body applied to pair `k`. */
  lemma StepAt(rows: seq<Labelled>, table: map<string, string>, num: Numerals, k: nat)
    requires |rows| >= 1 && k < |Pairs(rows)|
    ensures StepsOf(Pairs(rows), StepFn(table, num))[k] == PairStep(Pairs(rows)[k], table, num)
  {
  }

  /** Game `j` is the record of rows `2j + 1` and `2j + 2`. */
  lemma GameAt(rows: seq<Labelled>, table: map<string, string>, num: Numerals, j: nat)
    requires Readable(rows, table, num) && 2 * j + 2 < |rows|
    ensures j < |SeasonGames(rows, table, num)|
    ensures Some(SeasonGames(rows, table, num)[j]) == Game(Filled(rows[2 * j + 1].1), Filled(rows[2 * j + 2].1), table, num)
  {
  }

  /** A pair whose first label is odd and whose lines all read appends its
      whole record. */
  lemma SelectedStep(p: (Labelled, Labelled), table: map<string, string>, num: Numerals)
    requires Clean(p.0.1) && Clean(p.1.1)
    requires p.0.0 % 2 == 1 && Game(p.0.1, p.1.1, table, num).Some?
    ensures PairStep(p, table, num) == Emit(Game(p.0.1, p.1.1, table, num).value, [])
  {
  }

  /** A pair whose first label is even is skipped. */
  lemma SkippedStep(p: (Labelled, Labelled), table: map<string, string>, num: Numerals)
    requires Clean(p.0.1) && Clean(p.1.1)
    requires p.0.0 % 2 == 0
    ensures PairStep(p, table, num) == Skip
  {
  }

  /** A freshly built scraper fed one season's frame: column `Names[i]`
      holds field `i` of each game, one value per game. */
  lemma FreshScraperColumns(rows: seq<Labelled>, table: map<string, string>, num: Numerals)
    requires |rows| >= 1
    requires forall k :: 0 <= k < |rows| ==> rows[k].0 == k
    requires Readable(rows, table, num)
    ensures var games := SeasonGames(rows, table, num);
            var t := AppendRecords(EmptyTable(Names), Names, RunOn(rows, table, num).appended);
            && HasHeight(t, (|rows| - 1) / 2)
            && forall i :: 0 <= i < |Names| ==> t[Names[i]] == Column(games, i)
  {
    PositionalRun(rows, table, num);
    var games := SeasonGames(rows, table, num);
    SeasonGamesWhole(rows, table, num);
    NamesDistinct();
    AppendFullRecords(EmptyTable(Names), Names, games);
    FullRecordsKeepHeight(EmptyTable(Names), Names, games, 0);
  }

  /** `NFLOddsScraper`; `NBAOddsScraper` is the same class with sport "nba".
      `schema` is the dict whose lists `_to_schema` appends to: the method's
      `self.schema.copy()` copies the dict but shares the lists. */
  class Scraper {
    const sport: string
    const seasons: seq<int>
    /** `self.translator[self.sport]`. */
    const table: map<string, string>
    const schema: Schema<Col>

    predicate Valid()
      reads this, schema
    {
      schema.Valid() && schema.names == Names
    }

    constructor (years: seq<int>, table: map<string, string>)
      ensures Valid()
      ensures sport == "nfl" && seasons == years && this.table == table
      ensures fresh(schema) && schema.columns == EmptyTable(Names)
    {
      sport := "nfl";
      seasons := years;
      this.table := table;
      schema := new Schema(Names);
    }

    /** `NBAOddsScraper.__init__`. */
    constructor Nba(years: seq<int>, table: map<string, string>)
      ensures Valid()
      ensures sport == "nba" && seasons == years && this.table == table
      ensures fresh(schema) && schema.columns == EmptyTable(Names)
    {
      sport := "nba";
      seasons := years;
      this.table := table;
      schema := new Schema(Names);
    }

    /** `_to_schema(df)`: `ok` is false when it raises, either inside the
      loop or in `pd.DataFrame(new_df)`; the appends made before are kept. */
    method ToSchema(df: seq<Labelled>, num: Numerals) returns (ok: bool, frame: Table<Col>)
      requires Valid()
      modifies schema
      ensures Valid()
      ensures schema.columns == AppendRecords(old(schema.columns), Names, RunOn(df, table, num).appended)
      ensures ok <==> !RunOn(df, table, num).failed && Rectangular(schema.columns)
      ensures ok ==> frame == schema.columns
    {
      if |df| == 0 {
        return false, map[];
      }
      StepShapes(df, table, num);
      var completed, _ := schema.Drive(Pairs(df), StepFn(table, num));
      if !completed {
        return false, map[];
      }
      ok := Rectangular(schema.columns);
      frame := schema.columns;
    }
  }
}
