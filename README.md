# sportsbookreview scrapers: a Dafny model

This project models `scrapers/sportsbookreview.py`. The module downloads historical betting-line
sheets for the NFL, NBA, NHL and MLB and turns them into one record per game. It is not the I/O
that is modelled, but the logic that turns rows into games:

- date codes (`_make_datestr`) and season labels (`_make_season`);
- the placeholder tokens of the `blacklist`;
- each sport's `_reformat_data` column mapping, including the MLB pitcher strings and the
  column layout of seasons up to 2013;
- the pairing of adjacent rows into games (`_pairwise` and the three `_to_schema` loops);
- the NFL/NBA spread and total derivation;
- the MLB checks of each pair of rows;
- the appends into the per-column lists of each scraper's `schema` dict.

Modules, one per concern:

- `Decimal`, `Calendar`, `Strptime`: Python's `str(int)` and `int(str)` on ASCII digits, the
  Gregorian dates `datetime.date` accepts with their `strftime('%Y-%m-%d')` text, and
  `datetime.strptime(s, '%Y%m%d')` as CPython's `_strptime` regular expression matches it.
- `Cells`: a scraped cell (`str`, `int`, finite `float`, NaN, `None`) and the Python operations the
  scraper applies to cells: `==`, `-1 *`, `isinstance(x, (int, float))`, `int()`, `float()`,
  `fillna(0)` and the translator lookup.
- `Dates`, `Sentinels`, `Pairing`, `Spreads`: the pure helpers.
- `Columns`: the column-list tables and a generic `_to_schema` run. A run is a sequence of
  per-pair steps, each of which skips, appends a whole record, or raises after appending part of
  one. The class `Schema` holds the lists that a scraper's `schema` dict shares with the shallow
  copy `_to_schema` appends to. Its method `Drive` is the loop.
- `Football` (NFL and NBA), `Hockey` (NHL), `Baseball` (MLB): each sport's column keys,
  `_reformat_data`, per-pair step and scraper class.

Each scraper class holds its `schema` lists. Its `ToSchema` method has these properties:

- It appends to those lists in place, so a second call adds to what the first left.
- It returns `ok == false` where the Python method raises.
- An exception raised part-way through a record leaves the lists of unequal lengths.
- A `pd.DataFrame` of unequal lists raises, so such a call fails, and so does every later call on
  the same scraper. The proof is `Hockey.FailureDesyncs`.

Home and away are positional in all three pipelines: the first row of a pair is the away team and
the second is the home team, and the code never reorders the rows of a pair. In the NFL/NBA derivation, the closing moneylines only choose the
sign of the spread.

What the code does at the edges:

- The NFL/NHL loops drop a dangling last row silently, and the MLB loop raises `KeyError` on the
  missing `i+1` row (`Baseball.OddCountFails`).
- A failing call keeps every append made before the exception, including the failing pair's
  whole record in MLB.
- Only the MLB loop compares run lines, and it only warns.

With the 2020 NHL season's January-to-March window, a January-to-March code is dated in 2020 and a
later month in 2021. `Hockey.CovidSeasonYears` states this as the code does it.

## Model

| member | source | states |
|---|---|---|
| Calendar.FormatIsoFields | scrapers/sportsbookreview.py:53 | a valid date prints as exactly ten characters `YYYY-MM-DD` whose three fields read back as year, month and day |
| Strptime.StrPTime | scrapers/sportsbookreview.py:52 | a parsed date is always a valid `datetime.date`, and only texts of 6 to 8 characters parse |
| Strptime.StrPTimeOfEightDigits | scrapers/sportsbookreview.py:52 | an all-digit `YYYYMMDD` parses to exactly (YYYY, MM, DD) when that is a calendar date and raises otherwise; no other split of the digits is taken |
| Strptime.StrPTimeRejectsLong | scrapers/sportsbookreview.py:52 | text longer than eight characters always raises (unconverted data) |
| Dates.MakeSeasonDefined | scrapers/sportsbookreview.py:34-38 | `_make_season` raises exactly for seasons printed with fewer than three characters |
| Dates.MakeSeasonFourDigits | scrapers/sportsbookreview.py:34-38 | for a four-digit season the label is the season, a dash, and its last two digits plus one, without zero padding |
| Dates.MakeSeasonExample2015 | scrapers/sportsbookreview.py:34-38 | 2015 gives "2015-16" |
| Dates.MakeSeasonExample2008 | scrapers/sportsbookreview.py:34-38 | 2008 gives "2008-9" |
| Dates.DateText | scrapers/sportsbookreview.py:42 | `str(date)` of a cell: text is kept, an integer prints in decimal, any other cell gives no text |
| Dates.SeasonYear | scrapers/sportsbookreview.py:48-51 | the year is the season exactly when the month lies in `start..yr_end`, and the season plus one otherwise |
| Dates.PadThree | scrapers/sportsbookreview.py:43-44 | a three-character code resolves as "0" followed by that code |
| Dates.ResolveCode | scrapers/sportsbookreview.py:41-53 | for a 3- or 4-digit code: month is code/100, day is code%100, the year comes from the window, and the result is that date's `YYYY-MM-DD` when it exists; an impossible date raises and is never adjusted |
| Dates.ResolvedFields | scrapers/sportsbookreview.py:41-53 | a resolved code's text has dashes at 4 and 7 and reads back as the window year, the code's month and the code's day |
| Dates.ResolveRejectsLongCodes | scrapers/sportsbookreview.py:41-53 | codes of five or more digits always raise |
| Dates.TwoDigitCodeQuirk | scrapers/sportsbookreview.py:43-52 | a two-digit code is not rejected: "11" in season 2015 becomes 2015-01-01 |
| Dates.ResolveExample | scrapers/sportsbookreview.py:41-53 | code 101 in season 2015 with the default window is 2016-01-01 |
| Sentinels.Normalize | scrapers/sportsbookreview.py:121-126 | a cell becomes 0 exactly when it is one of the listed strings and is kept otherwise; the result is never a token |
| Sentinels.TenTokens | scrapers/sportsbookreview.py:11-25 | membership in the list with its repeats is membership in ten distinct tokens |
| Sentinels.NormalizeIdempotent | scrapers/sportsbookreview.py:121-126 | normalising twice is normalising once |
| Sentinels.NormalizeExamples | scrapers/sportsbookreview.py:11-25 | the test is exact and case-sensitive: "pk" and "-" become 0, "Pk", "-105", 0 and NaN are kept |
| Cells.NegOne | scrapers/sportsbookreview.py:528 | `-1 * x` negates numbers, gives "" for a string and raises exactly for `None` |
| Cells.Trunc | scrapers/sportsbookreview.py:141-142 | `int()` of a float truncates toward zero |
| Cells.PyFloat | scrapers/sportsbookreview.py:295 | `float()` gives a float or NaN, NaN only from NaN, and the exact value of an integer |
| Cells.FillNa | scrapers/sportsbookreview.py:132 | `fillna(0)` turns NaN and `None` into 0, leaves no missing value and changes nothing else |
| Cells.Translate | scrapers/sportsbookreview.py:30-31 | a known label maps to its canonical name and anything else is passed through |
| Cells.FloatValue | scrapers/sportsbookreview.py:144-161 | `float()` of a filled cell as a number, per kind of cell |
| Options.MapAll | scrapers/sportsbookreview.py:114 | a column `apply` succeeds exactly when every row's value does, and then maps row k to row k |
| Pairing.Pairwise | scrapers/sportsbookreview.py:56-59 | `_pairwise` of n items yields max(n-1, 0) pairs `(x[k], x[k+1])` in order |
| Pairing.OddLabelled | scrapers/sportsbookreview.py:136-139 | a pair is kept exactly when its first row's label is odd, and nothing else is added; a single pair is kept or dropped whole |
| Pairing.OddLabelledConcat | scrapers/sportsbookreview.py:136-139 | the filter keeps order and multiplicity: filtering a concatenation is concatenating the filtered parts |
| Pairing.EvenPairs | scrapers/sportsbookreview.py:469-473 | the pairs (0,1), (2,3), ... of a sequence, `len/2` of them |
| Pairing.OddLabelledFromOdd | scrapers/sportsbookreview.py:133-139 | with consecutive labels starting odd, the kept adjacent pairs are the disjoint pairs (x0,x1), (x2,x3), ... |
| Pairing.SelectionOfPositionalLabels | scrapers/sportsbookreview.py:133-139 | with labels 0, 1, 2, ... and the first row dropped, the games are rows (1,2), (3,4), ..., (n-1)/2 of them |
| Columns.EmptyTable | scrapers/sportsbookreview.py:83-109 | a schema literal: exactly the given keys, each with an empty list |
| Columns.AppendFields | scrapers/sportsbookreview.py:170-194 | appending field i to list names[i] touches no other list, and with distinct keys each list grows by its own field |
| Columns.AppendFullRecords | scrapers/sportsbookreview.py:170-194 | after whole records, list names[i] is its old contents followed by field i of each record, in order |
| Columns.FullRecordsKeepHeight | scrapers/sportsbookreview.py:170-194 | whole records keep the lists of one length, grown by one per record |
| Columns.RecordReadsBack | scrapers/sportsbookreview.py:170-194 | the new row of the table, read across the lists, is the record |
| Columns.PartialRecordRagged | scrapers/sportsbookreview.py:343-346 | a record cut short leaves the first list one longer than the last, so the lists are no longer of one length |
| Columns.StaysRagged | scrapers/sportsbookreview.py:321 | once the first list is longer than the last, any further appends keep it so |
| Columns.Schema.constructor | scrapers/sportsbookreview.py:83-109 | a new schema has the given keys, each with an empty list |
| Columns.Schema.AppendRecord | scrapers/sportsbookreview.py:170-194 | the field-by-field appends change the lists as `AppendFields` says and nothing else |
| Columns.Schema.Drive | scrapers/sportsbookreview.py:136-194 | the loop appends what `RunOf` of the items' steps appends, stops at the first exception keeping earlier appends, and reports whether it completed and the warnings printed |
| Columns.RunOf | scrapers/sportsbookreview.py:136-194 | a run fails exactly when some step raises, and appends at most one record per step |
| Columns.StepsOf | scrapers/sportsbookreview.py:136 | the step of each item in order |
| Columns.RunFits | scrapers/sportsbookreview.py:170-194 | steps appending at most one value per list make a run that does too |
| Columns.RunOfNext | scrapers/sportsbookreview.py:136-194 | one more step of an unfinished run: a skip changes nothing, an append adds its record and warnings, and an exception adds its partial record and ends the run |
| Columns.RunStopsAtFailure | scrapers/sportsbookreview.py:136-194 | nothing after the first exception is appended |
| Columns.AlternatingRun | scrapers/sportsbookreview.py:136-139 | records on every other step, skips between, give exactly those records and no failure |
| Columns.AlternatingAppends | scrapers/sportsbookreview.py:469-473 | the same with warnings allowed on the appending steps |
| Columns.RunEndsShort | scrapers/sportsbookreview.py:343-346 | in a run whose exceptions cut records short, every record is whole except the last record of a failed run |
| Columns.ShortLastRecordRagged | scrapers/sportsbookreview.py:343-346 | whole records then a cut-short one leave the first list exactly one longer than the last |
| Columns.ShortRunRagged | scrapers/sportsbookreview.py:343-346 | a failed run whose last record is cut short leaves the first list exactly one longer than the last |
| Columns.RunWholeOrEmpty | scrapers/sportsbookreview.py:141-194 | when every exception leaves either no field or a whole record appended, every record appended is whole or empty |
| Columns.WholeOrEmptyKeepHeight | scrapers/sportsbookreview.py:170-196 | whole or empty records keep the lists of one length, grown by one per whole record |
| Spreads.Signed | scrapers/sportsbookreview.py:163-168 | the home side's value is negated exactly when the home closing moneyline is lower |
| Spreads.Derive | scrapers/sportsbookreview.py:141-168 | the smaller opening value is the spread and the larger the total; closing and 2nd-half spreads come from the spread's row and the totals from the other row, which on a tie is the home row; the away values are the exact negations of the home values |
| Spreads.FavouriteLaysPoints | scrapers/sportsbookreview.py:163-168 | with a positive listed spread, the side with the lower moneyline gets the negative spread |
| Spreads.RowOrderIrrelevant | scrapers/sportsbookreview.py:144-168 | with distinct openings and moneylines, listing the rows the other way round mirrors home and away |
| Spreads.EqualMoneylines | scrapers/sportsbookreview.py:163 | equal moneylines never negate: the home side gets the smaller opening value whichever row comes first |
| Spreads.TiedOpeningsUseHomeRow | scrapers/sportsbookreview.py:154-161 | equal openings take the spread from the home row and the totals from the away row |
| Spreads.WorkedExample | scrapers/sportsbookreview.py:141-168 | away 3 / ML -150 and home 44 / ML +130 give home +3, away -3 and total 44 |
| Football.RowOf | scrapers/sportsbookreview.py:111-128 | a row maps exactly when it has the columns and its date code resolves; which field comes from which column, the four quarter scores from columns 4-7; tokens normalised in the open, close and 2nd-half columns |
| Football.Reformat | scrapers/sportsbookreview.py:111-128 | the frame maps exactly when it has 13 columns and every date resolves, row by row |
| Football.ReformatClearsTokens | scrapers/sportsbookreview.py:121-126 | after reformatting, no line column holds a placeholder token |
| Football.Filled | scrapers/sportsbookreview.py:132 | `fillna(0)` on a row leaves no NaN |
| Football.FillAll | scrapers/sportsbookreview.py:132 | `fillna(0)` on the frame keeps the labels and fills each row |
| Football.QuoteOf | scrapers/sportsbookreview.py:144-161 | a row's three lines read as numbers exactly when each `float()` succeeds, and the quote holds those three `float()` values |
| Football.Game | scrapers/sportsbookreview.py:141-194 | a pair gives a record exactly when both closing moneylines pass `int()` and all six lines pass `float()`, with one field per list |
| Football.GameFields | scrapers/sportsbookreview.py:170-194 | season and date from the first row, home team and scores from the second row, away from the first, then the moneylines and the derived lines |
| Football.Pairs | scrapers/sportsbookreview.py:133-136 | the filled frame without its first row, each row paired with the next |
| Football.RunOn | scrapers/sportsbookreview.py:130-196 | an empty frame raises before any append, and every record appended is whole or empty |
| Football.NamesDistinct | scrapers/sportsbookreview.py:83-109 | the 25 keys are distinct |
| Football.StepShapes | scrapers/sportsbookreview.py:141-194 | each step appends a whole record or raises before its first append |
| Football.RunKeepsColumnsEven | scrapers/sportsbookreview.py:170-196 | lists of one length stay of one length after a run |
| Football.SeasonGames | scrapers/sportsbookreview.py:136-194 | the records of rows (1,2), (3,4), ..., (n-1)/2 of them |
| Football.PositionalRun | scrapers/sportsbookreview.py:133-139 | with labels 0, 1, 2, ... and readable lines, the run appends exactly the games of rows (1,2), (3,4), ... and does not fail |
| Football.EvenStep | scrapers/sportsbookreview.py:133-194 | with an odd label on row 2j+1, step 2j appends the record of rows 2j+1 and 2j+2 when both read |
| Football.OddStep | scrapers/sportsbookreview.py:136-139 | with an even label on row 2j+2, step 2j+1 is skipped |
| Football.FreshScraperColumns | scrapers/sportsbookreview.py:130-194 | a new scraper fed one season: list i holds field i of each game, one value per game |
| Football.Scraper.constructor | scrapers/sportsbookreview.py:77-109 | sport "nfl", the 25 empty lists |
| Football.Scraper.Nba | scrapers/sportsbookreview.py:200-233 | sport "nba", the same 25 empty lists |
| Football.Scraper.ToSchema | scrapers/sportsbookreview.py:130-196 | the lists grow by the run's records; the frame is returned exactly when nothing raised and the lists are of one length |
| Hockey.SeasonSlug | scrapers/sportsbookreview.py:362 | the 2020 season is published as "2021", every other season under its `_make_season` label |
| Hockey.Window | scrapers/sportsbookreview.py:273-279 | January to March when `is_cov` is set, August to December otherwise |
| Hockey.TokenOrFloat | scrapers/sportsbookreview.py:293-296 | a token becomes 0 and anything else goes through `float()` |
| Hockey.Shift | scrapers/sportsbookreview.py:293-315 | the totals move down two columns exactly for seasons up to 2013 |
| Hockey.LineSources | scrapers/sportsbookreview.py:293-315 | from 2014 the six line columns are 10-15; before, the constant 0 twice, then columns 10-13 |
| Hockey.Lines | scrapers/sportsbookreview.py:293-316 | the six lines read exactly when each token-or-`float()` succeeds, and each value is that result |
| Hockey.NoSpreadBefore2014 | scrapers/sportsbookreview.py:293-300 | seasons up to 2013 read the spread line and odds as 0.0 |
| Hockey.RowOf | scrapers/sportsbookreview.py:270-318 | a row maps exactly when it has the columns, its date resolves in the window, and its lines read; which field comes from which column |
| Hockey.Reformat | scrapers/sportsbookreview.py:270-318 | the frame maps exactly when it has the season's columns and every row maps, row by row |
| Hockey.CovidSeasonYears | scrapers/sportsbookreview.py:273-279 | for the 2020 season, whose `is_cov` selects the January-March window, January-March codes are dated 2020 and later months 2021 |
| Hockey.Filled | scrapers/sportsbookreview.py:322 | `fillna(0)` on a row leaves no NaN |
| Hockey.FillAll | scrapers/sportsbookreview.py:322 | `fillna(0)` on the frame keeps the labels and fills each row |
| Hockey.IntPrefix | scrapers/sportsbookreview.py:343-346 | `int()` of each moneyline in turn up to the first that raises: every converted value is `int()` of its cell, and the one after them raises |
| Hockey.Game | scrapers/sportsbookreview.py:331-354 | 12 to 24 fields are appended, all 24 exactly when every moneyline passes `int()`, and at most 15 when one raises |
| Hockey.GameFields | scrapers/sportsbookreview.py:331-354 | season and date from the first row, home fields from the second row, away from the first, moneylines as integers, all totals from the second row |
| Hockey.Pairs | scrapers/sportsbookreview.py:323-326 | the filled frame without its first row, each row paired with the next |
| Hockey.RunOn | scrapers/sportsbookreview.py:320-356 | an empty frame raises before any append; no record is wider than the schema |
| Hockey.NamesDistinct | scrapers/sportsbookreview.py:243-268 | the 24 keys are distinct |
| Hockey.StepShapes | scrapers/sportsbookreview.py:331-354 | each step appends a whole record, or raises after at least 12 but fewer than 24 fields of one |
| Hockey.PairStepShape | scrapers/sportsbookreview.py:331-354 | one step appends a whole record, or raises after 12 to 15 fields of one |
| Hockey.FailedRunRagged | scrapers/sportsbookreview.py:343-346 | after an `int()` raises, the first list is one longer than the last |
| Hockey.RunShapes | scrapers/sportsbookreview.py:320-356 | the records a call appends are all whole when nothing raised; after a raise all are whole except the last, which holds 12 to 23 fields |
| Hockey.FailureDesyncs | scrapers/sportsbookreview.py:320-356 | that call's lists are of unequal lengths, and so are the lists after any later call |
| Hockey.EvenExactlyWithoutRaise | scrapers/sportsbookreview.py:320-356 | starting from lists of one length, a non-empty frame leaves them of one length exactly when no `int()` raised |
| Hockey.SeasonGames | scrapers/sportsbookreview.py:326-354 | the records of rows (1,2), (3,4), ..., (n-1)/2 of them |
| Hockey.PositionalRun | scrapers/sportsbookreview.py:326-329 | with labels 0, 1, 2, ... and readable moneylines, the run appends exactly the games of rows (1,2), (3,4), ... |
| Hockey.EvenStep | scrapers/sportsbookreview.py:326-354 | with an odd label on row 2j+1, step 2j appends the record of rows 2j+1 and 2j+2 when it is whole |
| Hockey.OddStep | scrapers/sportsbookreview.py:326-329 | with an even label on row 2j+2, step 2j+1 is skipped |
| Hockey.FreshScraperColumns | scrapers/sportsbookreview.py:320-354 | a new scraper fed one season: list i holds field i of each game |
| Hockey.Scraper.constructor | scrapers/sportsbookreview.py:237-268 | sport "nhl", the 24 empty lists |
| Hockey.Scraper.ToSchema | scrapers/sportsbookreview.py:320-356 | the lists grow by the run's records, a cut-short record included; the frame is returned exactly when nothing raised and the lists are of one length |
| Baseball.NamesDistinct | scrapers/sportsbookreview.py:385-428 | the 42 keys are distinct |
| Baseball.PitcherName | scrapers/sportsbookreview.py:435-439 | a string marked "-L" or "-R" anywhere loses its last two characters, another string is kept, and a non-string gives `None` |
| Baseball.PitcherHand | scrapers/sportsbookreview.py:440-444 | 'L' exactly for strings marked "-L", 'R' for every other string, `None` for non-strings |
| Baseball.PitcherRoundTrip | scrapers/sportsbookreview.py:435-444 | a name with "-L" or "-R" appended reads back as that name and hand, when the name holds no "-L" |
| Baseball.PitcherExamples | scrapers/sportsbookreview.py:435-444 | "SMITH-L" is SMITH/L, "JONES" is JONES/R, "A-LEE-R" is A-LEE/L, NaN gives `None` for both |
| Baseball.Shift | scrapers/sportsbookreview.py:457-462 | the totals move down two columns exactly for seasons up to 2013 |
| Baseball.RowOf | scrapers/sportsbookreview.py:430-464 | a row maps exactly when it has the columns and its date resolves in March-November; which field comes from which column; no run line (0) up to 2013 |
| Baseball.Reformat | scrapers/sportsbookreview.py:430-464 | the frame maps exactly when it has the season's columns and every date resolves, row by row |
| Baseball.WarnedConcat | scrapers/sportsbookreview.py:520-545 | a warning kind was printed by two stretches together exactly when it was printed by one of them |
| Baseball.Game | scrapers/sportsbookreview.py:477-518 | a pair's record has one field per list |
| Baseball.GameFields | scrapers/sportsbookreview.py:477-518 | season and date from the first row, away fields from the first row, home fields from the second, the totals and "over" odds from the first row, the "under" odds from the second |
| Baseball.Check | scrapers/sportsbookreview.py:520-545 | a pair raises exactly when the dates differ, the home run line is `None`, or an opening or closing total differs, and then after its whole record; every warning names the game; a date mismatch prints nothing; otherwise the moneyline warning is printed exactly when its condition holds, and so are the run-line and run-line-odds warnings unless the home run line is `None` (then neither is printed); a pair that raises never prints the total-odds warning, and one that does not prints it exactly when its condition holds |
| Baseball.PairStep | scrapers/sportsbookreview.py:469-473 | odd positions are skipped, an even last position raises before any append, other even positions check rows i and i+1 |
| Baseball.Positions | scrapers/sportsbookreview.py:469 | `range(len(df))` |
| Baseball.RunOn | scrapers/sportsbookreview.py:466-549 | every record appended is whole or empty |
| Baseball.OddCountFails | scrapers/sportsbookreview.py:469-473 | an odd number of rows always raises |
| Baseball.AbortingPairFails | scrapers/sportsbookreview.py:520-540 | a pair that fails a check makes the run fail |
| Baseball.SeasonGames | scrapers/sportsbookreview.py:469-518 | the records of rows (0,1), (2,3), ..., `len/2` of them |
| Baseball.PairedRun | scrapers/sportsbookreview.py:469-545 | an even number of rows with no pair failing a check appends exactly one record per pair, warnings or not, and does not fail |
| Baseball.RunKeepsColumnsEven | scrapers/sportsbookreview.py:477-549 | lists of one length stay of one length after a run |
| Baseball.FreshScraperColumns | scrapers/sportsbookreview.py:466-518 | a new scraper fed one season with no failing pair: list i holds field i of each game |
| Baseball.Scraper.constructor | scrapers/sportsbookreview.py:380-428 | sport "mlb", the 42 empty lists |
| Baseball.Scraper.ToSchema | scrapers/sportsbookreview.py:466-549 | the lists grow by the run's records, a failing pair's included; the warnings printed are returned; the frame is returned exactly when nothing raised and the lists are of one length |

## Left out

- Network and disk I/O: HTTP requests with the spoofed User-Agent, download caching and
  directory creation, the `driver` loops, and loading `config/translated.json`. A scraper is
  given its sport's translation table as a map, so a sport missing from the file, which would
  raise `KeyError`, is not modelled.
- `pd.read_html`, `pd.read_excel`, the dropped header row of each sheet, and `pd.concat`. A frame
  is given as rows of cells.
- pandas index alignment. `_reformat_data` mixes a list-built `season` column with Series-built
  columns, and `concat` repeats labels across seasons. `ToSchema` for NFL/NBA and NHL takes each
  row with the label pandas gives it. `PositionalRun` covers the single-season case, where the
  labels are 0, 1, 2, ...
- Number parsing. `int()` and `float()` of text are a parameter (`Numerals`), not modelled.
  Float rounding is not modelled: line values are exact reals.
- Cells.FloatValue: a `float()` that returns NaN or infinity from text such as "nan" or "inf" is
  not distinguished from other parsed text.
- numpy scalar types. `isinstance(x, (int, float))` is read on the cell kind, so a numpy integer is
  treated like a Python `int`.
- Dates.DateText: a float date cell is given no text. `str()` of such a float holds '.', 'e',
  "inf" or "nan", so the date would be rejected anyway.
- Strptime.StrPTime: `\d` is taken to be the ASCII digits. Unicode digits are not modelled.
- Calendar.FormatIsoFields: holds for the years the scraper can produce. `strftime` of years
  below 1000 is platform-dependent and is not modelled beyond zero padding.
- `print`. Progress messages are dropped. MLB warnings become a returned list of `Warning` values
  naming the kind, the teams and the date.
- `pd.DataFrame(new_df)`. It is modelled only as the condition that all lists are of one length.
  The frame returned is the table of lists.
- Exception types. A raised `ValueError`, `TypeError`, `KeyError`, `AssertionError` or
  `StopIteration` is just a failed run.
- Football.Game: when a pair's record cannot be built, the model does not say which of the
  `int()` and `float()` calls raised first. No field has been appended at that point, so the
  schema is the same either way.
