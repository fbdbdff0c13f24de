/** The column-list dictionaries the `_to_schema` methods append to, and the
    shape of one `_to_schema` run: a sequence of per-pair steps that stops at
    the first exception, with everything appended before it kept. */
module Columns {
  import opened Cells

  /** A scraper's `schema` dict: column name to the values appended so far. */
  type Table<K> = map<K, seq<Cell>>

  predicate Distinct<K(==)>(names: seq<K>) {
    forall i, j :: 0 <= i < j < |names| ==> names[i] != names[j]
  }

  lemma DistinctConcat<K>(a: seq<K>, b: seq<K>)
    requires Distinct(a) && Distinct(b)
    requires forall i, j :: 0 <= i < |a| && 0 <= j < |b| ==> a[i] != b[j]
    ensures Distinct(a + b)
  {
    forall i, j | 0 <= i < j < |a + b|
      ensures (a + b)[i] != (a + b)[j]
    {
      if j < |a| {
        assert (a + b)[i] == a[i] && (a + b)[j] == a[j];
      } else if i < |a| {
        assert (a + b)[i] == a[i] && (a + b)[j] == b[j - |a|];
      } else {
        assert (a + b)[i] == b[i - |a|] && (a + b)[j] == b[j - |a|];
      }
    }
  }

  /** The table has exactly the columns `names`. */
  predicate Covers<K>(t: Table<K>, names: seq<K>) {
    (forall n :: n in t ==> n in names) && (forall i :: 0 <= i < |names| ==> names[i] in t)
  }

  /** The schema literal a constructor assigns: one empty list per column. */
  function EmptyTable<K>(names: seq<K>): (t: Table<K>)
    ensures Covers(t, names)
    ensures forall n :: n in t ==> t[n] == []
  {
    map n | n in names :: []
  }

  predicate HasHeight<K>(t: Table<K>, h: nat) {
    forall n :: n in t ==> |t[n]| == h
  }

  /** What `pd.DataFrame(new_df)` accepts: every list of the same length. */
  predicate Rectangular<K>(t: Table<K>) {
    forall a, b :: a in t && b in t ==> |t[a]| == |t[b]|
  }

  /** `new_df[names[0]].append(vals[0])`, `new_df[names[1]].append(vals[1])`, ...
      for as many values as there are. */
  function AppendFields<K>(t: Table<K>, names: seq<K>, vals: seq<Cell>): (r: Table<K>)
    requires |vals| <= |names|
    requires forall i :: 0 <= i < |names| ==> names[i] in t
    ensures r.Keys == t.Keys
    ensures forall n :: n in t && n !in names[..|vals|] ==> r[n] == t[n]
    ensures Distinct(names) ==> forall i :: 0 <= i < |vals| ==> r[names[i]] == t[names[i]] + [vals[i]]
  {
    if vals == [] then t
    else
      var last := |vals| - 1;
      var r := AppendFields(t, names, vals[..last]);
      assert names[..|vals|] == names[..last] + [names[last]];
      r[names[last] := r[names[last]] + [vals[last]]]
  }

  /** One more field: the next column gets the next value. */
  lemma AppendFieldsSnoc<K>(t: Table<K>, names: seq<K>, vals: seq<Cell>, v: Cell)
    requires |vals| < |names|
    requires forall i :: 0 <= i < |names| ==> names[i] in t
    ensures var r := AppendFields(t, names, vals);
            AppendFields(t, names, vals + [v]) == r[names[|vals|] := r[names[|vals|]] + [v]]
  {
    assert (vals + [v])[..|vals|] == vals;
  }

  /** Each record appended field by field, in order. */
  function AppendRecords<K>(t: Table<K>, names: seq<K>, recs: seq<seq<Cell>>): (r: Table<K>)
    requires forall k :: 0 <= k < |recs| ==> |recs[k]| <= |names|
    requires forall i :: 0 <= i < |names| ==> names[i] in t
    ensures r.Keys == t.Keys
  {
    if recs == [] then t
    else AppendFields(AppendRecords(t, names, recs[..|recs| - 1]), names, recs[|recs| - 1])
  }

  /** One more record. */
  lemma AppendRecordsSnoc<K>(t: Table<K>, names: seq<K>, recs: seq<seq<Cell>>, rec: seq<Cell>)
    requires forall k :: 0 <= k < |recs| ==> |recs[k]| <= |names|
    requires |rec| <= |names|
    requires forall i :: 0 <= i < |names| ==> names[i] in t
    ensures AppendRecords(t, names, recs + [rec]) == AppendFields(AppendRecords(t, names, recs), names, rec)
  {
    assert (recs + [rec])[..|recs|] == recs;
  }

  /** Field `i` of every record. */
  function Column(recs: seq<seq<Cell>>, i: nat): (c: seq<Cell>)
    requires forall k :: 0 <= k < |recs| ==> i < |recs[k]|
    ensures |c| == |recs|
    ensures forall k :: 0 <= k < |recs| ==> c[k] == recs[k][i]
  {
    seq(|recs|, k requires 0 <= k < |recs| => recs[k][i])
  }

  /** Appending whole records grows column `names[i]` by exactly field `i` of
      each record, in order, and leaves any other column alone. */
  lemma {:induction false} AppendFullRecords<K>(t: Table<K>, names: seq<K>, recs: seq<seq<Cell>>)
    requires Distinct(names)
    requires forall i :: 0 <= i < |names| ==> names[i] in t
    requires forall k :: 0 <= k < |recs| ==> |recs[k]| == |names|
    ensures forall i :: 0 <= i < |names| ==>
              AppendRecords(t, names, recs)[names[i]] == t[names[i]] + Column(recs, i)
    ensures forall n :: n in t && n !in names ==> AppendRecords(t, names, recs)[n] == t[n]
  {
    if recs != [] {
      var init := recs[..|recs| - 1];
      AppendFullRecords(t, names, init);
      LastSplit(recs);
      AppendOneMore(t, AppendRecords(t, names, init), names, init, recs[|recs| - 1], recs);
    }
  }

  lemma AppendOneMore<K>(t: Table<K>, before: Table<K>, names: seq<K>, init: seq<seq<Cell>>, rec: seq<Cell>, recs: seq<seq<Cell>>)
    requires Distinct(names) && |rec| == |names| && recs == init + [rec]
    requires forall i :: 0 <= i < |names| ==> names[i] in t && names[i] in before
    requires forall k :: 0 <= k < |init| ==> |init[k]| == |names|
    requires forall k :: 0 <= k < |recs| ==> |recs[k]| == |names|
    requires forall i :: 0 <= i < |names| ==> before[names[i]] == t[names[i]] + Column(init, i)
    requires forall n :: n in t && n !in names ==> n in before && before[n] == t[n]
    ensures forall i :: 0 <= i < |names| ==>
              AppendFields(before, names, rec)[names[i]] == t[names[i]] + Column(recs, i)
    ensures forall n :: n in t && n !in names ==> AppendFields(before, names, rec)[n] == t[n]
  {
    WholeRecordElsewhere(before, names, rec);
    forall i | 0 <= i < |names|
      ensures AppendFields(before, names, rec)[names[i]] == t[names[i]] + Column(recs, i)
    {
      FieldAppended(before, names, rec, i);
      ColumnSnoc(init, rec, i);
      SnocAssoc(t[names[i]], Column(init, i), rec[i]);
    }
  }

  /** With distinct keys, column `names[i]` gains exactly field `i`. */
  lemma FieldAppended<K>(t: Table<K>, names: seq<K>, rec: seq<Cell>, i: nat)
    requires Distinct(names) && i < |rec| <= |names|
    requires forall j :: 0 <= j < |names| ==> names[j] in t
    ensures AppendFields(t, names, rec)[names[i]] == t[names[i]] + [rec[i]]
  {
  }

  lemma SnocAssoc<T>(a: seq<T>, b: seq<T>, x: T)
    ensures (a + b) + [x] == a + (b + [x])
  {
  }

  /** A whole record leaves the columns outside `names` alone. */
  lemma WholeRecordElsewhere<K>(t: Table<K>, names: seq<K>, rec: seq<Cell>)
    requires |rec| == |names|
    requires forall i :: 0 <= i < |names| ==> names[i] in t
    ensures forall n :: n in t && n !in names ==> AppendFields(t, names, rec)[n] == t[n]
  {
    assert names[..|rec|] == names;
  }

  /** One more record adds its field `i` to the end of column `i`. */
  lemma ColumnSnoc(init: seq<seq<Cell>>, rec: seq<Cell>, i: nat)
    requires forall k :: 0 <= k < |init| ==> i < |init[k]|
    requires i < |rec|
    ensures Column(init + [rec], i) == Column(init, i) + [rec[i]]
  {
  }

  /** Whole records keep a table rectangular: a table of height `h` with
      exactly the columns `names` has height `h + |recs|` afterwards. */
  lemma FullRecordsKeepHeight<K>(t: Table<K>, names: seq<K>, recs: seq<seq<Cell>>, h: nat)
    requires Distinct(names) && Covers(t, names) && HasHeight(t, h)
    requires forall k :: 0 <= k < |recs| ==> |recs[k]| == |names|
    ensures HasHeight(AppendRecords(t, names, recs), h + |recs|)
  {
    AppendFullRecords(t, names, recs);
    var r := AppendRecords(t, names, recs);
    forall n | n in r
      ensures |r[n]| == h + |recs|
    {
      var i :| 0 <= i < |names| && names[i] == n;
    }
  }

  /** Appending a record of whole width adds it as the next row: every
      column `names[i]` reads `rec[i]` at position `h`. */
  lemma RecordReadsBack<K>(t: Table<K>, names: seq<K>, rec: seq<Cell>, h: nat)
    requires Distinct(names) && Covers(t, names) && HasHeight(t, h)
    requires |rec| == |names|
    ensures HasHeight(AppendFields(t, names, rec), h + 1)
    ensures forall i :: 0 <= i < |names| ==> AppendFields(t, names, rec)[names[i]][h] == rec[i]
  {
    FullRecordsKeepHeight(t, names, [rec], h);
    assert AppendRecords(t, names, [rec]) == AppendFields(t, names, rec) by {
      assert [rec][..0] == [];
    }
  }

  /** An exception between two appends of one record leaves the first
      columns one value longer than the last: `pd.DataFrame` then refuses
      the table. */
  lemma PartialRecordRagged<K>(t: Table<K>, names: seq<K>, vals: seq<Cell>, h: nat)
    requires Distinct(names) && Covers(t, names) && HasHeight(t, h)
    requires 0 < |vals| < |names|
    ensures |AppendFields(t, names, vals)[names[0]]| == h + 1
    ensures |AppendFields(t, names, vals)[names[|names| - 1]]| == h
    ensures !Rectangular(AppendFields(t, names, vals))
  {
    var last := |names| - 1;
    assert names[last] !in names[..|vals|] by {
      forall j | 0 <= j < |vals| ensures names[..|vals|][j] != names[last] {
        assert names[j] != names[last];
      }
    }
  }

  /** Once the first column is longer than the last, no further appends of
      at most one value per column line them up again. */
  lemma {:induction false} StaysRagged<K>(t: Table<K>, names: seq<K>, recs: seq<seq<Cell>>)
    requires Distinct(names) && |names| >= 2
    requires forall i :: 0 <= i < |names| ==> names[i] in t
    requires forall k :: 0 <= k < |recs| ==> |recs[k]| <= |names|
    requires |t[names[0]]| > |t[names[|names| - 1]]|
    ensures var r := AppendRecords(t, names, recs);
            |r[names[0]]| > |r[names[|names| - 1]]| && !Rectangular(r)
  {
    if recs != [] {
      var init := recs[..|recs| - 1];
      StaysRagged(t, names, init);
      var before := AppendRecords(t, names, init);
      var rec := recs[|recs| - 1];
      var last := |names| - 1;
      if |rec| == |names| {
        assert names[..|rec|] == names;
      } else if |rec| > 0 {
        assert names[last] !in names[..|rec|] by {
          forall j | 0 <= j < |rec| ensures names[..|rec|][j] != names[last] {
            assert names[j] != names[last];
          }
        }
      }
    }
  }

  lemma LastSplit<T>(s: seq<T>)
    requires s != []
    ensures s[..|s| - 1] + [s[|s| - 1]] == s
  {
  }

  lemma TakeOneMore<T>(s: seq<T>, f: nat)
    requires f < |s|
    ensures s[..f + 1] == s[..f] + [s[f]]
  {
  }

  lemma TakeAll<T>(s: seq<T>, k: nat)
    requires k == |s|
    ensures s[..k] == s
  {
  }

  /** The column lists of a scraper's `schema` dict. `_to_schema` appends to
      `self.schema.copy()`, a new dict holding the same lists, so its appends
      land in these lists and stay there for the next call. */
  class Schema<K(==)> {
    const names: seq<K>
    var columns: Table<K>

    predicate Valid()
      reads this
    {
      Covers(columns, names)
    }

    /** The dict literal of a scraper's `__init__`. */
    constructor (names: seq<K>)
      ensures Valid() && this.names == names && columns == EmptyTable(names)
    {
      this.names := names;
      columns := EmptyTable(names);
    }

    /** `new_df[names[0]].append(rec[0])`, `new_df[names[1]].append(rec[1])`, ... */
    method AppendRecord(rec: seq<Cell>)
      requires Valid() && |rec| <= |names|
      modifies this
      ensures Valid()
      ensures columns == AppendFields(old(columns), names, rec)
    {
      var f := 0;
      while f < |rec|
        invariant 0 <= f <= |rec| && Valid()
        invariant columns == AppendFields(old(columns), names, rec[..f])
      {
        AppendFieldsSnoc(old(columns), names, rec[..f], rec[f]);
        TakeOneMore(rec, f);
        columns := columns[names[f] := columns[names[f]] + [rec[f]]];
        f := f + 1;
      }
      assert rec[..f] == rec;
    }

    /** The loop of a `_to_schema`: each item's step computed in turn and
        its record appended, the loop left at the first exception with the
        appends made so far kept. `completed` is false when it raised;
        `notes` are the warnings printed. */
    method Drive<P, W>(items: seq<P>, step: P --> Step<W>) returns (completed: bool, notes: seq<W>)
      requires Valid()
      requires forall k :: 0 <= k < |items| ==> step.requires(items[k])
      requires forall k :: 0 <= k < |items| ==> Fits(step(items[k]), |names|)
      modifies this
      ensures Valid()
      ensures RecordsFit(RunOf(StepsOf(items, step)).appended, |names|)
      ensures columns == AppendRecords(old(columns), names, RunOf(StepsOf(items, step)).appended)
      ensures completed == !RunOf(StepsOf(items, step)).failed
      ensures notes == RunOf(StepsOf(items, step)).notes
    {
      ghost var steps := StepsOf(items, step);
      ghost var start := columns;
      RunFits(steps, |names|);
      notes := [];
      var k := 0;
      while k < |items|
        invariant 0 <= k <= |items| && Valid()
        invariant RecordsFit(RunOf(steps[..k]).appended, |names|)
        invariant columns == AppendRecords(start, names, RunOf(steps[..k]).appended)
        invariant !RunOf(steps[..k]).failed
        invariant notes == RunOf(steps[..k]).notes
      {
        ghost var before := RunOf(steps[..k]);
        var s := step(items[k]);
        assert s == steps[k];
        match s {
          case Skip =>
            SkipNext(steps, k);
          case Emit(rec, ns) =>
            EmitNext(steps, k);
            AppendRecordsSnoc(start, names, before.appended, rec);
            AppendRecord(rec);
            notes := notes + ns;
          case Fail(partial, ns) =>
            FailNext(steps, k);
            AppendRecordsSnoc(start, names, before.appended, partial);
            AppendRecord(partial);
            notes := notes + ns;
            RunStopsAtFailure(steps, k + 1);
            return false, notes;
        }
        k := k + 1;
      }
      TakeAll(steps, k);
      completed := true;
    }
  }

  /** One iteration of a `_to_schema` loop: the pair is skipped, or its
      record is appended (with any warnings printed along the way), or an
      exception ends the run after the first `|partial|` fields of the
      record were appended. */
  datatype Step<W> = Skip | Emit(rec: seq<Cell>, notes: seq<W>) | Fail(partial: seq<Cell>, notes: seq<W>)

  /** The outcome of a run: what was appended, record by record, whether an
      exception ended it, and the warnings printed. */
  datatype Run<W> = Run(appended: seq<seq<Cell>>, failed: bool, notes: seq<W>)

  /** The steps in order, up to and including the first failure. */
  function RunOf<W>(steps: seq<Step<W>>): (r: Run<W>)
    ensures r.failed <==> exists k :: 0 <= k < |steps| && steps[k].Fail?
    ensures |r.appended| <= |steps|
  {
    if steps == [] then Run([], false, [])
    else
      var r := RunOf(steps[..|steps| - 1]);
      if r.failed then r
      else match steps[|steps| - 1]
        case Skip => r
        case Emit(rec, ns) => Run(r.appended + [rec], false, r.notes + ns)
        case Fail(p, ns) => Run(r.appended + [p], true, r.notes + ns)
  }

  /** The step of every item, in order. */
  function StepsOf<P, W>(items: seq<P>, step: P --> Step<W>): (s: seq<Step<W>>)
    requires forall k :: 0 <= k < |items| ==> step.requires(items[k])
    ensures |s| == |items|
    ensures forall k :: 0 <= k < |items| ==> s[k] == step(items[k])
  {
    seq(|items|, k requires 0 <= k < |items| => step(items[k]))
  }

  /** A step appends at most one value per column. */
  predicate Fits<W>(s: Step<W>, width: nat) {
    (s.Emit? ==> |s.rec| <= width) && (s.Fail? ==> |s.partial| <= width)
  }

  predicate RecordsFit(recs: seq<seq<Cell>>, width: nat) {
    forall k :: 0 <= k < |recs| ==> |recs[k]| <= width
  }

  lemma {:induction false} RunFits<W>(steps: seq<Step<W>>, width: nat)
    requires forall k :: 0 <= k < |steps| ==> Fits(steps[k], width)
    ensures RecordsFit(RunOf(steps).appended, width)
  {
    if steps != [] {
      RunFits(steps[..|steps| - 1], width);
    }
  }

  /** One more step of a run that has not failed yet. */
  lemma RunOfNext<W>(steps: seq<Step<W>>, k: nat)
    requires k < |steps| && !RunOf(steps[..k]).failed
    ensures steps[k].Skip? ==> RunOf(steps[..k + 1]) == RunOf(steps[..k])
    ensures steps[k].Emit? ==> RunOf(steps[..k + 1]).appended == RunOf(steps[..k]).appended + [steps[k].rec]
                               && RunOf(steps[..k + 1]).notes == RunOf(steps[..k]).notes + steps[k].notes
                               && !RunOf(steps[..k + 1]).failed
    ensures steps[k].Fail? ==> RunOf(steps[..k + 1]).appended == RunOf(steps[..k]).appended + [steps[k].partial]
                               && RunOf(steps[..k + 1]).notes == RunOf(steps[..k]).notes + steps[k].notes
                               && RunOf(steps[..k + 1]).failed
  {
    assert steps[..k + 1][..k] == steps[..k];
  }

  lemma SkipNext<W>(steps: seq<Step<W>>, k: nat)
    requires k < |steps| && !RunOf(steps[..k]).failed && steps[k].Skip?
    ensures RunOf(steps[..k + 1]) == RunOf(steps[..k])
  {
    RunOfNext(steps, k);
  }

  lemma EmitNext<W>(steps: seq<Step<W>>, k: nat)
    requires k < |steps| && !RunOf(steps[..k]).failed && steps[k].Emit?
    ensures RunOf(steps[..k + 1]) == Run(RunOf(steps[..k]).appended + [steps[k].rec], false, RunOf(steps[..k]).notes + steps[k].notes)
  {
    RunOfNext(steps, k);
  }

  lemma FailNext<W>(steps: seq<Step<W>>, k: nat)
    requires k < |steps| && !RunOf(steps[..k]).failed && steps[k].Fail?
    ensures RunOf(steps[..k + 1]) == Run(RunOf(steps[..k]).appended + [steps[k].partial], true, RunOf(steps[..k]).notes + steps[k].notes)
  {
    RunOfNext(steps, k);
  }

  /** Nothing after the first failure matters. */
  lemma {:induction false} RunStopsAtFailure<W>(steps: seq<Step<W>>, k: nat)
    requires k <= |steps|
    requires RunOf(steps[..k]).failed
    ensures RunOf(steps) == RunOf(steps[..k])
    decreases |steps| - k
  {
    if k < |steps| {
      assert steps[..k + 1][..k] == steps[..k];
      RunStopsAtFailure(steps, k + 1);
    } else {
      assert steps[..k] == steps;
    }
  }

  /** Records emitted on every other step, starting with the first, and
      skips between: the run appends exactly those records and does not
      fail. */
  lemma {:induction false} AlternatingRun<W>(steps: seq<Step<W>>, recs: seq<seq<Cell>>)
    requires |steps| == 2 * |recs| || |steps| + 1 == 2 * |recs|
    requires forall j :: 0 <= j < |recs| ==> steps[2 * j] == Emit(recs[j], [])
    requires forall j :: 0 <= j && 2 * j + 1 < |steps| ==> steps[2 * j + 1] == Skip
    ensures RunOf(steps) == Run(recs, false, [])
  {
    if steps != [] {
      var init := steps[..|steps| - 1];
      if |steps| == 2 * |recs| {
        assert steps[2 * (|recs| - 1) + 1] == Skip;
        AlternatingRun(init, recs);
      } else {
        var last := |recs| - 1;
        assert steps[2 * last] == Emit(recs[last], []);
        AlternatingRun(init, recs[..last]);
        LastSplit(recs);
      }
    }
  }

  /** Every step emits a whole record of `width` values, or fails with `lo`
      or more but not all of them. */
  predicate StepsShaped<W>(steps: seq<Step<W>>, width: nat, lo: nat) {
    && (forall k :: 0 <= k < |steps| && steps[k].Emit? ==> |steps[k].rec| == width)
    && (forall k :: 0 <= k < |steps| && steps[k].Fail? ==> lo <= |steps[k].partial| < width)
  }

  /** Every record a run appended is whole, except the last one of a failed
      run, which holds `lo` or more but not all values. */
  predicate EndsShort<W>(r: Run<W>, width: nat, lo: nat) {
    && (!r.failed ==> forall j :: 0 <= j < |r.appended| ==> |r.appended[j]| == width)
    && (r.failed ==> |r.appended| >= 1 && lo <= |r.appended[|r.appended| - 1]| < width)
    && (r.failed ==> forall j :: 0 <= j < |r.appended| - 1 ==> |r.appended[j]| == width)
  }

  /** A run whose steps emit whole records and fail with `lo` or more but
      not all values: every record is whole, except the last one of a
      failed run. */
  lemma {:induction false} RunEndsShort<W>(steps: seq<Step<W>>, width: nat, lo: nat)
    requires StepsShaped(steps, width, lo)
    ensures EndsShort(RunOf(steps), width, lo)
  {
    if steps != [] {
      var init := steps[..|steps| - 1];
      RunEndsShort(init, width, lo);
      var r := RunOf(init);
      if !r.failed {
        var last := steps[|steps| - 1];
        match last {
          case Skip =>
            assert RunOf(steps) == r;
          case Emit(rec, _) =>
            assert RunOf(steps).appended == r.appended + [rec];
          case Fail(p, _) =>
            var a := r.appended + [p];
            assert RunOf(steps).appended == a;
            assert a[|a| - 1] == p;
            assert forall j :: 0 <= j < |a| - 1 ==> a[j] == r.appended[j];
        }
      }
    }
  }

  /** Whole records and then a cut short one leave the first column one
      value taller than the last. */
  lemma ShortLastRecordRagged<K>(t: Table<K>, names: seq<K>, recs: seq<seq<Cell>>, h: nat)
    requires Distinct(names) && Covers(t, names) && HasHeight(t, h)
    requires |recs| >= 1 && 0 < |recs[|recs| - 1]| < |names|
    requires forall j :: 0 <= j < |recs| - 1 ==> |recs[j]| == |names|
    ensures var r := AppendRecords(t, names, recs);
            |r[names[0]]| == |r[names[|names| - 1]]| + 1 && !Rectangular(r)
  {
    var init, last := recs[..|recs| - 1], recs[|recs| - 1];
    assert recs == init + [last];
    FullRecordsKeepHeight(t, names, init, h);
    var before := AppendRecords(t, names, init);
    AppendRecordsSnoc(t, names, init, last);
    PartialRecordRagged(before, names, last, h + |init|);
  }

  /** So a failed run whose records end short leaves the table ragged. */
  lemma ShortRunRagged<K, W>(t: Table<K>, names: seq<K>, r: Run<W>, lo: nat, h: nat)
    requires Distinct(names) && Covers(t, names) && HasHeight(t, h)
    requires r.failed && 0 < lo && EndsShort(r, |names|, lo)
    ensures |AppendRecords(t, names, r.appended)[names[0]]| == |AppendRecords(t, names, r.appended)[names[|names| - 1]]| + 1
  {
    ShortLastRecordRagged(t, names, r.appended, h);
  }

  /** The same with warnings allowed along the way: the run appends exactly
      the emitted records and does not fail. */
  lemma {:induction false} AlternatingAppends<W>(steps: seq<Step<W>>, recs: seq<seq<Cell>>)
    requires |steps| == 2 * |recs| || |steps| + 1 == 2 * |recs|
    requires forall j :: 0 <= j < |recs| ==> steps[2 * j].Emit? && steps[2 * j].rec == recs[j]
    requires forall j :: 0 <= j && 2 * j + 1 < |steps| ==> steps[2 * j + 1].Skip?
    ensures RunOf(steps).appended == recs && !RunOf(steps).failed
  {
    if steps != [] {
      var init := steps[..|steps| - 1];
      if |steps| == 2 * |recs| {
        assert steps[2 * (|recs| - 1) + 1].Skip?;
        AlternatingAppends(init, recs);
      } else {
        var last := |recs| - 1;
        assert steps[2 * last].Emit? && steps[2 * last].rec == recs[last];
        AlternatingAppends(init, recs[..last]);
        LastSplit(recs);
      }
    }
  }

  /** Every record is either empty or as wide as the table. */
  predicate WholeOrEmpty(recs: seq<seq<Cell>>, width: nat) {
    forall k :: 0 <= k < |recs| ==> recs[k] == [] || |recs[k]| == width
  }

  /** The number of non-empty records. */
  function NonEmpty(recs: seq<seq<Cell>>): (n: nat)
    ensures n <= |recs|
  {
    if recs == [] then 0
    else NonEmpty(recs[..|recs| - 1]) + (if recs[|recs| - 1] == [] then 0 else 1)
  }

  /** A run whose steps emit whole records and fail either before the first
      append or after the last appends only whole or empty records. */
  lemma {:induction false} RunWholeOrEmpty<W>(steps: seq<Step<W>>, width: nat)
    requires forall k :: 0 <= k < |steps| && steps[k].Emit? ==> |steps[k].rec| == width
    requires forall k :: 0 <= k < |steps| && steps[k].Fail? ==> steps[k].partial == [] || |steps[k].partial| == width
    ensures WholeOrEmpty(RunOf(steps).appended, width)
  {
    if steps != [] {
      RunWholeOrEmpty(steps[..|steps| - 1], width);
    }
  }

  /** Whole or empty records keep a table rectangular: height `h` grows by
      one per non-empty record. */
  lemma {:induction false} WholeOrEmptyKeepHeight<K>(t: Table<K>, names: seq<K>, recs: seq<seq<Cell>>, h: nat)
    requires Distinct(names) && Covers(t, names) && HasHeight(t, h)
    requires WholeOrEmpty(recs, |names|)
    ensures HasHeight(AppendRecords(t, names, recs), h + NonEmpty(recs))
    ensures Rectangular(AppendRecords(t, names, recs))
  {
    if recs != [] {
      var init := recs[..|recs| - 1];
      var rec := recs[|recs| - 1];
      WholeOrEmptyKeepHeight(t, names, init, h);
      var before := AppendRecords(t, names, init);
      if rec != [] {
        RecordReadsBack(before, names, rec, h + NonEmpty(init));
      }
    }
  }
}
