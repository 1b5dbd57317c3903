/** The first version of the temperature analysis (`analysis/temperatures.py`):
    patches are cropped by a default margin of 5 % of their width and converted
    with the fixed Celsius conversion, every module gets twenty aggregate columns
    (five reductions over its patches of each of the four pixel statistics), and
    the neighbour median is taken without any correction step. The per-patch
    steps are the ones of the later worker, with these constants. */
module LegacyTemperatures {
  import opened Wrappers
  import opened GeoJson
  import PyList
  import Text
  import Stats
  import PatchStatistics
  import Neighbourhood
  import Frames
  import Temperatures

  type Raster = PatchStatistics.Raster
  type PatchTemps = PatchStatistics.PatchTemps

  // ---------------------------------------------------------------------------
  // truncate_patch and get_patch_temps with their fixed parameters

  /** The default `margin` of `truncate_patch`, a fraction of the width. */
  const DefaultMargin: real := 0.05

  /** `to_celsius` as a gain and an offset. */
  const Gain: real := 0.04
  const Offset: real := -273.15

  /** A patch narrower than 20 pixels has a margin of `int(0.05 * width) == 0`
      pixels, and the slice `[0:-0]` leaves nothing of it. */
  lemma NarrowPatchVanishes(patch: Raster)
    requires PatchStatistics.Width(patch) < 20
    ensures PatchStatistics.TruncatePatch(patch, DefaultMargin) == []
  {
    var w := PatchStatistics.Width(patch) as real;
    assert 0.0 <= DefaultMargin * w < 1.0;
    assert PatchStatistics.MarginPx(DefaultMargin, PatchStatistics.Width(patch)) == 0;
    PatchStatistics.TruncateZeroMargin(patch, DefaultMargin);
  }

  /** A patch at least 20 pixels wide and more than twice the margin high loses
      `m >= 1` rows and columns on every side. */
  lemma WidePatchCropped(patch: Raster)
    requires PatchStatistics.Rectangular(patch) && PatchStatistics.Width(patch) >= 20
    requires 2 * PatchStatistics.MarginPx(DefaultMargin, PatchStatistics.Width(patch)) < |patch|
    ensures var m := PatchStatistics.MarginPx(DefaultMargin, PatchStatistics.Width(patch));
      var r := PatchStatistics.TruncatePatch(patch, DefaultMargin);
      m >= 1 && |r| == |patch| - 2 * m &&
      forall i :: 0 <= i < |r| ==>
        |r[i]| == PatchStatistics.Width(patch) - 2 * m &&
        forall j :: 0 <= j < |r[i]| ==> r[i][j] == patch[i + m][j + m]
  {
    var w := PatchStatistics.Width(patch);
    var m := PatchStatistics.MarginPx(DefaultMargin, w);
    assert DefaultMargin * (w as real) >= 1.0;
    assert m as real <= DefaultMargin * (w as real);
    PatchStatistics.TruncateInterior(patch, DefaultMargin);
  }

  /** The four lists of one module have equal lengths. */
  predicate Balanced(t: PatchTemps) {
    |t.min| == |t.max| == |t.mean| == |t.median|
  }

  /** `get_patch_temps` of this version: undecodable files are skipped, and every
      decoded patch contributes one entry to each list, in file order; the entry
      of a patch lies between its minimum and its maximum. */
  lemma PatchTempsOfFiles(files: seq<string>, images: map<string, Raster>)
    ensures var r := PatchStatistics.PatchTempsSpec(files, images, DefaultMargin, Gain, Offset);
      var decoded := PyList.Filter(files, PatchStatistics.Decodes(images));
      r.Ok? ==>
        Balanced(r.value) && |r.value.min| == |decoded| &&
        forall k :: 0 <= k < |r.value.min| ==>
          r.value.min[k] <= r.value.mean[k] <= r.value.max[k] &&
          r.value.min[k] <= r.value.median[k] <= r.value.max[k]
    ensures var r := PatchStatistics.PatchTempsSpec(files, images, DefaultMargin, Gain, Offset);
      r.Raise? ==> r.error == ValueError
  {
    PatchStatistics.PatchTempsShape(files, images, DefaultMargin, Gain, Offset);
    if PatchStatistics.PatchTempsSpec(files, images, DefaultMargin, Gain, Offset).Ok? {
      PatchStatistics.PatchTempsOrdered(files, images, DefaultMargin, Gain, Offset);
    }
  }

  // ---------------------------------------------------------------------------
  // insert_temps

  /** How the values of one statistic are reduced over the patches of a module,
      in the order the columns are assigned. */
  datatype Reduction = MaxOf | MinOf | MeanOf | MedianOf | FirstOf

  function ReductionName(s: Reduction): string {
    match s
    case MaxOf => "max"
    case MinOf => "min"
    case MeanOf => "mean"
    case MedianOf => "median"
    case FirstOf => "first"
  }

  /** One of the twenty assigned columns. */
  datatype ColumnSpec = ColumnSpec(reduction: Reduction, agg: Frames.Agg)

  /** `"{reduction}_of_{agg}_temps"`. */
  function ColumnName(c: ColumnSpec): string {
    ReductionName(c.reduction) + "_of_" + Frames.AggName(c.agg) + "_temps"
  }

  /** The reduction of a list of values: `np.max` and `np.min` of an empty list
      raise ValueError, `np.mean` and `np.median` of it give NaN, and `t[agg][0]`
      of it raises IndexError. */
  function Reduce(s: Reduction, xs: seq<real>): (r: Result<Value>)
    ensures r.Raise? <==> |xs| == 0 && s != MeanOf && s != MedianOf
    ensures r.Raise? ==> r.error == (if s == FirstOf then IndexError else ValueError)
    ensures r.Ok? ==> r.value.Num? || (r.value == NaN && |xs| == 0)
  {
    if |xs| == 0 then
      match s
      case MeanOf => Ok(NaN)
      case MedianOf => Ok(NaN)
      case FirstOf => Raise(IndexError)
      case _ => Raise(ValueError)
    else
      match s
      case MaxOf => Ok(Num(Stats.Max(xs)))
      case MinOf => Ok(Num(Stats.Min(xs)))
      case MeanOf => Ok(Num(Stats.Mean(xs)))
      case MedianOf => Ok(Num(Stats.Median(xs)))
      case FirstOf => Ok(Num(xs[0]))
  }

  /** The series `{track_id: reduce(t[agg]) for track_id, t in temps.items()}`:
      it raises when the reduction raises for some module. */
  function SeriesOf(temps: map<string, PatchTemps>, c: ColumnSpec): (r: Result<map<string, Value>>)
    ensures r.Ok? <==> forall t :: t in temps ==> Reduce(c.reduction, Frames.Field(temps[t], c.agg)).Ok?
    ensures r.Raise? ==> r.error == (if c.reduction == FirstOf then IndexError else ValueError)
    ensures r.Ok? ==> r.value.Keys == temps.Keys
    ensures r.Ok? ==> forall t :: t in temps ==> Ok(r.value[t]) == Reduce(c.reduction, Frames.Field(temps[t], c.agg))
  {
    if forall t :: t in temps ==> Reduce(c.reduction, Frames.Field(temps[t], c.agg)).Ok?
    then Ok(map t | t in temps :: Reduce(c.reduction, Frames.Field(temps[t], c.agg)).value)
    else Raise(if c.reduction == FirstOf then IndexError else ValueError)
  }

  /** The five columns of one statistic, in the order they are assigned. */
  function AggColumns(a: Frames.Agg): seq<ColumnSpec> {
    [ColumnSpec(MaxOf, a), ColumnSpec(MinOf, a), ColumnSpec(MeanOf, a), ColumnSpec(MedianOf, a), ColumnSpec(FirstOf, a)]
  }

  /** The columns of the statistics from the `i`-th on. */
  function ColumnsFrom(i: nat): (cols: seq<ColumnSpec>)
    requires i <= |Frames.Aggs|
    ensures |cols| == 5 * (|Frames.Aggs| - i)
    decreases |Frames.Aggs| - i
  {
    if i == |Frames.Aggs| then [] else AggColumns(Frames.Aggs[i]) + ColumnsFrom(i + 1)
  }

  /** Assigning the given columns in order; the first series that raises stops the
      assignments, leaving the columns assigned before it in place. */
  function InsertFrom(rows: seq<Record>, temps: map<string, PatchTemps>, cols: seq<ColumnSpec>): (seq<Record>, Option<PyError>)
    decreases |cols|
  {
    if |cols| == 0 then (rows, None)
    else
      match SeriesOf(temps, cols[0])
      case Raise(e) => (rows, Some(e))
      case Ok(series) => InsertFrom(Frames.WithAligned(rows, ColumnName(cols[0]), series), temps, cols[1..])
  }

  /** The five assignments of one statistic. */
  method InsertAgg(frame: Frames.Frame, temps: map<string, PatchTemps>, a: Frames.Agg) returns (err: Option<PyError>)
    modifies frame
    ensures (frame.rows, err) == InsertFrom(old(frame.rows), temps, AggColumns(a))
  {
    ghost var cols := AggColumns(a);
    err := InsertColumn(frame, temps, ColumnSpec(MaxOf, a), cols);
    if err.Some? { return; }
    err := InsertColumn(frame, temps, ColumnSpec(MinOf, a), cols[1..]);
    if err.Some? { return; }
    err := InsertColumn(frame, temps, ColumnSpec(MeanOf, a), cols[2..]);
    if err.Some? { return; }
    err := InsertColumn(frame, temps, ColumnSpec(MedianOf, a), cols[3..]);
    if err.Some? { return; }
    err := InsertColumn(frame, temps, ColumnSpec(FirstOf, a), cols[4..]);
    assert cols[5..] == [];
  }

  /** `geodataframe[name] = pd.Series(...)` for the first of the columns `rest`. */
  method InsertColumn(frame: Frames.Frame, temps: map<string, PatchTemps>, c: ColumnSpec, ghost rest: seq<ColumnSpec>)
    returns (err: Option<PyError>)
    requires |rest| > 0 && rest[0] == c
    modifies frame
    ensures err.Some? ==> InsertFrom(old(frame.rows), temps, rest) == (frame.rows, err)
    ensures err.None? ==> InsertFrom(old(frame.rows), temps, rest) == InsertFrom(frame.rows, temps, rest[1..])
  {
    var series := SeriesOf(temps, c);
    if series.Raise? {
      return Some(series.error);
    }
    frame.SetAligned(ColumnName(c), series.value);
    return None;
  }

  /** `insert_temps`: for each statistic in the order min, max, mean, median, its
      five aggregate columns. */
  method InsertTemps(frame: Frames.Frame, temps: map<string, PatchTemps>) returns (err: Option<PyError>)
    modifies frame
    ensures (frame.rows, err) == InsertFrom(old(frame.rows), temps, ColumnsFrom(0))
  {
    var i := 0;
    while i < |Frames.Aggs|
      invariant 0 <= i <= |Frames.Aggs|
      invariant InsertFrom(old(frame.rows), temps, ColumnsFrom(0)) == InsertFrom(frame.rows, temps, ColumnsFrom(i))
    {
      InsertFromNext(frame.rows, temps, i);
      err := InsertAgg(frame, temps, Frames.Aggs[i]);
      if err.Some? {
        return;
      }
      i := i + 1;
    }
    return None;
  }

  /** The columns from the `i`-th statistic on: those of the `i`-th, then the
      rest unless one of them raised. */
  lemma InsertFromNext(rows: seq<Record>, temps: map<string, PatchTemps>, i: nat)
    requires i < |Frames.Aggs|
    ensures InsertFrom(rows, temps, ColumnsFrom(i)) ==
      (var (r, e) := InsertFrom(rows, temps, AggColumns(Frames.Aggs[i])); if e.Some? then (r, e) else InsertFrom(r, temps, ColumnsFrom(i + 1)))
  {
    assert ColumnsFrom(i) == AggColumns(Frames.Aggs[i]) + ColumnsFrom(i + 1);
    InsertFromAppend(rows, temps, AggColumns(Frames.Aggs[i]), ColumnsFrom(i + 1));
  }

  /** Assigning two lists of columns one after the other. */
  lemma {:induction false} InsertFromAppend(rows: seq<Record>, temps: map<string, PatchTemps>, xs: seq<ColumnSpec>, ys: seq<ColumnSpec>)
    ensures InsertFrom(rows, temps, xs + ys) ==
      (var (r, e) := InsertFrom(rows, temps, xs); if e.Some? then (r, e) else InsertFrom(r, temps, ys))
    decreases |xs|
  {
    if |xs| == 0 {
      assert xs + ys == ys;
    } else {
      assert (xs + ys)[0] == xs[0];
      assert (xs + ys)[1..] == xs[1..] + ys;
      match SeriesOf(temps, xs[0])
      case Raise(e) =>
      case Ok(series) =>
        InsertFromAppend(Frames.WithAligned(rows, ColumnName(xs[0]), series), temps, xs[1..], ys);
    }
  }

  // ---------------------------------------------------------------------------
  // The twenty columns

  /** A column name reads back as its four `_`-separated words. */
  lemma ColumnNameParts(c: ColumnSpec)
    ensures Text.Split(ColumnName(c), '_') == [ReductionName(c.reduction), "of", Frames.AggName(c.agg), "temps"]
  {
    var rn, an := ReductionName(c.reduction), Frames.AggName(c.agg);
    assert '_' !in rn by {
      match c.reduction
      case MaxOf =>
      case MinOf =>
      case MeanOf =>
      case MedianOf =>
      case FirstOf =>
    }
    assert '_' !in an by {
      match c.agg
      case Min =>
      case Max =>
      case Mean =>
      case Median =>
    }
    var tail := an + ['_'] + "temps";
    var mid := "of" + ['_'] + tail;
    assert ColumnName(c) == rn + ['_'] + mid;
    Text.SplitAbsent("temps", '_');
    Text.SplitAt(an, '_', "temps");
    Text.SplitAt("of", '_', tail);
    Text.SplitAt(rn, '_', mid);
  }

  lemma ReductionNameInjective(s: Reduction, t: Reduction)
    requires ReductionName(s) == ReductionName(t)
    ensures s == t
  {
  }

  lemma AggNameInjective(a: Frames.Agg, b: Frames.Agg)
    requires Frames.AggName(a) == Frames.AggName(b)
    ensures a == b
  {
  }

  /** Different columns have different names. */
  lemma ColumnNameInjective(c: ColumnSpec, d: ColumnSpec)
    requires ColumnName(c) == ColumnName(d)
    ensures c == d
  {
    ColumnNameParts(c);
    ColumnNameParts(d);
    ReductionNameInjective(c.reduction, d.reduction);
    AggNameInjective(c.agg, d.agg);
  }

  /** No assigned column is the `track_id` the rows are aligned on. */
  lemma ColumnNameNotTrackId(c: ColumnSpec)
    ensures ColumnName(c) != "track_id"
  {
    assert |ColumnName(c)| >= 16;
  }

  lemma AggColumnsMembers(a: Frames.Agg, c: ColumnSpec)
    ensures c in AggColumns(a) <==> c.agg == a
  {
    if c.agg == a {
      match c.reduction
      case MaxOf => assert AggColumns(a)[0] == c;
      case MinOf => assert AggColumns(a)[1] == c;
      case MeanOf => assert AggColumns(a)[2] == c;
      case MedianOf => assert AggColumns(a)[3] == c;
      case FirstOf => assert AggColumns(a)[4] == c;
    }
  }

  lemma AggColumnsNoDup(a: Frames.Agg)
    ensures PyList.NoDup(AggColumns(a))
  {
    var cols := AggColumns(a);
    forall x, y | 0 <= x < y < 5 ensures cols[x].reduction != cols[y].reduction { }
  }

  /** The columns from the `i`-th statistic on are all five reductions of each of
      those statistics, each once. */
  lemma {:induction false} ColumnsFromSpec(i: nat)
    requires i <= |Frames.Aggs|
    ensures PyList.NoDup(ColumnsFrom(i))
    ensures forall c :: c in ColumnsFrom(i) <==> Frames.AggIndex(c.agg) >= i
    decreases |Frames.Aggs| - i
  {
    if i < |Frames.Aggs| {
      ColumnsFromSpec(i + 1);
      var head, rest := AggColumns(Frames.Aggs[i]), ColumnsFrom(i + 1);
      var cols := head + rest;
      assert ColumnsFrom(i) == cols;
      Frames.AggIndexOfAggs(i);
      forall c: ColumnSpec ensures c in cols <==> Frames.AggIndex(c.agg) >= i {
        AggColumnsMembers(Frames.Aggs[i], c);
        assert c in cols <==> c in head || c in rest;
      }
      forall x | x in head ensures x !in rest {
        AggColumnsMembers(Frames.Aggs[i], x);
      }
      AggColumnsNoDup(Frames.Aggs[i]);
      NoDupAppend(head, rest);
    }
  }

  lemma NoDupAppend<T>(a: seq<T>, b: seq<T>)
    requires PyList.NoDup(a) && PyList.NoDup(b)
    requires forall x :: x in a ==> x !in b
    ensures PyList.NoDup(a + b)
  {
    var ab := a + b;
    forall x, y | 0 <= x < y < |ab| ensures ab[x] != ab[y] {
      if y >= |a| {
        assert ab[y] == b[y - |a|];
        if x < |a| {
          assert ab[x] in a;
        } else {
          assert ab[x] == b[x - |a|];
        }
      }
    }
  }

  /** The names of a list of columns. */
  function Names(cols: seq<ColumnSpec>): set<string> {
    set c | c in cols :: ColumnName(c)
  }

  /** The twenty column names `insert_temps` writes. */
  function InsertedColumns(): set<string> {
    Names(ColumnsFrom(0))
  }

  predicate DistinctNames(cols: seq<ColumnSpec>) {
    forall x, y :: 0 <= x < y < |cols| ==> ColumnName(cols[x]) != ColumnName(cols[y])
  }

  /** `insert_temps` writes twenty columns with twenty different names. */
  lemma AllColumnNamesDistinct()
    ensures |ColumnsFrom(0)| == 20 && DistinctNames(ColumnsFrom(0))
  {
    var cols := ColumnsFrom(0);
    ColumnsFromSpec(0);
    forall x, y | 0 <= x < y < |cols| ensures ColumnName(cols[x]) != ColumnName(cols[y]) {
      if ColumnName(cols[x]) == ColumnName(cols[y]) {
        ColumnNameInjective(cols[x], cols[y]);
      }
    }
  }

  // ---------------------------------------------------------------------------
  // What the assignments do

  predicate AllOk(temps: map<string, PatchTemps>, cols: seq<ColumnSpec>) {
    forall k :: 0 <= k < |cols| ==> SeriesOf(temps, cols[k]).Ok?
  }

  /** When no series raises, every row gains the assigned columns and keeps
      every other cell. */
  lemma {:induction false} InsertFromOk(rows: seq<Record>, temps: map<string, PatchTemps>, cols: seq<ColumnSpec>)
    requires AllOk(temps, cols)
    ensures InsertFrom(rows, temps, cols).1 == None
    ensures |InsertFrom(rows, temps, cols).0| == |rows|
    ensures forall i :: 0 <= i < |rows| ==> InsertFrom(rows, temps, cols).0[i].Keys == rows[i].Keys + Names(cols)
    ensures forall i, n :: 0 <= i < |rows| && n in rows[i] && n !in Names(cols) ==> InsertFrom(rows, temps, cols).0[i][n] == rows[i][n]
    decreases |cols|
  {
    if |cols| > 0 {
      var next := Frames.WithAligned(rows, ColumnName(cols[0]), SeriesOf(temps, cols[0]).value);
      assert AllOk(temps, cols[1..]) by {
        forall k | 0 <= k < |cols| - 1 ensures cols[1..][k] == cols[k + 1] { }
      }
      InsertFromOk(next, temps, cols[1..]);
      assert cols == [cols[0]] + cols[1..];
      assert Names(cols) == {ColumnName(cols[0])} + Names(cols[1..]);
      Frames.WithAlignedSpec(rows, ColumnName(cols[0]), SeriesOf(temps, cols[0]).value);
    }
  }

  /** When no series raises and the names differ, each assigned column holds its
      series aligned on the row's track id. */
  lemma {:induction false} InsertFromCell(rows: seq<Record>, temps: map<string, PatchTemps>, cols: seq<ColumnSpec>, i: nat, k: nat)
    requires AllOk(temps, cols) && DistinctNames(cols) && i < |rows| && k < |cols|
    ensures |InsertFrom(rows, temps, cols).0| == |rows|
    ensures ColumnName(cols[k]) in InsertFrom(rows, temps, cols).0[i]
    ensures InsertFrom(rows, temps, cols).0[i][ColumnName(cols[k])] == Frames.AlignedCell(rows[i], SeriesOf(temps, cols[k]).value)
    decreases |cols|
  {
    var series := SeriesOf(temps, cols[0]).value;
    var name := ColumnName(cols[0]);
    var next := Frames.WithAligned(rows, name, series);
    ColumnsTail(temps, cols);
    assert InsertFrom(rows, temps, cols) == InsertFrom(next, temps, cols[1..]);
    assert next[i] == rows[i][name := Frames.AlignedCell(rows[i], series)];
    if k == 0 {
      InsertFromOk(next, temps, cols[1..]);
    } else {
      ColumnNameNotTrackId(cols[0]);
      Frames.KeepsTrackKey(rows[i], name, Frames.AlignedCell(rows[i], series));
      assert cols[k] == cols[1..][k - 1];
      InsertFromCell(next, temps, cols[1..], i, k - 1);
    }
  }

  /** The columns after the first: still all computable, still differently
      named, and none named like the first. */
  lemma ColumnsTail(temps: map<string, PatchTemps>, cols: seq<ColumnSpec>)
    requires |cols| > 0 && AllOk(temps, cols) && DistinctNames(cols)
    ensures AllOk(temps, cols[1..]) && DistinctNames(cols[1..]) && ColumnName(cols[0]) !in Names(cols[1..])
  {
    var tail := cols[1..];
    forall j | 0 <= j < |tail| ensures tail[j] == cols[j + 1] { }
    forall c | c in tail ensures ColumnName(c) != ColumnName(cols[0]) {
      var j :| 0 <= j < |tail| && tail[j] == c;
      assert ColumnName(cols[0]) != ColumnName(cols[j + 1]);
    }
  }

  /** Every module has at least one decoded patch, and its lists are balanced. */
  predicate NonEmpty(temps: map<string, PatchTemps>) {
    forall t :: t in temps ==> Balanced(temps[t]) && |temps[t].min| > 0
  }

  lemma NonEmptyAllOk(temps: map<string, PatchTemps>, cols: seq<ColumnSpec>)
    requires NonEmpty(temps)
    ensures AllOk(temps, cols)
  {
    forall k, t | 0 <= k < |cols| && t in temps ensures |Frames.Field(temps[t], cols[k].agg)| > 0 {
      match cols[k].agg
      case Min =>
      case Max =>
      case Mean =>
      case Median =>
    }
  }

  /** With balanced lists, `insert_temps` raises exactly when some module has no
      decoded patch: its very first series, `max_of_min_temps`, then raises
      ValueError before any column is assigned. */
  lemma InsertTempsRaises(rows: seq<Record>, temps: map<string, PatchTemps>)
    requires forall t :: t in temps ==> Balanced(temps[t])
    ensures var r := InsertFrom(rows, temps, ColumnsFrom(0));
      (r.1.Some? <==> exists t :: t in temps && |temps[t].min| == 0) &&
      (r.1.Some? ==> r == (rows, Some(ValueError)))
  {
    var cols := ColumnsFrom(0);
    assert cols[0] == ColumnSpec(MaxOf, Frames.Min);
    if exists t :: t in temps && |temps[t].min| == 0 {
      assert SeriesOf(temps, cols[0]).Raise?;
    } else {
      NonEmptyAllOk(temps, cols);
      InsertFromOk(rows, temps, cols);
    }
  }

  /** A row holding the five aggregates of the values `xs` of one statistic. */
  predicate Aggregated(row: Record, a: Frames.Agg, xs: seq<real>) {
    |xs| > 0 &&
    Cell(row, ColumnName(ColumnSpec(MaxOf, a))) == Num(Stats.Max(xs)) &&
    Cell(row, ColumnName(ColumnSpec(MinOf, a))) == Num(Stats.Min(xs)) &&
    Cell(row, ColumnName(ColumnSpec(MeanOf, a))) == Num(Stats.Mean(xs)) &&
    Cell(row, ColumnName(ColumnSpec(MedianOf, a))) == Num(Stats.Median(xs)) &&
    Cell(row, ColumnName(ColumnSpec(FirstOf, a))) == Num(xs[0])
  }

  /** In a row with the aggregates, `min_of` is at most `mean_of` and
      `median_of`, which are at most `max_of`, and `first_of` lies between
      `min_of` and `max_of`. */
  lemma AggregatedOrdered(row: Record, a: Frames.Agg, xs: seq<real>)
    requires Aggregated(row, a, xs)
    ensures var lo, hi := Cell(row, ColumnName(ColumnSpec(MinOf, a))).n, Cell(row, ColumnName(ColumnSpec(MaxOf, a))).n;
      lo <= Cell(row, ColumnName(ColumnSpec(MeanOf, a))).n <= hi &&
      lo <= Cell(row, ColumnName(ColumnSpec(MedianOf, a))).n <= hi &&
      lo <= Cell(row, ColumnName(ColumnSpec(FirstOf, a))).n <= hi
  {
    Stats.MeanBetween(xs);
    Stats.MedianBetween(xs);
  }

  /** The position of a column among the twenty. */
  function ColumnIndex(c: ColumnSpec): (k: nat)
    ensures k < |ColumnsFrom(0)| && ColumnsFrom(0)[k] == c
  {
    var r := match c.reduction
      case MaxOf => 0
      case MinOf => 1
      case MeanOf => 2
      case MedianOf => 3
      case FirstOf => 4;
    var j := Frames.AggIndex(c.agg);
    assert ColumnsFrom(j)[r] == c;
    ColumnsFromSuffix(0, j, r);
    5 * j + r
  }

  lemma {:induction false} ColumnsFromSuffix(i: nat, j: nat, r: nat)
    requires i <= j < |Frames.Aggs| && r < 5
    ensures 5 * (j - i) + r < |ColumnsFrom(i)|
    ensures ColumnsFrom(i)[5 * (j - i) + r] == ColumnsFrom(j)[r]
    decreases j - i
  {
    if i < j {
      ColumnsFromSuffix(i + 1, j, r);
    }
  }

  /** The aligned value of a series, in terms of the reduction it holds. */
  lemma AlignedReduction(row: Record, temps: map<string, PatchTemps>, c: ColumnSpec)
    requires SeriesOf(temps, c).Ok?
    ensures Ok(Frames.AlignedCell(row, SeriesOf(temps, c).value)) ==
      (var key := Frames.TrackKey(row);
       if key.Some? && key.value in temps then Reduce(c.reduction, Frames.Field(temps[key.value], c.agg)) else Ok(NaN))
  {
  }

  /** One assigned cell of one row after `insert_temps`. */
  lemma InsertedCell(rows: seq<Record>, temps: map<string, PatchTemps>, i: nat, c: ColumnSpec)
    requires NonEmpty(temps) && i < |rows|
    ensures var r := InsertFrom(rows, temps, ColumnsFrom(0)).0;
      |r| == |rows| && ColumnName(c) in r[i] &&
      Ok(r[i][ColumnName(c)]) ==
        (var key := Frames.TrackKey(rows[i]);
         if key.Some? && key.value in temps then Reduce(c.reduction, Frames.Field(temps[key.value], c.agg)) else Ok(NaN))
  {
    var cols := ColumnsFrom(0);
    AllColumnNamesDistinct();
    NonEmptyAllOk(temps, cols);
    InsertFromCell(rows, temps, cols, i, ColumnIndex(c));
    AlignedReduction(rows[i], temps, c);
  }

  /** After `insert_temps` on modules that all have patches, every row holds the
      twenty new columns and keeps its other cells. */
  lemma InsertTempsKeeps(rows: seq<Record>, temps: map<string, PatchTemps>)
    requires NonEmpty(temps)
    ensures var r := InsertFrom(rows, temps, ColumnsFrom(0));
      r.1 == None && |r.0| == |rows| &&
      forall i :: 0 <= i < |rows| ==>
        r.0[i].Keys == rows[i].Keys + InsertedColumns() &&
        forall n :: n in rows[i] && n !in InsertedColumns() ==> r.0[i][n] == rows[i][n]
  {
    NonEmptyAllOk(temps, ColumnsFrom(0));
    InsertFromOk(rows, temps, ColumnsFrom(0));
  }

  /** The cell of a row holds the given reduction of `xs`. */
  predicate Holds(row: Record, s: Reduction, a: Frames.Agg, xs: seq<real>) {
    ColumnName(ColumnSpec(s, a)) in row && Ok(row[ColumnName(ColumnSpec(s, a))]) == Reduce(s, xs)
  }

  lemma AggregatedOfCells(row: Record, a: Frames.Agg, xs: seq<real>)
    requires |xs| > 0
    requires Holds(row, MaxOf, a, xs) && Holds(row, MinOf, a, xs) && Holds(row, MeanOf, a, xs)
    requires Holds(row, MedianOf, a, xs) && Holds(row, FirstOf, a, xs)
    ensures Aggregated(row, a, xs)
  {
  }

  /** After `insert_temps` on modules that all have patches, a row whose track
      id has temperatures holds their five aggregates for each statistic, and any
      other row holds NaN in them. */
  lemma InsertTempsCells(rows: seq<Record>, temps: map<string, PatchTemps>, i: nat, a: Frames.Agg)
    requires NonEmpty(temps) && i < |rows|
    ensures |InsertFrom(rows, temps, ColumnsFrom(0)).0| == |rows|
    ensures var row := InsertFrom(rows, temps, ColumnsFrom(0)).0[i];
      var key := Frames.TrackKey(rows[i]);
      if key.Some? && key.value in temps then Aggregated(row, a, Frames.Field(temps[key.value], a))
      else forall s :: Cell(row, ColumnName(ColumnSpec(s, a))) == NaN
  {
    InsertedCell(rows, temps, i, ColumnSpec(MaxOf, a));
    var key := Frames.TrackKey(rows[i]);
    if key.Some? && key.value in temps {
      var xs := Frames.Field(temps[key.value], a);
      assert |xs| > 0 by {
        match a
        case Min =>
        case Max =>
        case Mean =>
        case Median =>
      }
      InsertedCell(rows, temps, i, ColumnSpec(MinOf, a));
      InsertedCell(rows, temps, i, ColumnSpec(MeanOf, a));
      InsertedCell(rows, temps, i, ColumnSpec(MedianOf, a));
      InsertedCell(rows, temps, i, ColumnSpec(FirstOf, a));
      AggregatedOfCells(InsertFrom(rows, temps, ColumnsFrom(0)).0[i], a, xs);
    } else {
      forall s ensures Cell(InsertFrom(rows, temps, ColumnsFrom(0)).0[i], ColumnName(ColumnSpec(s, a))) == NaN {
        InsertedCell(rows, temps, i, ColumnSpec(s, a));
      }
    }
  }

  // ---------------------------------------------------------------------------
  // get_neighbours_median_temp

  /** The defaults of `get_neighbours_median_temp`. */
  const DefaultRadius: real := 7.0
  const DefaultColumn: string := "mean_of_max_temps"

  /** The default column is the mean over the patches of the per-patch maxima,
      one of the columns `insert_temps` writes. */
  lemma DefaultColumnInserted()
    ensures DefaultColumn == ColumnName(ColumnSpec(MeanOf, Frames.Max))
    ensures DefaultColumn in InsertedColumns()
  {
    var c := ColumnSpec(MeanOf, Frames.Max);
    assert ColumnsFrom(0)[ColumnIndex(c)] == c;
  }

  /** `[d.xy[0][0], d.xy[1][0]]` of a center's shapely geometry: a point gives
      its coordinates, any other shape raises (shapely's NotImplementedError,
      here TypeError), and a missing geometry (NaN) has no `xy` at all. */
  function CenterOf(row: Record): Result<Neighbourhood.Point> {
    match Cell(row, "geometry")
    case Geom(g) =>
      (match g.coordinates
       case Position(x, y) => Ok(Neighbourhood.Point(x, y))
       case Positions(_) => Raise(TypeError))
    case _ => Raise(AttributeError)
  }

  /** The points the tree is built on; a tree on no points raises ValueError. */
  function CentersOf(rows: seq<Record>): (r: Result<seq<Neighbourhood.Point>>)
    ensures r.Ok? ==> |r.value| == |rows| && |rows| > 0
  {
    match MapResult(rows, CenterOf)
    case Raise(e) => Raise(e)
    case Ok(points) =>
      MapResultOk(rows, CenterOf);
      if |points| == 0 then Raise(ValueError) else Ok(points)
  }

  /** The medians `get_neighbours_median_temp` returns; a column the frame does
      not have raises KeyError at the first row. */
  function NeighboursMedianSpec(rows: seq<Record>, radius: real, column: string): Result<seq<Option<real>>> {
    match CentersOf(rows)
    case Raise(e) => Raise(e)
    case Ok(points) =>
      if column !in Columns(rows) then Raise(KeyError)
      else Ok(Neighbourhood.NeighbourMedians(points, Frames.NumericColumn(rows, column), radius))
  }

  /** `get_neighbours_median_temp`: for each center in row order, the median of
      the column over the centers the radius query returns, after removing the
      center itself. */
  method GetNeighboursMedianTemp(rows: seq<Record>, radius: real, column: string) returns (r: Result<seq<Option<real>>>)
    ensures r == NeighboursMedianSpec(rows, radius, column)
  {
    var centers := CentersOf(rows);
    if centers.Raise? {
      return Raise(centers.error);
    }
    if column !in Columns(rows) {
      return Raise(KeyError);
    }
    var points := centers.value;
    var values := Frames.NumericColumn(rows, column);
    ghost var all := Neighbourhood.NeighbourMedians(points, values, radius);
    var medians: seq<Option<real>> := [];
    var i := 0;
    while i < |points|
      invariant 0 <= i <= |points|
      invariant medians == all[..i]
    {
      var m := Neighbourhood.NeighbourMedian(points, values, i, radius);
      medians := medians + [m];
      i := i + 1;
    }
    assert all[..i] == all;
    return Ok(medians);
  }

  /** The call succeeds exactly when there is at least one row, every row has a
      point geometry and the column exists. */
  lemma NeighboursMedianOk(rows: seq<Record>, radius: real, column: string)
    ensures NeighboursMedianSpec(rows, radius, column).Ok? <==>
      |rows| > 0 && column in Columns(rows) &&
      forall i :: 0 <= i < |rows| ==> CenterOf(rows[i]).Ok?
  {
    MapResultOk(rows, CenterOf);
  }

  /** A successful call gives one value per row: the median of the column's
      numeric cells over the other centers within the radius, or None (NaN) when
      none of them has a value. */
  lemma NeighboursMedianValues(rows: seq<Record>, radius: real, column: string)
    requires NeighboursMedianSpec(rows, radius, column).Ok?
    ensures var r := NeighboursMedianSpec(rows, radius, column).value;
      var points := CentersOf(rows).value;
      var values := Frames.NumericColumn(rows, column);
      |r| == |rows| &&
      forall i :: 0 <= i < |rows| ==>
        r[i] == Stats.MedianOpt(Neighbourhood.Present(values, Neighbourhood.Neighbours(points, i, radius))) &&
        (forall j :: j in Neighbourhood.Neighbours(points, i, radius) <==>
          0 <= j < |rows| && j != i && Neighbourhood.Within(points[i], points[j], radius))
  {
    var points := CentersOf(rows).value;
    forall i, j: nat | 0 <= i < |rows|
      ensures j in Neighbourhood.Neighbours(points, i, radius) <==>
        j < |rows| && j != i && Neighbourhood.Within(points[i], points[j], radius)
    {
      Neighbourhood.NeighboursSpec(points, i, radius, j);
    }
  }

  // ---------------------------------------------------------------------------
  // load_modules_gdf and compute_temperatures

  /** What `compute_temperatures` reads below the work directory: the refined
      layout (None when the file is missing), already in projected coordinates,
      the subdirectories of each listed directory, the result of each glob
      pattern and the patches that decode. */
  datatype Workspace = Workspace(
    workDir: string,
    layout: Option<seq<Record>>,
    subdirectories: map<string, seq<string>>,
    globs: map<string, seq<string>>,
    images: map<string, Raster>)

  /** `gdf.geom_type == t`. */
  function GeomTypeIs(t: string): Record -> bool {
    row => Cell(row, "geometry").Geom? && Cell(row, "geometry").g.geomType == Str(t)
  }

  /** `load_modules_gdf`: the polygons (corners) and the points (centers) of the
      layout; indexing by a `track_id` column the layout lacks raises KeyError. */
  function LoadModulesGdf(layout: Option<seq<Record>>): Result<(seq<Record>, seq<Record>)> {
    match layout
    case None => Raise(FileNotFoundError)
    case Some(rows) =>
      if "track_id" !in Columns(rows) then Raise(KeyError)
      else Ok((PyList.Filter(rows, GeomTypeIs("Polygon")), PyList.Filter(rows, GeomTypeIs("Point"))))
  }

  /** Loading succeeds exactly when the file exists and has a `track_id` column;
      the corners are exactly its polygons and the centers exactly its points,
      each in file order. */
  lemma LoadModulesGdfShape(layout: Option<seq<Record>>)
    ensures LoadModulesGdf(layout).Ok? <==> layout.Some? && "track_id" in Columns(layout.value)
    ensures LoadModulesGdf(layout).Ok? ==>
      var (corners, centers) := LoadModulesGdf(layout).value;
      (forall row :: row in corners <==> row in layout.value && GeomTypeIs("Polygon")(row)) &&
      (forall row :: row in centers <==> row in layout.value && GeomTypeIs("Point")(row))
  {
    if LoadModulesGdf(layout).Ok? {
      forall row ensures row in PyList.Filter(layout.value, GeomTypeIs("Polygon")) <==> row in layout.value && GeomTypeIs("Polygon")(row) {
        PyList.FilterMembership(layout.value, GeomTypeIs("Polygon"), row);
      }
      forall row ensures row in PyList.Filter(layout.value, GeomTypeIs("Point")) <==> row in layout.value && GeomTypeIs("Point")(row) {
        PyList.FilterMembership(layout.value, GeomTypeIs("Point"), row);
      }
    }
  }

  function RadiometricDir(w: Workspace): string {
    Temperatures.Join3(w.workDir, "patches_final", "radiometric")
  }

  /** The sorted glob of every file in the module's patch directory. */
  function ModuleFiles(w: Workspace, trackId: string): seq<string> {
    var pattern := Temperatures.Join3(RadiometricDir(w), trackId, "*");
    Text.Sort(if pattern in w.globs then w.globs[pattern] else [])
  }

  /** `get_patch_temps` of the module's patch files. */
  function ModuleTemps(w: Workspace, trackId: string): Result<PatchTemps> {
    PatchStatistics.PatchTempsSpec(ModuleFiles(w, trackId), w.images, DefaultMargin, Gain, Offset)
  }

  /** The temperatures of each listed module, in list order. */
  function ModuleResults(w: Workspace, ids: seq<string>): (r: seq<Result<PatchTemps>>)
    ensures |r| == |ids|
    ensures forall k :: 0 <= k < |ids| ==> r[k] == ModuleTemps(w, ids[k])
  {
    if ids == [] then [] else [ModuleTemps(w, ids[0])] + ModuleResults(w, ids[1..])
  }

  /** The temperatures collected so far and the values given to the progress bar. */
  datatype Collected = Collected(temps: Result<map<string, PatchTemps>>, progress: seq<real>)

  /** The loop over the sorted track ids from the `i`-th on, where `results[k]`
      is what `get_patch_temps` gives for `ids[k]`: each module's temperatures
      are stored, then `i / len(track_ids)` is reported. */
  function CollectFrom(results: seq<Result<PatchTemps>>, ids: seq<string>, i: nat, temps: map<string, PatchTemps>, progress: seq<real>): Collected
    requires i <= |ids| == |results|
    decreases |ids| - i
  {
    if i == |ids| then Collected(Ok(temps), progress)
    else
      match results[i]
      case Raise(e) => Collected(Raise(e), progress)
      case Ok(t) => CollectFrom(results, ids, i + 1, temps[ids[i] := t], progress + [i as real / |ids| as real])
  }

  /** The whole loop over the sorted track ids of the workspace's modules. */
  function CollectAll(w: Workspace, ids: seq<string>): Collected {
    CollectFrom(ModuleResults(w, ids), ids, 0, map[], [])
  }

  /** What a call computes: the error it raises, if any, the corner and center
      frames as far as they got, and the progress values. The source drops the
      frames when it returns; they are kept here to state what was computed. */
  datatype Computed = Computed(error: Option<PyError>, corners: seq<Record>, centers: seq<Record>, progress: seq<real>)

  function ComputeSpec(w: Workspace): Computed {
    match LoadModulesGdf(w.layout)
    case Raise(e) => Computed(Some(e), [], [], [])
    case Ok(frames) =>
      var dir := RadiometricDir(w);
      if dir !in w.subdirectories then Computed(Some(FileNotFoundError), frames.0, frames.1, [])
      else ComputeFrames(w, Text.Sort(w.subdirectories[dir]), frames.0, frames.1)
  }

  /** The part of `compute_temperatures` after the track ids are listed and
      sorted: collect each module's temperatures, then aggregate them into the
      corner frame and then into the center frame. */
  function ComputeFrames(w: Workspace, ids: seq<string>, cornerRows: seq<Record>, centerRows: seq<Record>): Computed {
    var c := CollectAll(w, ids);
    match c.temps
    case Raise(e) => Computed(Some(e), cornerRows, centerRows, c.progress)
    case Ok(temps) =>
      var (corners, e1) := InsertFrom(cornerRows, temps, ColumnsFrom(0));
      if e1.Some? then Computed(e1, corners, centerRows, c.progress)
      else
        var (centers, e2) := InsertFrom(centerRows, temps, ColumnsFrom(0));
        Computed(e2, corners, centers, c.progress)
  }

  /** `get_patch_temps` called on one module's patch files. */
  method GetModuleTemps(w: Workspace, trackId: string) returns (r: Result<PatchTemps>)
    ensures r == ModuleTemps(w, trackId)
  {
    r := PatchStatistics.GetPatchTemps(ModuleFiles(w, trackId), w.images, DefaultMargin, Gain, Offset);
  }

  /** The loop of `compute_temperatures` over the sorted track ids. */
  method CollectTemps(w: Workspace, ids: seq<string>) returns (c: Collected)
    ensures c == CollectAll(w, ids)
  {
    ghost var results := ModuleResults(w, ids);
    var temps: map<string, PatchTemps> := map[];
    var progress: seq<real> := [];
    var i := 0;
    while i < |ids|
      invariant 0 <= i <= |ids|
      invariant CollectFrom(results, ids, 0, map[], []) == CollectFrom(results, ids, i, temps, progress)
    {
      var t := GetModuleTemps(w, ids[i]);
      if t.Raise? {
        return Collected(Raise(t.error), progress);
      }
      temps := temps[ids[i] := t.value];
      progress := progress + [i as real / |ids| as real];
      i := i + 1;
    }
    return Collected(Ok(temps), progress);
  }

  /** `compute_temperatures`. */
  method ComputeTemperatures(w: Workspace) returns (c: Computed)
    ensures c == ComputeSpec(w)
  {
    var loaded := LoadModulesGdf(w.layout);
    if loaded.Raise? {
      return Computed(Some(loaded.error), [], [], []);
    }
    var (cornerRows, centerRows) := loaded.value;
    var dir := RadiometricDir(w);
    if dir !in w.subdirectories {
      return Computed(Some(FileNotFoundError), cornerRows, centerRows, []);
    }
    var ids := Text.Sort(w.subdirectories[dir]);
    var collected := CollectTemps(w, ids);
    if collected.temps.Raise? {
      return Computed(Some(collected.temps.error), cornerRows, centerRows, collected.progress);
    }
    var temps := collected.temps.value;
    var corners := new Frames.Frame(cornerRows);
    var centers := new Frames.Frame(centerRows);
    var err := InsertTemps(corners, temps);
    if err.Some? {
      return Computed(err, corners.rows, centerRows, collected.progress);
    }
    err := InsertTemps(centers, temps);
    return Computed(err, corners.rows, centers.rows, collected.progress);
  }

  /** The loop reports `k / n` as its `k`-th value, and reports every module
      when it does not raise. */
  lemma {:induction false} CollectProgress(results: seq<Result<PatchTemps>>, ids: seq<string>, i: nat, temps: map<string, PatchTemps>, progress: seq<real>)
    requires i <= |ids| == |results| && |progress| == i
    requires forall k :: 0 <= k < i ==> progress[k] == k as real / |ids| as real
    ensures var c := CollectFrom(results, ids, i, temps, progress);
      i <= |c.progress| <= |ids| &&
      (forall k :: 0 <= k < |c.progress| ==> c.progress[k] == k as real / |ids| as real) &&
      (c.temps.Ok? ==> |c.progress| == |ids|)
    decreases |ids| - i
  {
    if i < |ids| && results[i].Ok? {
      CollectProgress(results, ids, i + 1, temps[ids[i] := results[i].value], progress + [i as real / |ids| as real]);
    }
  }

  /** The loop stops at the first module, in sorted order, whose temperatures
      raise, with that module's error: every module reported before it succeeded. */
  lemma {:induction false} CollectStops(results: seq<Result<PatchTemps>>, ids: seq<string>, i: nat, temps: map<string, PatchTemps>, progress: seq<real>)
    requires i <= |ids| == |results| && |progress| == i
    ensures var c := CollectFrom(results, ids, i, temps, progress);
      i <= |c.progress| <= |ids| &&
      (forall k :: i <= k < |c.progress| ==> results[k].Ok?) &&
      (c.temps.Raise? ==> |c.progress| < |ids| && results[|c.progress|] == Raise(c.temps.error))
    decreases |ids| - i
  {
    if i < |ids| && results[i].Ok? {
      CollectStops(results, ids, i + 1, temps[ids[i] := results[i].value], progress + [i as real / |ids| as real]);
    }
  }

  /** A loop that does not raise stores every module's temperatures under its
      track id (the listed directory names are distinct), and keeps what was
      stored before. */
  lemma {:induction false} CollectStores(results: seq<Result<PatchTemps>>, ids: seq<string>, i: nat, temps: map<string, PatchTemps>, progress: seq<real>)
    requires i <= |ids| == |results|
    requires forall j, k :: i <= j < k < |ids| ==> ids[j] != ids[k]
    requires CollectFrom(results, ids, i, temps, progress).temps.Ok?
    ensures var r := CollectFrom(results, ids, i, temps, progress).temps.value;
      (forall t :: t in r <==> t in temps || t in ids[i..]) &&
      (forall t :: t in r && t !in ids[i..] ==> r[t] == temps[t]) &&
      (forall k :: i <= k < |ids| ==> results[k] == Ok(r[ids[k]]))
    decreases |ids| - i
  {
    if i < |ids| {
      var v := results[i].value;
      var temps' := temps[ids[i] := v];
      CollectStores(results, ids, i + 1, temps', progress + [i as real / |ids| as real]);
      var r := CollectFrom(results, ids, i, temps, progress).temps.value;
      assert r == CollectFrom(results, ids, i + 1, temps', progress + [i as real / |ids| as real]).temps.value;
      assert ids[i..] == [ids[i]] + ids[i + 1..];
      assert ids[i] !in ids[i + 1..];
    }
  }

  /** The module listing is reached: the layout loads and the radiometric patch
      directory exists. */
  predicate Listed(w: Workspace) {
    LoadModulesGdf(w.layout).Ok? && RadiometricDir(w) in w.subdirectories
  }

  /** The track ids in the order the loop visits them. */
  function TrackIds(w: Workspace): (ids: seq<string>)
    requires Listed(w)
    ensures multiset(ids) == multiset(w.subdirectories[RadiometricDir(w)])
    ensures Text.Sorted(ids)
  {
    Text.SortSpec(w.subdirectories[RadiometricDir(w)]);
    Text.Sort(w.subdirectories[RadiometricDir(w)])
  }

  lemma ComputeUnfolds(w: Workspace)
    ensures !Listed(w) ==> ComputeSpec(w).error.Some? && ComputeSpec(w).progress == []
    ensures Listed(w) ==>
      var frames := LoadModulesGdf(w.layout).value;
      ComputeSpec(w) == ComputeFrames(w, TrackIds(w), frames.0, frames.1)
  {
  }

  /** Progress: the `k`-th value reported is `k / n` for the `n` listed modules,
      and a run that reports fewer than `n` values raises. Before the listing
      nothing is reported. */
  lemma ComputeProgress(w: Workspace)
    ensures var c := ComputeSpec(w);
      !Listed(w) ==> c.error.Some? && c.progress == []
    ensures var c := ComputeSpec(w);
      Listed(w) ==>
        var n := |w.subdirectories[RadiometricDir(w)]|;
        |c.progress| <= n &&
        (forall k :: 0 <= k < |c.progress| ==> c.progress[k] == k as real / n as real) &&
        (|c.progress| < n ==> c.error.Some?)
  {
    ComputeUnfolds(w);
    if Listed(w) {
      var ids := TrackIds(w);
      assert |ids| == |multiset(ids)| == |multiset(w.subdirectories[RadiometricDir(w)])|;
      CollectProgress(ModuleResults(w, ids), ids, 0, map[], []);
    }
  }

  /** The error of a run that fails while collecting is the error of the first
      module, in sorted track id order, whose temperatures raise: the modules
      before it succeeded, one progress value each. */
  lemma ComputeFirstFailure(w: Workspace)
    requires Listed(w)
    ensures var c := ComputeSpec(w); var ids := TrackIds(w);
      |c.progress| <= |ids| &&
      (forall k :: 0 <= k < |c.progress| ==> ModuleTemps(w, ids[k]).Ok?) &&
      (|c.progress| < |ids| ==> c.error.Some? && ModuleTemps(w, ids[|c.progress|]) == Raise(c.error.value))
  {
    ComputeUnfolds(w);
    var frames := LoadModulesGdf(w.layout).value;
    FramesFirstFailure(w, TrackIds(w), frames.0, frames.1);
  }

  lemma FramesFirstFailure(w: Workspace, ids: seq<string>, cornerRows: seq<Record>, centerRows: seq<Record>)
    ensures var c := ComputeFrames(w, ids, cornerRows, centerRows);
      |c.progress| <= |ids| &&
      (forall k :: 0 <= k < |c.progress| ==> ModuleTemps(w, ids[k]).Ok?) &&
      (|c.progress| < |ids| ==> c.error.Some? && ModuleTemps(w, ids[|c.progress|]) == Raise(c.error.value))
  {
    var results := ModuleResults(w, ids);
    var col := CollectFrom(results, ids, 0, map[], []);
    CollectStops(results, ids, 0, map[], []);
    CollectProgress(results, ids, 0, map[], []);
    assert ComputeFrames(w, ids, cornerRows, centerRows).progress == col.progress;
    if |col.progress| < |ids| {
      assert ComputeFrames(w, ids, cornerRows, centerRows).error == Some(col.temps.error);
    }
  }

  /** When every listed module yields temperatures, the collected map holds each
      module's temperatures under its track id, and they are balanced. */
  lemma CollectAllStores(w: Workspace, ids: seq<string>)
    requires PyList.NoDup(ids)
    requires forall k :: 0 <= k < |ids| ==> ModuleTemps(w, ids[k]).Ok?
    ensures var c := CollectAll(w, ids);
      c.temps.Ok? && |c.progress| == |ids| &&
      (forall t :: t in c.temps.value <==> t in ids) &&
      (forall k :: 0 <= k < |ids| ==> Ok(c.temps.value[ids[k]]) == ModuleTemps(w, ids[k])) &&
      (forall t :: t in c.temps.value ==> Balanced(c.temps.value[t]))
  {
    var results := ModuleResults(w, ids);
    var col := CollectFrom(results, ids, 0, map[], []);
    CollectStops(results, ids, 0, map[], []);
    CollectProgress(results, ids, 0, map[], []);
    CollectStores(results, ids, 0, map[], []);
    assert ids[0..] == ids;
    forall t | t in col.temps.value ensures Balanced(col.temps.value[t]) {
      var k :| 0 <= k < |ids| && ids[k] == t;
      PatchTempsOfFiles(ModuleFiles(w, t), w.images);
    }
  }

  lemma FramesRaise(w: Workspace, ids: seq<string>, cornerRows: seq<Record>, centerRows: seq<Record>)
    requires PyList.NoDup(ids)
    requires forall k :: 0 <= k < |ids| ==> ModuleTemps(w, ids[k]).Ok?
    ensures var c := ComputeFrames(w, ids, cornerRows, centerRows);
      (c.error.Some? <==> exists k :: 0 <= k < |ids| && |ModuleTemps(w, ids[k]).value.min| == 0) &&
      (c.error.Some? ==> c.error == Some(ValueError) && c.corners == cornerRows && c.centers == centerRows)
  {
    CollectAllStores(w, ids);
    var temps := CollectAll(w, ids).temps.value;
    InsertTempsRaises(cornerRows, temps);
    InsertTempsRaises(centerRows, temps);
    if exists t :: t in temps && |temps[t].min| == 0 {
      var t :| t in temps && |temps[t].min| == 0;
      var k :| 0 <= k < |ids| && ids[k] == t;
      assert |ModuleTemps(w, ids[k]).value.min| == 0;
    }
    if exists k :: 0 <= k < |ids| && |ModuleTemps(w, ids[k]).value.min| == 0 {
      var k :| 0 <= k < |ids| && |ModuleTemps(w, ids[k]).value.min| == 0;
      assert ids[k] in temps && |temps[ids[k]].min| == 0;
    }
  }

  /** Sorting the listing keeps its members, and keeps them distinct. */
  lemma TrackIdsMembers(w: Workspace)
    requires Listed(w)
    requires PyList.NoDup(w.subdirectories[RadiometricDir(w)])
    ensures PyList.NoDup(TrackIds(w))
    ensures forall t :: t in TrackIds(w) <==> t in w.subdirectories[RadiometricDir(w)]
  {
    var listing := w.subdirectories[RadiometricDir(w)];
    var ids := TrackIds(w);
    PyList.NoDupPerm(listing, ids);
    forall t ensures t in ids <==> t in listing {
      assert t in ids <==> t in multiset(ids);
    }
  }

  /** With distinct modules that all yield temperatures, `compute_temperatures`
      raises exactly when some listed module has no decodable patch, and then
      raises ValueError from the corner frame before any column is assigned. */
  lemma ComputeRaisesValueError(w: Workspace)
    requires Listed(w)
    requires PyList.NoDup(w.subdirectories[RadiometricDir(w)])
    requires forall t :: t in w.subdirectories[RadiometricDir(w)] ==> ModuleTemps(w, t).Ok?
    ensures var c := ComputeSpec(w); var listing := w.subdirectories[RadiometricDir(w)];
      c.error.Some? <==> exists t :: t in listing && |ModuleTemps(w, t).value.min| == 0
    ensures var c := ComputeSpec(w); var frames := LoadModulesGdf(w.layout).value;
      c.error.Some? ==> c.error == Some(ValueError) && c.corners == frames.0 && c.centers == frames.1
  {
    ComputeUnfolds(w);
    var ids := TrackIds(w);
    TrackIdsMembers(w);
    assert forall k :: 0 <= k < |ids| ==> ids[k] in ids;
    var frames := LoadModulesGdf(w.layout).value;
    FramesRaise(w, ids, frames.0, frames.1);
    var listing := w.subdirectories[RadiometricDir(w)];
    if exists t :: t in listing && |ModuleTemps(w, t).value.min| == 0 {
      var t :| t in listing && |ModuleTemps(w, t).value.min| == 0;
      var k :| 0 <= k < |ids| && ids[k] == t;
    }
  }

  /** Every listed module yields temperatures from at least one patch. */
  predicate AllModulesDecode(w: Workspace, listing: seq<string>) {
    forall t :: t in listing ==> ModuleTemps(w, t).Ok? && |ModuleTemps(w, t).value.min| > 0
  }

  /** The five aggregates of statistic `a` in the output row of the input row
      `row0`: those of its module's temperatures when its track id is listed,
      NaN otherwise. */
  predicate ModuleRow(w: Workspace, listing: seq<string>, row0: Record, row: Record, a: Frames.Agg) {
    var key := Frames.TrackKey(row0);
    if key.Some? && key.value in listing then
      ModuleTemps(w, key.value).Ok? && Aggregated(row, a, Frames.Field(ModuleTemps(w, key.value).value, a))
    else forall s :: Cell(row, ColumnName(ColumnSpec(s, a))) == NaN
  }

  lemma FramesComplete(w: Workspace, ids: seq<string>, cornerRows: seq<Record>, centerRows: seq<Record>)
    requires PyList.NoDup(ids)
    requires forall k :: 0 <= k < |ids| ==> ModuleTemps(w, ids[k]).Ok? && |ModuleTemps(w, ids[k]).value.min| > 0
    ensures CollectAll(w, ids).temps.Ok?
    ensures var temps := CollectAll(w, ids).temps.value;
      NonEmpty(temps) &&
      (forall t :: t in temps <==> t in ids) &&
      (forall t :: t in temps ==> Ok(temps[t]) == ModuleTemps(w, t)) &&
      ComputeFrames(w, ids, cornerRows, centerRows) ==
        Computed(None, InsertFrom(cornerRows, temps, ColumnsFrom(0)).0, InsertFrom(centerRows, temps, ColumnsFrom(0)).0, CollectAll(w, ids).progress)
  {
    CollectAllStores(w, ids);
    var temps := CollectAll(w, ids).temps.value;
    forall t | t in temps ensures Ok(temps[t]) == ModuleTemps(w, t) && |temps[t].min| > 0 {
      var k :| 0 <= k < |ids| && ids[k] == t;
    }
    InsertTempsKeeps(cornerRows, temps);
    InsertTempsKeeps(centerRows, temps);
  }

  /** When every listed module decodes, `compute_temperatures` raises nothing,
      keeps one row per corner and per center, and each row carries the five
      aggregates of every statistic of its own module, or NaN when its track id
      is not listed. */
  lemma ComputeCompleted(w: Workspace, a: Frames.Agg)
    requires Listed(w)
    requires PyList.NoDup(w.subdirectories[RadiometricDir(w)])
    requires AllModulesDecode(w, w.subdirectories[RadiometricDir(w)])
    ensures var c := ComputeSpec(w); var frames := LoadModulesGdf(w.layout).value;
      var listing := w.subdirectories[RadiometricDir(w)];
      c.error.None? && |c.corners| == |frames.0| && |c.centers| == |frames.1| &&
      (forall i :: 0 <= i < |frames.0| ==> ModuleRow(w, listing, frames.0[i], c.corners[i], a)) &&
      (forall i :: 0 <= i < |frames.1| ==> ModuleRow(w, listing, frames.1[i], c.centers[i], a))
  {
    ComputeUnfolds(w);
    var frames := LoadModulesGdf(w.layout).value;
    TrackIdsMembers(w);
    FramesAggregated(w, w.subdirectories[RadiometricDir(w)], TrackIds(w), frames.0, frames.1, a);
  }

  /** The loop and the two aggregations over listed modules that all decode. */
  lemma FramesAggregated(w: Workspace, listing: seq<string>, ids: seq<string>, cornerRows: seq<Record>, centerRows: seq<Record>, a: Frames.Agg)
    requires PyList.NoDup(ids) && (forall t :: t in ids <==> t in listing)
    requires AllModulesDecode(w, listing)
    ensures var c := ComputeFrames(w, ids, cornerRows, centerRows);
      c.error.None? && |c.corners| == |cornerRows| && |c.centers| == |centerRows| &&
      (forall i :: 0 <= i < |cornerRows| ==> ModuleRow(w, listing, cornerRows[i], c.corners[i], a)) &&
      (forall i :: 0 <= i < |centerRows| ==> ModuleRow(w, listing, centerRows[i], c.centers[i], a))
  {
    assert forall k :: 0 <= k < |ids| ==> ids[k] in ids;
    FramesComplete(w, ids, cornerRows, centerRows);
    var temps := CollectAll(w, ids).temps.value;
    RowsAggregated(w, listing, temps, cornerRows, a);
    RowsAggregated(w, listing, temps, centerRows, a);
  }

  lemma RowsAggregated(w: Workspace, listing: seq<string>, temps: map<string, PatchTemps>, rows: seq<Record>, a: Frames.Agg)
    requires NonEmpty(temps)
    requires forall t :: t in temps <==> t in listing
    requires forall t :: t in temps ==> Ok(temps[t]) == ModuleTemps(w, t)
    ensures var out := InsertFrom(rows, temps, ColumnsFrom(0)).0;
      |out| == |rows| &&
      forall i :: 0 <= i < |rows| ==> ModuleRow(w, listing, rows[i], out[i], a)
  {
    InsertTempsKeeps(rows, temps);
    forall i | 0 <= i < |rows|
      ensures ModuleRow(w, listing, rows[i], InsertFrom(rows, temps, ColumnsFrom(0)).0[i], a)
    {
      InsertTempsCells(rows, temps, i, a);
    }
  }
}
