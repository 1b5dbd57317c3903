/** The data-frame steps of the module-temperature analysis: per-module means of
    the patch statistics, the positional neighbour correction, and the merge that
    restores the original geometry.

    A frame holds its rows as records. The module frames of the analysis are
    indexed by track id, so a column assigned from a series keyed by track id is
    aligned on each row's `track_id` cell. */
module Frames {
  import opened Wrappers
  import opened GeoJson
  import Stats
  import PatchStatistics

  /** A data frame whose columns are replaced in place. */
  class Frame {
    var rows: seq<Record>

    constructor (rows: seq<Record>)
      ensures this.rows == rows
    {
      this.rows := rows;
    }

    /** `df[name] = pd.Series(series)`: each row gets the series value at its track
        id, or NaN. */
    method SetAligned(name: string, series: map<string, Value>)
      modifies this
      ensures rows == WithAligned(old(rows), name, series)
    {
      rows := WithAligned(rows, name, series);
    }

    /** `df[name] = cells` for a list of one cell per row. */
    method SetColumn(name: string, cells: seq<Value>)
      requires |cells| == |rows|
      modifies this
      ensures rows == WithColumn(old(rows), name, cells)
    {
      rows := WithColumn(rows, name, cells);
    }
  }

  /** The track id a row is indexed by, when it is a string. */
  function TrackKey(row: Record): Option<string> {
    if "track_id" in row && row["track_id"].Str? then Some(row["track_id"].s) else None
  }

  /** The series value aligned with one row. */
  function AlignedCell(row: Record, series: map<string, Value>): Value {
    match TrackKey(row)
    case Some(t) => if t in series then series[t] else NaN
    case None => NaN
  }

  function WithAligned(rows: seq<Record>, name: string, series: map<string, Value>): (r: seq<Record>)
    ensures |r| == |rows|
  {
    seq(|rows|, i requires 0 <= i < |rows| => rows[i][name := AlignedCell(rows[i], series)])
  }

  function WithColumn(rows: seq<Record>, name: string, cells: seq<Value>): (r: seq<Record>)
    requires |cells| == |rows|
    ensures |r| == |rows|
  {
    seq(|rows|, i requires 0 <= i < |rows| => rows[i][name := cells[i]])
  }

  /** Assigning a column sets that column of every row to the aligned value and
      leaves every other cell as it was. */
  lemma WithAlignedSpec(rows: seq<Record>, name: string, series: map<string, Value>)
    ensures var r := WithAligned(rows, name, series);
      forall i :: 0 <= i < |rows| ==>
        r[i].Keys == rows[i].Keys + {name} &&
        r[i][name] == (if TrackKey(rows[i]).Some? && TrackKey(rows[i]).value in series
                       then series[TrackKey(rows[i]).value] else NaN) &&
        forall k :: k in rows[i] && k != name ==> r[i][k] == rows[i][k]
  {
  }

  // ---------------------------------------------------------------------------
  // mean_over_patches

  /** The four per-pixel statistics of a patch. */
  datatype Agg = Min | Max | Mean | Median

  /** The statistics in the order the analysis visits them. */
  const Aggs: seq<Agg> := [Min, Max, Mean, Median]

  function AggName(a: Agg): string {
    match a
    case Min => "min"
    case Max => "max"
    case Mean => "mean"
    case Median => "median"
  }

  /** The column holding a statistic: `"{agg}_temp"`. */
  function TempColumn(a: Agg): string {
    AggName(a) + "_temp"
  }

  /** The list of one statistic over the patches of a module. */
  function Field(t: PatchStatistics.PatchTemps, a: Agg): seq<real> {
    match a
    case Min => t.min
    case Max => t.max
    case Mean => t.mean
    case Median => t.median
  }

  /** `np.mean` as a cell: the mean of no values is NaN. */
  function MeanCell(xs: seq<real>): (v: Value)
    ensures v == NaN <==> |xs| == 0
    ensures |xs| > 0 ==> v == Num(Stats.Mean(xs))
  {
    match Stats.MeanOpt(xs)
    case None => NaN
    case Some(m) => Num(m)
  }

  /** The series `{track_id: np.mean(t[agg])}`. */
  function MeanSeries(temps: map<string, PatchStatistics.PatchTemps>, a: Agg): (s: map<string, Value>)
    ensures s.Keys == temps.Keys
    ensures forall t :: t in temps ==> s[t] == MeanCell(Field(temps[t], a))
  {
    map t | t in temps :: MeanCell(Field(temps[t], a))
  }

  /** The rows after the first `k` statistics have been assigned. */
  function MeanOverPatchesSpec(rows: seq<Record>, temps: map<string, PatchStatistics.PatchTemps>, k: nat): (r: seq<Record>)
    requires k <= |Aggs|
    ensures |r| == |rows|
  {
    if k == 0 then rows
    else WithAligned(MeanOverPatchesSpec(rows, temps, k - 1), TempColumn(Aggs[k - 1]), MeanSeries(temps, Aggs[k - 1]))
  }

  /** `mean_over_patches`: for each statistic, the column `"{agg}_temp"` of each
      module is the mean of that statistic over the module's patches. */
  method MeanOverPatches(frame: Frame, temps: map<string, PatchStatistics.PatchTemps>)
    modifies frame
    ensures frame.rows == MeanOverPatchesSpec(old(frame.rows), temps, |Aggs|)
  {
    ghost var rows := frame.rows;
    var k := 0;
    while k < |Aggs|
      invariant 0 <= k <= |Aggs|
      invariant frame.rows == MeanOverPatchesSpec(rows, temps, k)
    {
      var a := Aggs[k];
      var series := MeanSeries(temps, a);
      MeanOverPatchesNext(rows, temps, k);
      frame.SetAligned(TempColumn(a), series);
      k := k + 1;
    }
  }

  lemma MeanOverPatchesNext(rows: seq<Record>, temps: map<string, PatchStatistics.PatchTemps>, k: nat)
    requires k < |Aggs|
    ensures MeanOverPatchesSpec(rows, temps, k + 1) ==
      WithAligned(MeanOverPatchesSpec(rows, temps, k), TempColumn(Aggs[k]), MeanSeries(temps, Aggs[k]))
  {
  }

  /** The four statistic columns are new columns: none is an index or geometry
      column. */
  lemma TempColumnIsNew(a: Agg)
    ensures TempColumn(a) !in {"track_id", "geometry_type", "geometry"}
  {
    var c := TempColumn(a);
    assert c[|c| - 1] == 'p';
    assert "track_id"[7] == 'd' && "geometry_type"[12] == 'e' && "geometry"[7] == 'y';
  }

  /** One row after the first `k` statistics have been assigned. */
  function RowAfter(row: Record, temps: map<string, PatchStatistics.PatchTemps>, k: nat): Record
    requires k <= |Aggs|
  {
    if k == 0 then row
    else RowAfter(row, temps, k - 1)[TempColumn(Aggs[k - 1]) := AlignedCell(row, MeanSeries(temps, Aggs[k - 1]))]
  }

  lemma {:induction false} MeanOverPatchesRow(rows: seq<Record>, temps: map<string, PatchStatistics.PatchTemps>, k: nat, i: nat)
    requires k <= |Aggs| && i < |rows|
    ensures MeanOverPatchesSpec(rows, temps, k)[i] == RowAfter(rows[i], temps, k)
    ensures TrackKey(RowAfter(rows[i], temps, k)) == TrackKey(rows[i])
  {
    if k > 0 {
      MeanOverPatchesRow(rows, temps, k - 1, i);
      var prev := MeanOverPatchesSpec(rows, temps, k - 1);
      var name, series := TempColumn(Aggs[k - 1]), MeanSeries(temps, Aggs[k - 1]);
      assert MeanOverPatchesSpec(rows, temps, k)[i] == prev[i][name := AlignedCell(prev[i], series)];
      assert AlignedCell(prev[i], series) == AlignedCell(rows[i], series);
      TempColumnIsNew(Aggs[k - 1]);
      KeepsTrackKey(RowAfter(rows[i], temps, k - 1), name, AlignedCell(rows[i], series));
    }
  }

  lemma KeepsTrackKey(row: Record, name: string, v: Value)
    requires name != "track_id"
    ensures TrackKey(row[name := v]) == TrackKey(row)
  {
    assert ("track_id" in row[name := v]) == ("track_id" in row);
  }

  /** The names of the four statistic columns. */
  function TempColumns(): set<string> {
    set a | a in Aggs :: TempColumn(a)
  }

  /** Different statistics are stored in different columns. */
  lemma TempColumnInjective(a: Agg, b: Agg)
    requires a != b
    ensures TempColumn(a) != TempColumn(b)
  {
    var x, y := TempColumn(a), TempColumn(b);
    if |x| == |y| {
      assert {a, b} == {Min, Max};
      assert x[1] != y[1];
    }
  }

  /** The position of a statistic in `Aggs`. */
  function AggIndex(a: Agg): (j: nat)
    ensures j < |Aggs| && Aggs[j] == a
  {
    match a
    case Min => 0
    case Max => 1
    case Mean => 2
    case Median => 3
  }

  /** `AggIndex` is the position in `Aggs`. */
  lemma AggIndexOfAggs(i: nat)
    requires i < |Aggs|
    ensures AggIndex(Aggs[i]) == i
  {
    if i == 0 {
    } else if i == 1 {
    } else if i == 2 {
    } else {
      assert i == 3;
    }
  }

  /** Once the `j`-th statistic has been assigned, its column holds the aligned
      mean. */
  lemma {:induction false} RowAfterCell(row: Record, temps: map<string, PatchStatistics.PatchTemps>, k: nat, j: nat)
    requires j < k <= |Aggs|
    ensures TempColumn(Aggs[j]) in RowAfter(row, temps, k)
    ensures RowAfter(row, temps, k)[TempColumn(Aggs[j])] == AlignedCell(row, MeanSeries(temps, Aggs[j]))
  {
    var prev := RowAfter(row, temps, k - 1);
    var cell := AlignedCell(row, MeanSeries(temps, Aggs[k - 1]));
    assert RowAfter(row, temps, k) == prev[TempColumn(Aggs[k - 1]) := cell];
    if j < k - 1 {
      RowAfterCell(row, temps, k - 1, j);
      AggsDistinct(j, k - 1);
      TempColumnInjective(Aggs[k - 1], Aggs[j]);
      UpdateKeeps(prev, TempColumn(Aggs[k - 1]), cell, TempColumn(Aggs[j]));
    }
  }

  lemma UpdateKeeps(m: Record, name: string, v: Value, other: string)
    requires name != other && other in m
    ensures other in m[name := v] && m[name := v][other] == m[other]
  {
  }

  /** The four statistics are listed once each. */
  lemma AggsDistinct(j: nat, k: nat)
    requires j < k < |Aggs|
    ensures Aggs[j] != Aggs[k]
  {
    AggIndexOfAggs(j);
    AggIndexOfAggs(k);
  }

  /** A column that is not a statistic column is never touched. */
  lemma {:induction false} RowAfterOther(row: Record, temps: map<string, PatchStatistics.PatchTemps>, k: nat, c: string)
    requires k <= |Aggs| && c !in TempColumns()
    ensures (c in RowAfter(row, temps, k)) == (c in row)
    ensures c in row ==> RowAfter(row, temps, k)[c] == row[c]
  {
    if k > 0 {
      RowAfterOther(row, temps, k - 1, c);
      assert TempColumn(Aggs[k - 1]) in TempColumns();
    }
  }

  /** After `mean_over_patches` the `"{agg}_temp"` cell of a row is the mean of
      that statistic over its module's patches, or NaN when the module has no
      entry or no decoded patch. */
  lemma MeanOverPatchesCell(rows: seq<Record>, temps: map<string, PatchStatistics.PatchTemps>, i: nat, a: Agg)
    requires i < |rows|
    ensures var r := MeanOverPatchesSpec(rows, temps, |Aggs|);
      TempColumn(a) in r[i] &&
      r[i][TempColumn(a)] ==
        (match TrackKey(rows[i])
         case Some(t) => if t in temps then MeanCell(Field(temps[t], a)) else NaN
         case None => NaN)
  {
    MeanOverPatchesRow(rows, temps, |Aggs|, i);
    RowAfterCell(rows[i], temps, |Aggs|, AggIndex(a));
  }

  /** A module with a single decoded patch gets that patch's own statistic. */
  lemma MeanOverPatchesSingle(rows: seq<Record>, temps: map<string, PatchStatistics.PatchTemps>, i: nat, a: Agg, t: string)
    requires i < |rows| && TrackKey(rows[i]) == Some(t) && t in temps && |Field(temps[t], a)| == 1
    ensures TempColumn(a) in MeanOverPatchesSpec(rows, temps, |Aggs|)[i]
    ensures MeanOverPatchesSpec(rows, temps, |Aggs|)[i][TempColumn(a)] == Num(Field(temps[t], a)[0])
  {
    MeanOverPatchesCell(rows, temps, i, a);
    MeanCellSingle(Field(temps[t], a));
  }

  lemma MeanCellSingle(xs: seq<real>)
    requires |xs| == 1
    ensures MeanCell(xs) == Num(xs[0])
  {
    assert xs == [xs[0]];
    Stats.Singleton(xs[0]);
  }

  /** `mean_over_patches` adds the four statistic columns to every row and
      leaves every other cell as it was. */
  lemma MeanOverPatchesKeeps(rows: seq<Record>, temps: map<string, PatchStatistics.PatchTemps>, i: nat)
    requires i < |rows|
    ensures var r := MeanOverPatchesSpec(rows, temps, |Aggs|);
      r[i].Keys == rows[i].Keys + TempColumns() &&
      forall c :: c in rows[i] && c !in TempColumns() ==> r[i][c] == rows[i][c]
  {
    MeanOverPatchesRow(rows, temps, |Aggs|, i);
    var r := RowAfter(rows[i], temps, |Aggs|);
    forall c | c in TempColumns() ensures c in r {
      var a :| a in Aggs && c == TempColumn(a);
      RowAfterCell(rows[i], temps, |Aggs|, AggIndex(a));
    }
    forall c | c !in TempColumns() ensures (c in r) == (c in rows[i]) && (c in rows[i] ==> r[c] == rows[i][c]) {
      RowAfterOther(rows[i], temps, |Aggs|, c);
    }
  }

  // ---------------------------------------------------------------------------
  // Neighbour correction

  /** The cells of a column, with non-numeric cells (NaN) as missing values. */
  function NumericColumn(rows: seq<Record>, name: string): (xs: seq<Option<real>>)
    ensures |xs| == |rows|
    ensures forall i :: 0 <= i < |rows| ==> (xs[i].Some? <==> Cell(rows[i], name).Num?)
    ensures forall i :: 0 <= i < |rows| && xs[i].Some? ==> xs[i].value == Cell(rows[i], name).n
  {
    seq(|rows|, i requires 0 <= i < |rows| => if Cell(rows[i], name).Num? then Some(Cell(rows[i], name).n) else None)
  }

  /** One cell of `column - medians`: NaN when either operand is NaN. */
  function Difference(v: Value, m: Option<real>): Value {
    if v.Num? && m.Some? then Num(v.n - m.value) else NaN
  }

  /** `df.loc[:, name] - medians`: a list is subtracted position by position, and
      a list of another length raises ValueError. */
  function Subtract(rows: seq<Record>, name: string, medians: seq<Option<real>>): (r: Result<seq<Value>>)
    ensures r.Raise? <==> |medians| != |rows|
    ensures r.Raise? ==> r.error == ValueError
    ensures r.Ok? ==> (
      |r.value| == |rows| &&
      forall i :: 0 <= i < |rows| ==>
        (r.value[i].Num? <==> Cell(rows[i], name).Num? && medians[i].Some?) &&
        (r.value[i].Num? ==> r.value[i].n == Cell(rows[i], name).n - medians[i].value))
  {
    if |medians| != |rows| then Raise(ValueError)
    else Ok(seq(|rows|, i requires 0 <= i < |rows| => Difference(Cell(rows[i], name), medians[i])))
  }

  /** The column name of a corrected statistic: `"{column}_corrected"`. */
  function CorrectedColumn(column: string): string {
    column + "_corrected"
  }

  // ---------------------------------------------------------------------------
  // Merge

  /** The first row of `original` with the given track id and geometry type. */
  function FirstMatch(original: seq<Record>, trackId: Value, geometryType: Value): (r: Option<nat>)
    ensures r.Some? ==> (
      r.value < |original| &&
      Cell(original[r.value], "track_id") == trackId && Cell(original[r.value], "geometry_type") == geometryType)
    ensures r.Some? ==> forall j :: 0 <= j < r.value ==>
      !(Cell(original[j], "track_id") == trackId && Cell(original[j], "geometry_type") == geometryType)
    ensures r.None? ==> forall j :: 0 <= j < |original| ==>
      !(Cell(original[j], "track_id") == trackId && Cell(original[j], "geometry_type") == geometryType)
  {
    if |original| == 0 then None
    else if Cell(original[0], "track_id") == trackId && Cell(original[0], "geometry_type") == geometryType then Some(0)
    else
      match FirstMatch(original[1..], trackId, geometryType)
      case None => None
      case Some(k) => Some(k + 1)
  }

  /** One merged row after `update` with the original geometry column: the
      geometry of the original row with the same track id and geometry type,
      unless there is none or it is missing. */
  function Restored(row: Record, original: seq<Record>): Record {
    match FirstMatch(original, Cell(row, "track_id"), Cell(row, "geometry_type"))
    case None => row
    case Some(k) => if Cell(original[k], "geometry") != NaN then row["geometry" := original[k]["geometry"]] else row
  }

  /** `corners.append(centers)`, re-indexed by track id and geometry type, with the
      geometry column updated from the original frame. */
  function MergeSpec(corners: seq<Record>, centers: seq<Record>, original: seq<Record>): (r: seq<Record>)
    ensures |r| == |corners| + |centers|
  {
    var merged := corners + centers;
    seq(|merged|, i requires 0 <= i < |merged| => Restored(merged[i], original))
  }

  /** The merged frame lists the corner rows and then the center rows; each row
      keeps every cell except its geometry, which comes from the first original
      row with the same track id and geometry type when there is one. */
  lemma MergeSpecRows(corners: seq<Record>, centers: seq<Record>, original: seq<Record>, i: nat)
    requires i < |corners| + |centers|
    ensures var row := if i < |corners| then corners[i] else centers[i - |corners|];
      var out := MergeSpec(corners, centers, original)[i];
      out.Keys <= row.Keys + {"geometry"} && row.Keys <= out.Keys &&
      (forall k :: k in row && k != "geometry" ==> out[k] == row[k]) &&
      match FirstMatch(original, Cell(row, "track_id"), Cell(row, "geometry_type"))
      case Some(j) => Cell(original[j], "geometry") != NaN ==> out["geometry"] == original[j]["geometry"]
      case None => out == row
  {
  }
}
