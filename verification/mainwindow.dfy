/** The main window component (`src/components/mainwindow.py`): its model,
    whose property setters emit signals, and the controller that resets the
    model, keeps the source list current, deletes analyses, answers column
    queries, sets the colour range of the map for the selected column and
    counts the modules of the dataset. Signals are kept as the log `signals`
    in emission order. */
module MainWindow {
  import opened Wrappers
  import opened GeoJson
  import Columns
  import Sources
  import PyList
  import Text

  // ---------------------------------------------------------------------------
  // Python's `min` and `max` on the values of a column

  /** Values Python compares as numbers: `True` and `False` count as 1 and 0. */
  predicate IsNumber(v: Value) {
    v.Num? || v.Bool? || v.NaN?
  }

  function NumberValue(v: Value): real
    requires IsNumber(v) && !v.NaN?
  {
    if v.Num? then v.n else if v.b then 1.0 else 0.0
  }

  /** `a < b`: every comparison with NaN is false, strings compare by code
      points, and any other mix of types raises TypeError. */
  function Less(a: Value, b: Value): (r: Result<bool>)
    ensures r.Raise? ==> r.error == TypeError
  {
    if IsNumber(a) && IsNumber(b) then
      if a.NaN? || b.NaN? then Ok(false) else Ok(NumberValue(a) < NumberValue(b))
    else if a.Str? && b.Str? then Ok(Text.LexLe(a.s, b.s) && a.s != b.s)
    else Raise(TypeError)
  }

  /** The loop of `min`: a later value replaces the current one when it is
      smaller; `max` is the same loop with the comparison turned round. */
  function ExtremeFrom(vs: seq<Value>, i: nat, current: Value, smallest: bool): Result<Value>
    requires i <= |vs|
    decreases |vs| - i
  {
    if i == |vs| then Ok(current)
    else
      match (if smallest then Less(vs[i], current) else Less(current, vs[i]))
      case Raise(e) => Raise(e)
      case Ok(replace) => ExtremeFrom(vs, i + 1, if replace then vs[i] else current, smallest)
  }

  /** `min(vs)` and `max(vs)` on a non-empty sequence. */
  function Min(vs: seq<Value>): Result<Value>
    requires |vs| > 0
  {
    ExtremeFrom(vs, 1, vs[0], true)
  }

  function Max(vs: seq<Value>): Result<Value>
    requires |vs| > 0
  {
    ExtremeFrom(vs, 1, vs[0], false)
  }

  predicate AllNumbers(vs: seq<Value>) {
    forall i :: 0 <= i < |vs| ==> vs[i].Num?
  }

  lemma {:induction false} ExtremeNumbers(vs: seq<Value>, i: nat, current: Value, smallest: bool)
    requires i <= |vs| && AllNumbers(vs) && current.Num?
    ensures var r := ExtremeFrom(vs, i, current, smallest);
      r.Ok? && r.value.Num? && (r.value == current || exists j :: i <= j < |vs| && vs[j] == r.value) &&
      (smallest ==> r.value.n <= current.n && forall j :: i <= j < |vs| ==> r.value.n <= vs[j].n) &&
      (!smallest ==> r.value.n >= current.n && forall j :: i <= j < |vs| ==> r.value.n >= vs[j].n)
    decreases |vs| - i
  {
    if i < |vs| {
      var next := if smallest then (if vs[i].n < current.n then vs[i] else current)
                  else (if current.n < vs[i].n then vs[i] else current);
      ExtremeNumbers(vs, i + 1, next, smallest);
    }
  }

  /** On a column of plain numbers, `min` and `max` return a value of the
      column that is no greater, respectively no smaller, than every value. */
  lemma MinMaxNumbers(vs: seq<Value>)
    requires |vs| > 0 && AllNumbers(vs)
    ensures Min(vs).Ok? && Min(vs).value in vs && forall j :: 0 <= j < |vs| ==> Min(vs).value.n <= vs[j].n
    ensures Max(vs).Ok? && Max(vs).value in vs && forall j :: 0 <= j < |vs| ==> Max(vs).value.n >= vs[j].n
  {
    ExtremeNumbers(vs, 1, vs[0], true);
    ExtremeNumbers(vs, 1, vs[0], false);
  }

  // ---------------------------------------------------------------------------
  // The colour range for a selected column

  /** The range used when there is nothing to take it from. */
  const FallbackRange: (Value, Value) := (Num(-5.0), Num(5.0))

  /** The range `set_selected_column` gives the map for the column at position
      `value` of `names`: the fallback when there is no such column or it is
      empty, otherwise the smallest and largest value of the column. */
  function RangeFor(names: seq<string>, value: int, dirSet: bool, data: Option<seq<Feature>>): Result<(Value, Value)>
  {
    match PyList.Index(|names|, value)
    case None => Ok(FallbackRange)
    case Some(k) =>
      match Columns.ColumnQuery(dirSet, data, names[k])
      case Raise(e) => Raise(e)
      case Ok(column) =>
        if |column| == 0 then Ok(FallbackRange)
        else
          var vs := Columns.Values(column);
          match Min(vs)
          case Raise(e) => Raise(e)
          case Ok(lo) =>
            match Max(vs)
            case Raise(e) => Raise(e)
            case Ok(hi) => Ok((lo, hi))
  }

  /** An index without a column gives the fallback range, and a column of
      plain numbers gives a range that contains every value of the column. */
  lemma RangeForSpec(names: seq<string>, value: int, dirSet: bool, data: Option<seq<Feature>>)
    ensures (value < -|names| || |names| <= value) ==> RangeFor(names, value, dirSet, data) == Ok(FallbackRange)
    ensures PyList.Index(|names|, value).Some? ==>
      var column := Columns.ColumnQuery(dirSet, data, names[PyList.Index(|names|, value).value]);
      column.Ok? && |column.value| > 0 && AllNumbers(Columns.Values(column.value)) ==>
        var r := RangeFor(names, value, dirSet, data);
        r.Ok? && r.value.0.Num? && r.value.1.Num? && r.value.0.n <= r.value.1.n &&
        forall i :: 0 <= i < |column.value| ==> r.value.0.n <= column.value[i].1.n <= r.value.1.n
  {
    if PyList.Index(|names|, value).Some? {
      var column := Columns.ColumnQuery(dirSet, data, names[PyList.Index(|names|, value).value]);
      if column.Ok? && |column.value| > 0 && AllNumbers(Columns.Values(column.value)) {
        var vs := Columns.Values(column.value);
        MinMaxNumbers(vs);
        assert Min(vs).value.n <= vs[0].n <= Max(vs).value.n;
        forall i | 0 <= i < |column.value| ensures Min(vs).value.n <= column.value[i].1.n <= Max(vs).value.n {
          assert vs[i] == column.value[i].1;
        }
      }
    }
  }

  /** What `get_selected_column` returns: the empty dictionary when no column
      is selected or the index has no column, else that column. */
  function SelectedGuarded(names: Result<seq<string>>, selected: Option<int>, dirSet: bool, data: Option<seq<Feature>>): Result<Columns.Dict>
  {
    if selected.None? then Ok([])
    else match names
      case Raise(e) => Raise(e)
      case Ok(ns) =>
        match PyList.Index(|ns|, selected.value)
        case None => Ok([])
        case Some(k) => Columns.ColumnQuery(dirSet, data, ns[k])
  }

  // ---------------------------------------------------------------------------
  // The model

  /** The statistics shown in the status bar. Only the module count is
      computed here; the others come from the file system and are given. */
  datatype DatasetStats = DatasetStats(numModules: nat, numPatches: nat, flightDuration: string, trajectoryLength: real)

  datatype Signal =
    | MetaChanged
    | AppModeChanged(mode: Option<string>)
    | SelectedColumnChanged(column: Option<int>)
    | TrackIdChanged(previous: Option<string>, current: Option<string>)
    | DatasetOpened
    | DatasetClosed
    | SourceNamesChanged(names: Option<seq<string>>)
    | SelectedSourceChanged(source: Option<string>)
    | DatasetStatsChanged(stats: Option<DatasetStats>)
    | SourceDeleted
    /** Emitted by the map model's colour-range setters. */
    | MinValChanged(minVal: Value)
    | MaxValChanged(maxVal: Value)

  datatype Fields = Fields(
    datasetDir: Option<string>,
    data: Option<seq<Feature>>,
    meta: Option<map<string, Value>>,
    trackIds: Option<seq<Value>>,
    appMode: Option<string>,
    sourceNames: Option<seq<string>>,
    datasetIsOpen: bool,
    selectedSource: Option<string>,
    selectedColumn: Option<int>,
    trackId: Option<string>,
    datasetStats: Option<DatasetStats>,
    minVal: Option<Value>,
    maxVal: Option<Value>)

  /** `MainModel` of the main window, with the colour range of its map model. */
  class WindowModel {
    var datasetDir: Option<string>
    var data: Option<seq<Feature>>
    var meta: Option<map<string, Value>>
    var trackIds: Option<seq<Value>>
    var appMode: Option<string>
    var sourceNames: Option<seq<string>>
    var datasetIsOpen: bool
    var selectedSource: Option<string>
    var selectedColumn: Option<int>
    var trackId: Option<string>
    var datasetStats: Option<DatasetStats>
    var minVal: Option<Value>
    var maxVal: Option<Value>
    var signals: seq<Signal>

    function State(): Fields
      reads this
    {
      Fields(datasetDir, data, meta, trackIds, appMode, sourceNames, datasetIsOpen,
             selectedSource, selectedColumn, trackId, datasetStats, minVal, maxVal)
    }

    constructor ()
      ensures State() == Fields(None, None, None, None, None, None, false, None, None, None, None, None, None)
      ensures signals == []
    {
      datasetDir, data, meta, trackIds, appMode, sourceNames := None, None, None, None, None, None;
      datasetIsOpen, selectedSource, selectedColumn, trackId := false, None, None, None;
      datasetStats, minVal, maxVal, signals := None, None, None, [];
    }

    /** Records a signal of the controller, such as `source_deleted`, in the
        same log. */
    method Emit(s: Signal)
      modifies this
      ensures State() == old(State()) && signals == old(signals) + [s]
    {
      signals := signals + [s];
    }

    method SetMeta(value: Option<map<string, Value>>)
      modifies this
      ensures State() == old(State()).(meta := value) && signals == old(signals) + [MetaChanged]
    {
      meta := value;
      signals := signals + [MetaChanged];
    }

    method SetAppMode(value: Option<string>)
      modifies this
      ensures State() == old(State()).(appMode := value) && signals == old(signals) + [AppModeChanged(value)]
    {
      appMode := value;
      signals := signals + [AppModeChanged(value)];
    }

    method SetSelectedColumn(value: Option<int>)
      modifies this
      ensures State() == old(State()).(selectedColumn := value)
      ensures signals == old(signals) + [SelectedColumnChanged(value)]
    {
      selectedColumn := value;
      signals := signals + [SelectedColumnChanged(value)];
    }

    /** The `min_val` setter of the map model: stores the value and emits
        `min_val_changed` with it. */
    method SetMinVal(value: Value)
      modifies this
      ensures State() == old(State()).(minVal := Some(value))
      ensures signals == old(signals) + [MinValChanged(value)]
    {
      minVal := Some(value);
      signals := signals + [MinValChanged(value)];
    }

    /** The `max_val` setter of the map model. */
    method SetMaxVal(value: Value)
      modifies this
      ensures State() == old(State()).(maxVal := Some(value))
      ensures signals == old(signals) + [MaxValChanged(value)]
    {
      maxVal := Some(value);
      signals := signals + [MaxValChanged(value)];
    }

    /** `track_id_changed` carries the previous and the new module. */
    method SetTrackId(value: Option<string>)
      modifies this
      ensures State() == old(State()).(trackId := value)
      ensures signals == old(signals) + [TrackIdChanged(old(trackId), value)]
    {
      var previous := trackId;
      trackId := value;
      signals := signals + [TrackIdChanged(previous, value)];
    }

    method SetDatasetIsOpen(value: bool)
      modifies this
      ensures State() == old(State()).(datasetIsOpen := value)
      ensures signals == old(signals) + [if value then DatasetOpened else DatasetClosed]
    {
      datasetIsOpen := value;
      if datasetIsOpen {
        signals := signals + [DatasetOpened];
      } else {
        signals := signals + [DatasetClosed];
      }
    }

    method SetSourceNames(value: Option<seq<string>>)
      modifies this
      ensures State() == old(State()).(sourceNames := value)
      ensures signals == old(signals) + [SourceNamesChanged(value)]
    {
      sourceNames := value;
      signals := signals + [SourceNamesChanged(value)];
    }

    method SetSelectedSource(value: Option<string>)
      modifies this
      ensures State() == old(State()).(selectedSource := value)
      ensures signals == old(signals) + [SelectedSourceChanged(value)]
    {
      selectedSource := value;
      signals := signals + [SelectedSourceChanged(value)];
    }

    method SetDatasetStats(value: Option<DatasetStats>)
      modifies this
      ensures State() == old(State()).(datasetStats := value)
      ensures signals == old(signals) + [DatasetStatsChanged(value)]
    {
      datasetStats := value;
      signals := signals + [DatasetStatsChanged(value)];
    }
  }

  /** The signals `reset` emits, in order, given the module selected before. */
  function ResetSignals(previousTrackId: Option<string>): seq<Signal> {
    [MetaChanged, AppModeChanged(None), SourceNamesChanged(None), DatasetClosed,
     SelectedSourceChanged(None), SelectedColumnChanged(None),
     TrackIdChanged(previousTrackId, None), DatasetStatsChanged(None)]
  }

  // ---------------------------------------------------------------------------
  // The controller

  class WindowController {
    const model: WindowModel
    /** The subdirectories of `<dataset_dir>/analyses` on disk. */
    var analyses: Sources.Listing

    constructor (model: WindowModel, analyses: Sources.Listing)
      ensures this.model == model && this.analyses == analyses
    {
      this.model := model;
      this.analyses := analyses;
    }

    /** `reset`, which `close_dataset` also runs: every field of the model is
        cleared; the colour range of the map is kept. */
    method Reset()
      modifies model
      ensures model.State() == Fields(None, None, None, None, None, None, false, None, None, None, None,
                                      old(model.minVal), old(model.maxVal))
      ensures model.signals == old(model.signals) + ResetSignals(old(model.trackId))
    {
      model.datasetDir := None;
      model.data := None;
      model.SetMeta(None);
      model.trackIds := None;
      model.SetAppMode(None);
      model.SetSourceNames(None);
      model.SetDatasetIsOpen(false);
      model.SetSelectedSource(None);
      model.SetSelectedColumn(None);
      model.SetTrackId(None);
      model.SetDatasetStats(None);
    }

    /** `update_source_names`: never raises; see `Sources.DisplayedSourceNames`. */
    method UpdateSourceNames()
      modifies model
      ensures var names := Sources.DisplayedSourceNames(old(model.datasetDir).Some?, analyses);
        model.State() == old(model.State()).(sourceNames := Some(names)) &&
        model.signals == old(model.signals) + [SourceNamesChanged(Some(names))]
    {
      model.SetSourceNames(Some(Sources.DisplayedSourceNames(model.datasetDir.Some?, analyses)));
    }

    /** `delete_source`: nothing happens without a dataset, without a name or
        for the module layout; otherwise `source_deleted` is emitted exactly
        when the deleted source is the one shown, the analysis directory is
        removed and the source list is refreshed. */
    method DeleteSource(name: Option<string>)
      modifies this, model
      ensures !(old(model.datasetDir).Some? && name.Some? && name.value != Sources.ModuleLayout) ==>
        analyses == old(analyses) && model.State() == old(model.State()) && model.signals == old(model.signals)
      ensures old(model.datasetDir).Some? && name.Some? && name.value != Sources.ModuleLayout ==>
        var names := Sources.DisplayedSourceNames(true, analyses);
        analyses == Sources.Deleted(old(analyses), name.value) &&
        model.State() == old(model.State()).(sourceNames := Some(names)) &&
        model.signals == old(model.signals) + (if name == old(model.selectedSource) then [SourceDeleted] else []) +
                         [SourceNamesChanged(Some(names))]
    {
      if model.datasetDir.None? || name.None? || name.value == Sources.ModuleLayout {
        return;
      }
      if name == model.selectedSource {
        model.Emit(SourceDeleted);
      }
      analyses := Sources.Deleted(analyses, name.value);
      UpdateSourceNames();
    }

    method GetColumnNames() returns (r: Result<seq<string>>)
      ensures Columns.NamesQuery(model.datasetDir.Some?, model.data, r)
    {
      r := Columns.QueryColumnNames(model.datasetDir.Some?, model.data);
    }

    method GetColumn(column: string) returns (r: Result<Columns.Dict>)
      ensures r == Columns.ColumnQuery(model.datasetDir.Some?, model.data, column)
    {
      r := Columns.QueryColumn(model.datasetDir.Some?, model.data, column);
    }

    /** `get_selected_column`, with `names` what `get_column_names` returned. */
    method GetSelectedColumn() returns (r: Result<Columns.Dict>, ghost names: Result<seq<string>>)
      ensures model.selectedColumn.Some? ==> Columns.NamesQuery(model.datasetDir.Some?, model.data, names)
      ensures r == SelectedGuarded(names, model.selectedColumn, model.datasetDir.Some?, model.data)
    {
      names := Ok([]);
      if model.selectedColumn.None? {
        return Ok([]), names;
      }
      var listed := GetColumnNames();
      names := listed;
      if listed.Raise? {
        return Raise(listed.error), names;
      }
      var k := PyList.Index(|listed.value|, model.selectedColumn.value);
      if k.None? {
        return Ok([]), names;
      }
      r := GetColumn(listed.value[k.value]);
    }

    /** `set_selected_column`: the colour range is set first, then the
        selected column, each announced by its setter in that order. When a
        query raises, nothing is set and nothing is emitted. */
    method SetSelectedColumn(value: int) returns (raised: Option<PyError>, ghost names: Result<seq<string>>)
      modifies model
      ensures Columns.NamesQuery(old(model.datasetDir).Some?, old(model.data), names)
      ensures var range := if names.Raise? then Raise(names.error)
                           else RangeFor(names.value, value, old(model.datasetDir).Some?, old(model.data));
        match range
        case Raise(e) =>
          raised == Some(e) && model.State() == old(model.State()) && model.signals == old(model.signals)
        case Ok(r) =>
          raised == None &&
          model.State() == old(model.State()).(minVal := Some(r.0), maxVal := Some(r.1), selectedColumn := Some(value)) &&
          model.signals == old(model.signals) + [MinValChanged(r.0), MaxValChanged(r.1), SelectedColumnChanged(Some(value))]
    {
      var listed := GetColumnNames();
      names := listed;
      if listed.Raise? {
        return Some(listed.error), names;
      }
      var lo, hi := FallbackRange.0, FallbackRange.1;
      var k := PyList.Index(|listed.value|, value);
      if k.Some? {
        var column := GetColumn(listed.value[k.value]);
        if column.Raise? {
          return Some(column.error), names;
        }
        if |column.value| > 0 {
          var vs := Columns.Values(column.value);
          var mn := Min(vs);
          if mn.Raise? {
            return Some(mn.error), names;
          }
          var mx := Max(vs);
          if mx.Raise? {
            return Some(mx.error), names;
          }
          lo, hi := mn.value, mx.value;
        }
      }
      model.SetMinVal(lo);
      model.SetMaxVal(hi);
      model.SetSelectedColumn(Some(value));
      return None, names;
    }

    /** `update_dataset_stats`, given the patch count, flight duration and
        trajectory length it reads from the file system: the module count is
        the number of polygon features. */
    method UpdateDatasetStats(numPatches: nat, flightDuration: string, trajectoryLength: real) returns (raised: Option<PyError>)
      modifies model
      ensures old(model.datasetDir).None? ==>
        raised == None && model.State() == old(model.State()) && model.signals == old(model.signals)
      ensures old(model.datasetDir).Some? && old(model.data).None? ==>
        raised == Some(TypeError) && model.State() == old(model.State()) && model.signals == old(model.signals)
      ensures old(model.datasetDir).Some? && old(model.data).Some? ==>
        var features := old(model.data).value;
        var stats := DatasetStats(|PyList.Filter(features, Columns.IsModule)|, numPatches, flightDuration, trajectoryLength);
        raised == None && model.datasetStats.Some? &&
        model.datasetStats.value.numModules == |set i | 0 <= i < |features| && Columns.IsModule(features[i])| &&
        model.State() == old(model.State()).(datasetStats := Some(stats)) &&
        model.signals == old(model.signals) + [DatasetStatsChanged(Some(stats))]
    {
      if model.datasetDir.None? {
        return None;
      }
      if model.data.None? {
        return Some(TypeError);
      }
      var n := Columns.NumModules(model.data.value);
      model.SetDatasetStats(Some(DatasetStats(n, numPatches, flightDuration, trajectoryLength)));
      return None;
    }
  }
}
