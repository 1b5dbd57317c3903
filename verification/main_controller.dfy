/** The main controller of the restructured application
    (`src/controllers/main_controller.py`): it closes the dataset, keeps the
    list of sources current, deletes analyses and answers column queries on
    the loaded document. Unlike the main window component it catches no
    exception: a dataset without an `analyses` directory and an out-of-range
    column index both raise. */
module MainControl {
  import opened Wrappers
  import opened GeoJson
  import opened MainState
  import Columns
  import Sources
  import PyList

  /** The entry at position `i` of the column names (a negative `i` counts
      from the end), read without a guard: IndexError when there is none. */
  function SelectedFrom(names: Result<seq<string>>, i: int, dirSet: bool, data: Option<seq<Feature>>): (r: Result<Columns.Dict>)
  {
    match names
    case Raise(e) => Raise(e)
    case Ok(ns) =>
      match PyList.Index(|ns|, i)
      case None => Raise(IndexError)
      case Some(k) => Columns.ColumnQuery(dirSet, data, ns[k])
  }

  /** Without a dataset there are no column names, so any selected index
      raises IndexError; with one, exactly the indices outside the list do. */
  lemma SelectedFromRaises(names: seq<string>, i: int, dirSet: bool, data: Option<seq<Feature>>)
    requires !dirSet ==> names == []
    ensures !dirSet ==> SelectedFrom(Ok(names), i, dirSet, data) == Raise(IndexError)
    ensures SelectedFrom(Ok(names), i, dirSet, data) == Raise(IndexError) <==>
      (i < -|names| || |names| <= i || Columns.ColumnQuery(dirSet, data, names[PyList.Index(|names|, i).value]) == Raise(IndexError))
  {
  }

  /** Whether `delete_source` acts on `name`: a dataset is open, a name is
      given, and it is not the module layout, which cannot be deleted. */
  predicate Deletes(dirSet: bool, name: Option<string>) {
    dirSet && name.Some? && name.value != Sources.ModuleLayout
  }

  class MainController {
    const model: MainModel
    /** The subdirectories of `<dataset_dir>/analyses` on disk. */
    var analyses: Sources.Listing
    /** How often `source_deleted` was emitted. */
    var sourceDeleted: nat

    constructor (model: MainModel, analyses: Sources.Listing)
      ensures this.model == model && this.analyses == analyses && sourceDeleted == 0
    {
      this.model := model;
      this.analyses := analyses;
      sourceDeleted := 0;
    }

    /** `close_dataset`: the model is reset without signals, then marked closed,
        which emits `dataset_closed`. */
    method CloseDataset()
      modifies model
      ensures model.State() == Cleared
      ensures model.signals == old(model.signals) + [DatasetClosed]
    {
      model.Reset();
      model.SetDatasetIsOpen(false);
    }

    /** The outcome of `update_source_names` on the listing as it is now. */
    twostate predicate Refreshed(new raised: Option<PyError>)
      reads this, model
    {
      match Sources.SourceNames(old(model.datasetDir).Some?, analyses)
      case Raise(e) =>
        raised == Some(e) && model.State() == old(model.State()) && model.signals == old(model.signals)
      case Ok(names) =>
        raised == None && model.State() == old(model.State()).(sourceNames := Some(names)) &&
        model.signals == old(model.signals) + [SourceNamesChanged(Some(names))]
    }

    /** `update_source_names`: the list is only stored when the listing
        succeeds. */
    method UpdateSourceNames() returns (raised: Option<PyError>)
      modifies model
      ensures Refreshed(raised)
    {
      var r := Sources.SourceNames(model.datasetDir.Some?, analyses);
      if r.Raise? {
        return Some(r.error);
      }
      model.SetSourceNames(Some(r.value));
      return None;
    }

    /** `delete_source`: `source_deleted` is emitted exactly when the deleted
        source is the one shown, the analysis directory is removed, and the
        list of sources is read again. */
    method DeleteSource(name: Option<string>) returns (raised: Option<PyError>)
      modifies this, model
      ensures !Deletes(old(model.datasetDir).Some?, name) ==>
        raised == None && analyses == old(analyses) && sourceDeleted == old(sourceDeleted) &&
        model.State() == old(model.State()) && model.signals == old(model.signals)
      ensures Deletes(old(model.datasetDir).Some?, name) ==>
        analyses == Sources.Deleted(old(analyses), name.value) &&
        sourceDeleted == old(sourceDeleted) + (if name == old(model.selectedSource) then 1 else 0) &&
        Refreshed(raised)
    {
      if model.datasetDir.None? || name.None? || name.value == Sources.ModuleLayout {
        return None;
      }
      if name == model.selectedSource {
        sourceDeleted := sourceDeleted + 1;
      }
      analyses := Sources.Deleted(analyses, name.value);
      raised := UpdateSourceNames();
    }

    method GetColumnNames() returns (r: Result<seq<string>>)
      ensures Columns.NamesQuery(model.datasetDir.Some?, model.data, r)
    {
      r := Columns.QueryColumnNames(model.datasetDir.Some?, model.data);
    }

    method GetColumn(column: string) returns (r: Result<Columns.Dict>)
      ensures r == Columns.ColumnQuery(model.datasetDir.Some?, model.data, column)
    {
      r := Columns.QueryColumn(model.datasetDir.Some?, model.data, column);
    }

    /** `get_selected_column`: the empty dictionary only when no column is
        selected; otherwise the selected index is looked up in the column
        names (`names`, what `get_column_names` returned) without a guard. */
    method GetSelectedColumn() returns (r: Result<Columns.Dict>, ghost names: Result<seq<string>>)
      ensures model.selectedColumn.None? ==> r == Ok([])
      ensures model.selectedColumn.Some? ==>
        Columns.NamesQuery(model.datasetDir.Some?, model.data, names) &&
        r == SelectedFrom(names, model.selectedColumn.value, model.datasetDir.Some?, model.data)
    {
      names := Ok([]);
      if model.selectedColumn.None? {
        return Ok([]), names;
      }
      var listed := GetColumnNames();
      names := listed;
      if listed.Raise? {
        return Raise(listed.error), names;
      }
      var k := PyList.Index(|listed.value|, model.selectedColumn.value);
      if k.None? {
        return Raise(IndexError), names;
      }
      r := GetColumn(listed.value[k.value]);
    }
  }
}
