/** The older single-file application (`main_bak.py`): its `Dataset` object,
    which holds the open dataset and its list of sources, and the
    module-temperatures window, which starts, shows and cancels an analysis.
    The widgets the window enables and hides are not modelled; the progress
    bar, its label and the name field are. The file imports a worker class
    that `analysis/temperatures.py` does not define; the model treats that
    import as resolved and records the worker by its arguments. */
module LegacyApp {
  import opened Wrappers
  import opened GeoJson
  import opened AnalysisRun
  import Columns
  import Sources
  import ModuleTemperaturesController

  datatype Signal = Opened | Closed | Changed | SourceDeleted | SourceNamesUpdated

  class Dataset {
    var datasetDir: Option<string>
    var selectedSource: Option<string>
    var sourceNames: Option<seq<string>>
    /** The `features` of the loaded GeoJSON document. */
    var data: Option<seq<Feature>>
    var meta: Option<map<string, Value>>
    var isOpen: bool
    /** The subdirectories of `<dataset_dir>/analyses` on disk. */
    var analyses: Sources.Listing
    var signals: seq<Signal>

    /** The state `reset` leaves (`patch_meta` is not modelled). */
    ghost predicate Cleared()
      reads this
    {
      datasetDir == None && selectedSource == None && sourceNames == None &&
      data == None && meta == None && !isOpen
    }

    constructor (analyses: Sources.Listing)
      ensures Cleared() && this.analyses == analyses && signals == []
    {
      datasetDir, selectedSource, sourceNames, data, meta, isOpen := None, None, None, None, None, false;
      this.analyses := analyses;
      signals := [];
    }

    method Reset()
      modifies this
      ensures Cleared() && analyses == old(analyses) && signals == old(signals)
    {
      datasetDir, selectedSource, sourceNames, data, meta, isOpen := None, None, None, None, None, false;
    }

    /** `close`: reset, and emit `closed`. */
    method Close()
      modifies this
      ensures Cleared() && analyses == old(analyses) && signals == old(signals) + [Closed]
    {
      Reset();
      isOpen := false;
      signals := signals + [Closed];
    }

    method GetColumn(column: string) returns (r: Result<Columns.Dict>)
      ensures r == Columns.ColumnQuery(datasetDir.Some?, data, column)
    {
      r := Columns.QueryColumn(datasetDir.Some?, data, column);
    }

    /** `update_source_names` empties the list before it reads the directory,
        so a failing read leaves the list empty rather than unchanged, and
        `source_names_updated` is then not emitted. */
    method UpdateSourceNames() returns (raised: Option<PyError>)
      modifies this
      ensures datasetDir == old(datasetDir) && selectedSource == old(selectedSource)
      ensures data == old(data) && meta == old(meta) && isOpen == old(isOpen) && analyses == old(analyses)
      ensures match Sources.SourceNames(datasetDir.Some?, analyses)
        case Raise(e) => raised == Some(e) && sourceNames == Some([]) && signals == old(signals)
        case Ok(names) => raised == None && sourceNames == Some(names) && signals == old(signals) + [SourceNamesUpdated]
    {
      sourceNames := Some([]);
      var r := Sources.SourceNames(datasetDir.Some?, analyses);
      if r.Raise? {
        return Some(r.error);
      }
      sourceNames := Some(r.value);
      signals := signals + [SourceNamesUpdated];
      return None;
    }

    /** `delete_source`: ignored without a dataset, without a name and for
        the module layout; otherwise `source_deleted` is emitted exactly when
        the deleted source is the one shown, the analysis directory is removed
        and the list is read again. */
    method DeleteSource(name: Option<string>) returns (raised: Option<PyError>)
      modifies this
      ensures datasetDir == old(datasetDir) && selectedSource == old(selectedSource)
      ensures data == old(data) && meta == old(meta) && isOpen == old(isOpen)
      ensures !(datasetDir.Some? && name.Some? && name.value != Sources.ModuleLayout) ==>
        raised == None && analyses == old(analyses) && sourceNames == old(sourceNames) && signals == old(signals)
      ensures datasetDir.Some? && name.Some? && name.value != Sources.ModuleLayout ==>
        var emitted := old(signals) + (if name == selectedSource then [SourceDeleted] else []);
        analyses == Sources.Deleted(old(analyses), name.value) &&
        match Sources.SourceNames(true, analyses)
        case Raise(e) => raised == Some(e) && sourceNames == Some([]) && signals == emitted
        case Ok(names) => raised == None && sourceNames == Some(names) && signals == emitted + [SourceNamesUpdated]
    {
      if datasetDir.None? || name.None? || name.value == Sources.ModuleLayout {
        return None;
      }
      if name == selectedSource {
        signals := signals + [SourceDeleted];
      }
      analyses := Sources.Deleted(analyses, name.value);
      raised := UpdateSourceNames();
    }
  }

  /** How a call to `compute` ends. */
  datatype ComputeOutcome = NotOpen | NameTaken | Launched | Raised(error: PyError)

  /** The module-temperatures window. */
  class ModuleTemperatures {
    var thread: bool
    var worker: WorkerHandle?
    var progressBar: int
    var progressLabel: Option<string>
    /** The text of the name field. */
    var name: string
    /** How often the "name already exists" message box was shown. */
    var nameExists: nat

    /** A thread is only ever created together with its worker. */
    ghost predicate Valid()
      reads this
    {
      thread ==> worker != null
    }

    /** The constructor calls `reset`, given the time as its formatted
        timestamp. */
    constructor (timestamp: string)
      ensures Valid() && !thread && worker == null && nameExists == 0
      ensures progressBar == 0 && progressLabel == Some("")
      ensures name == ModuleTemperaturesController.DefaultName(timestamp)
    {
      thread, worker, nameExists := false, null, 0;
      progressBar, progressLabel := 0, Some("");
      name := ModuleTemperaturesController.DefaultName(timestamp);
    }

    /** `reset`: no thread, an empty bar and label, and a fresh default name.
        The worker of an earlier run is kept but no longer reachable through
        `cancel`. */
    method Reset(timestamp: string)
      modifies this
      ensures Valid() && !thread && worker == old(worker) && nameExists == old(nameExists)
      ensures progressBar == 0 && progressLabel == Some("")
      ensures name == ModuleTemperaturesController.DefaultName(timestamp)
    {
      thread := false;
      progressBar := 0;
      progressLabel := Some("");
      name := ModuleTemperaturesController.DefaultName(timestamp);
    }

    /** `reportProgress`: the bar shows `round(100 * progress)`, and the label
        shows the description whether or not the run was cancelled. */
    method ReportProgress(progress: real, cancelled: bool, description: Option<string>)
      modifies this
      ensures progressBar == Percent(progress) && progressLabel == description
      ensures thread == old(thread) && worker == old(worker) && name == old(name) && nameExists == old(nameExists)
    {
      progressBar := Percent(progress);
      progressLabel := description;
    }

    /** `compute`: nothing without an open dataset; a name already among the
        sources shows a message and starts nothing; otherwise a worker is
        created with the dataset directory, the name and the two settings and
        its thread is started. Testing the name against a dataset whose list
        of sources was never read raises TypeError. */
    method Compute(dataset: Dataset, borderMargin: int, neighbourRadius: int) returns (r: ComputeOutcome)
      requires Valid()
      modifies this
      ensures Valid() && name == old(name) && progressBar == old(progressBar) && progressLabel == old(progressLabel)
      ensures r == NotOpen <==> !dataset.isOpen
      ensures r == Raised(TypeError) <==> dataset.isOpen && dataset.sourceNames.None?
      ensures r == NameTaken <==> dataset.isOpen && dataset.sourceNames.Some? && name in dataset.sourceNames.value
      ensures nameExists == old(nameExists) + (if r == NameTaken then 1 else 0)
      ensures r != Launched ==> thread == old(thread) && worker == old(worker)
      ensures r == Launched ==>
        thread && fresh(worker) && !worker.isCancelled &&
        worker.args == ModuleTemperaturesArgs(dataset.datasetDir, Some(name), Some(borderMargin), Some(neighbourRadius), None)
    {
      if !dataset.isOpen {
        return NotOpen;
      }
      if dataset.sourceNames.None? {
        return Raised(TypeError);
      }
      if name in dataset.sourceNames.value {
        nameExists := nameExists + 1;
        return NameTaken;
      }
      thread := true;
      worker := new WorkerHandle(ModuleTemperaturesArgs(dataset.datasetDir, Some(name), Some(borderMargin), Some(neighbourRadius), None));
      return Launched;
    }

    /** `cancel`: raises the worker's flag only while a thread exists. */
    method Cancel()
      requires Valid()
      modifies worker
      ensures worker != null ==> worker.isCancelled == (old(worker.isCancelled) || thread)
    {
      if thread {
        worker.isCancelled := true;
      }
    }
  }

  /** After `reset`, `cancel` no longer reaches the worker of the previous
      run, so cancelling then leaves its flag as it was. */
  method CancelAfterReset(w: ModuleTemperatures, timestamp: string)
    requires w.Valid()
    modifies w, w.worker
    ensures w.worker == old(w.worker)
    ensures w.worker != null ==> w.worker.isCancelled == old(w.worker.isCancelled)
  {
    w.Reset(timestamp);
    w.Cancel();
  }
}
