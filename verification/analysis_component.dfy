/** The tabbed analysis window's controller (`src/components/analysis.py`):
    its model with the module-temperature and sun-filter settings, and the
    controller that resets them, starts a worker, shows its progress and
    cancels it. Every model setter emits a change signal; the status signal is
    kept as `statusLog`. */
module AnalysisComponent {
  import opened Wrappers
  import opened AnalysisRun

  /** The active tab: no widget, or a widget with its `objectName()`. */
  datatype Tab = NoTab | Tab(objectName: Option<string>)

  /** `AnalysisModel` together with its `module_temperatures` and `sun_filter`
      sub-models. */
  class AnalysisModel {
    var name: Option<string>
    var progress: Option<int>
    var progressText: Option<string>
    var status: Status
    var statusLog: seq<Status>
    var activeTab: Tab
    // module_temperatures
    var borderMargin: Option<int>
    var neighborRadius: Option<int>
    var ignoreSunReflections: Option<bool>
    // sun_filter
    var thresholdTemp: Option<real>
    var thresholdLoc: Option<real>
    var thresholdChangepoint: Option<real>
    var segmentLengthThreshold: Option<real>

    /** Every field starts as `None`. */
    constructor ()
      ensures name == None && progress == None && progressText == None && status == Unset
      ensures statusLog == [] && activeTab == NoTab
      ensures borderMargin == None && neighborRadius == None && ignoreSunReflections == None
      ensures thresholdTemp == None && thresholdLoc == None && thresholdChangepoint == None
      ensures segmentLengthThreshold == None
    {
      name, progress, progressText, status, statusLog, activeTab := None, None, None, Unset, [], NoTab;
      borderMargin, neighborRadius, ignoreSunReflections := None, None, None;
      thresholdTemp, thresholdLoc, thresholdChangepoint, segmentLengthThreshold := None, None, None, None;
    }

    /** The `status` setter: stores the value and emits `status_changed`. */
    method SetStatus(s: Status)
      modifies this
      ensures status == s && statusLog == old(statusLog) + [s]
      ensures name == old(name) && progress == old(progress) && progressText == old(progressText)
      ensures activeTab == old(activeTab)
      ensures borderMargin == old(borderMargin) && neighborRadius == old(neighborRadius)
      ensures ignoreSunReflections == old(ignoreSunReflections)
      ensures thresholdTemp == old(thresholdTemp) && thresholdLoc == old(thresholdLoc)
      ensures thresholdChangepoint == old(thresholdChangepoint)
      ensures segmentLengthThreshold == old(segmentLengthThreshold)
    {
      status := s;
      statusLog := statusLog + [s];
    }
  }

  /** How a call to `compute` ends. */
  datatype ComputeOutcome =
    | NotOpen      // no dataset is open: nothing happens
    | NameTaken    // `name_exists` is emitted
    | NoActiveTab  // no tab, or a tab without a name: nothing happens
    | Launched     // a worker is created and its thread started
    | Raised(error: PyError)  // status and thread are set, then the call raises

  class AnalysisController {
    const model: AnalysisModel
    var thread: bool
    var worker: WorkerHandle?
    /** How often `name_exists` was emitted. */
    var nameExists: nat

    constructor (model: AnalysisModel)
      ensures this.model == model && !thread && worker == null && nameExists == 0
    {
      this.model := model;
      thread, worker, nameExists := false, null, 0;
    }

    /** `reset`: progress 0, empty text, no status, and the default settings
        of both analyses. The name and the active tab are kept. */
    method Reset()
      modifies model
      ensures model.progress == Some(0) && model.progressText == Some("")
      ensures model.status == Unset && model.statusLog == old(model.statusLog) + [Unset]
      ensures model.borderMargin == Some(5) && model.neighborRadius == Some(7)
      ensures model.ignoreSunReflections == Some(false)
      ensures model.thresholdTemp == Some(5.0) && model.thresholdLoc == Some(10.0)
      ensures model.thresholdChangepoint == Some(10.0) && model.segmentLengthThreshold == Some(0.3)
      ensures model.name == old(model.name) && model.activeTab == old(model.activeTab)
    {
      model.progress := Some(0);
      model.progressText := Some("");
      model.SetStatus(Unset);
      model.borderMargin := Some(5);
      model.neighborRadius := Some(7);
      model.ignoreSunReflections := Some(false);
      model.thresholdTemp := Some(5.0);
      model.thresholdLoc := Some(10.0);
      model.thresholdChangepoint := Some(10.0);
      model.segmentLengthThreshold := Some(0.3);
    }

    /** `compute`, given what it reads from the main model: whether a dataset
        is open, the existing source names, the dataset directory and the
        loaded sun reflections. A tab other than the two analysis tabs creates
        no worker, so the previous worker, if any, is started again; without
        one the call raises AttributeError. */
    method Compute(datasetOpen: bool, sourceNames: seq<string>, datasetDir: Option<string>,
                   sunReflections: Option<map<string, seq<string>>>) returns (r: ComputeOutcome)
      modifies this, model
      ensures r == NotOpen <==> !datasetOpen
      ensures r == NameTaken <==> datasetOpen && model.name.Some? && model.name.value in sourceNames
      ensures r.NameTaken? ==> nameExists == old(nameExists) + 1
      ensures !r.NameTaken? ==> nameExists == old(nameExists)
      ensures r.NotOpen? || r.NameTaken? || r.NoActiveTab? ==>
        thread == old(thread) && worker == old(worker) &&
        model.status == old(model.status) && model.statusLog == old(model.statusLog)
      ensures r == NoActiveTab <==>
        datasetOpen && !(model.name.Some? && model.name.value in sourceNames) &&
        (model.activeTab.NoTab? || model.activeTab.objectName.None?)
      ensures r.Raised? ==>
        r == Raised(AttributeError) && old(worker) == null &&
        model.activeTab.objectName.value !in {"tabSunFilter", "tabModuleTemperatures"}
      ensures r.Launched? || r.Raised? ==>
        thread && model.status == Started &&
        model.statusLog == old(model.statusLog) + [Started]
      ensures r.Launched? && model.activeTab == Tab(Some("tabSunFilter")) ==>
        fresh(worker) && !worker.isCancelled &&
        worker.args == SunFilterArgs(datasetDir, model.name, model.thresholdTemp, model.thresholdLoc,
                                     model.thresholdChangepoint, model.segmentLengthThreshold)
      ensures r.Launched? && model.activeTab == Tab(Some("tabModuleTemperatures")) ==>
        fresh(worker) && !worker.isCancelled &&
        worker.args == ModuleTemperaturesArgs(datasetDir, model.name, model.borderMargin, model.neighborRadius,
                                              Some(SunArgs(model.ignoreSunReflections, sunReflections)))
      ensures (r.Launched? || r.Raised?) && model.activeTab.objectName.value !in {"tabSunFilter", "tabModuleTemperatures"} ==>
        worker == old(worker) && (r == Raised(AttributeError) <==> old(worker) == null)
      ensures model.name == old(model.name) && model.activeTab == old(model.activeTab)
      ensures model.progress == old(model.progress) && model.progressText == old(model.progressText)
      ensures model.borderMargin == old(model.borderMargin) && model.neighborRadius == old(model.neighborRadius)
      ensures model.ignoreSunReflections == old(model.ignoreSunReflections)
      ensures model.thresholdTemp == old(model.thresholdTemp) && model.thresholdLoc == old(model.thresholdLoc)
      ensures model.thresholdChangepoint == old(model.thresholdChangepoint)
      ensures model.segmentLengthThreshold == old(model.segmentLengthThreshold)
    {
      if !datasetOpen {
        return NotOpen;
      }
      if model.name.Some? && model.name.value in sourceNames {
        nameExists := nameExists + 1;
        return NameTaken;
      }
      if model.activeTab.NoTab? || model.activeTab.objectName.None? {
        return NoActiveTab;
      }
      model.SetStatus(Started);
      thread := true;
      var tab := model.activeTab.objectName.value;
      if tab == "tabSunFilter" {
        worker := new WorkerHandle(SunFilterArgs(datasetDir, model.name, model.thresholdTemp, model.thresholdLoc,
                                                 model.thresholdChangepoint, model.segmentLengthThreshold));
      } else if tab == "tabModuleTemperatures" {
        worker := new WorkerHandle(ModuleTemperaturesArgs(datasetDir, model.name, model.borderMargin, model.neighborRadius,
                                                          Some(SunArgs(model.ignoreSunReflections, sunReflections))));
      }
      if worker == null {
        return Raised(AttributeError);
      }
      return Launched;
    }

    /** `report_progress`: the bar shows `round(100 * progress)`, the label the
        description, and the status becomes "cancelled" exactly when the
        worker says it was cancelled. */
    method ReportProgress(progress: real, cancelled: bool, description: Option<string>)
      modifies model
      ensures model.progress == Some(Percent(progress)) && model.progressText == description
      ensures cancelled ==> model.status == Cancelled && model.statusLog == old(model.statusLog) + [Cancelled]
      ensures !cancelled ==> model.status == old(model.status) && model.statusLog == old(model.statusLog)
      ensures model.name == old(model.name) && model.activeTab == old(model.activeTab)
      ensures model.borderMargin == old(model.borderMargin) && model.neighborRadius == old(model.neighborRadius)
      ensures model.ignoreSunReflections == old(model.ignoreSunReflections)
      ensures model.thresholdTemp == old(model.thresholdTemp) && model.thresholdLoc == old(model.thresholdLoc)
      ensures model.thresholdChangepoint == old(model.thresholdChangepoint)
      ensures model.segmentLengthThreshold == old(model.segmentLengthThreshold)
    {
      model.progress := Some(Percent(progress));
      model.progressText := description;
      if cancelled {
        model.SetStatus(Cancelled);
      }
    }

    /** The slot connected to the worker's `finished` signal. */
    method OnFinished()
      modifies model
      ensures model.status == Finished
      ensures model.statusLog == old(model.statusLog) + [Finished]
      ensures model.progress == old(model.progress) && model.progressText == old(model.progressText)
      ensures model.name == old(model.name) && model.activeTab == old(model.activeTab)
      ensures model.borderMargin == old(model.borderMargin) && model.neighborRadius == old(model.neighborRadius)
      ensures model.ignoreSunReflections == old(model.ignoreSunReflections)
      ensures model.thresholdTemp == old(model.thresholdTemp) && model.thresholdLoc == old(model.thresholdLoc)
      ensures model.thresholdChangepoint == old(model.thresholdChangepoint)
      ensures model.segmentLengthThreshold == old(model.segmentLengthThreshold)
    {
      model.SetStatus(Finished);
    }

    /** `cancel`: raises the worker's flag, only when a thread and a worker
        exist. Raising it again changes nothing. */
    method Cancel()
      modifies worker
      ensures worker != null ==> worker.isCancelled == (old(worker.isCancelled) || thread)
    {
      if thread && worker != null {
        worker.isCancelled := true;
      }
    }
  }

  /** A run that the user cancels: the worker reports the cancellation and then
      emits `finished`, so the status passes through "started", "cancelled" and
      "finished" in that order, and the worker's flag is up. */
  method CancelledRun(c: AnalysisController, sourceNames: seq<string>, datasetDir: Option<string>, p: real)
    requires c.model.name.Some? && c.model.name.value !in sourceNames
    requires c.model.activeTab == Tab(Some("tabModuleTemperatures"))
    modifies c, c.model
    ensures c.model.statusLog == old(c.model.statusLog) + [Started, Cancelled, Finished]
    ensures c.model.status == Finished
    ensures c.worker != null && c.worker.isCancelled
  {
    var r := c.Compute(true, sourceNames, datasetDir, None);
    c.Cancel();
    c.Cancel();
    c.ReportProgress(p, true, Some("Cancelled"));
    c.OnFinished();
  }
}
