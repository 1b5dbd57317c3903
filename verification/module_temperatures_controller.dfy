/** The controller of the stand-alone module-temperatures window. The same
    class appears twice in the program, once among the components and once
    among the controllers, with identical code; this module models both. */
module ModuleTemperaturesController {
  import opened Wrappers
  import opened AnalysisRun

  /** `AnalysisModuleTemperaturesModel`; every setter emits a change signal,
      and the status signal is kept as `statusLog`. */
  class ModuleTemperaturesModel {
    var name: Option<string>
    var borderMargin: Option<int>
    var neighborRadius: Option<int>
    var progress: Option<int>
    var progressText: Option<string>
    var status: Status
    var statusLog: seq<Status>

    /** Every field starts as `None`. */
    constructor ()
      ensures name == None && borderMargin == None && neighborRadius == None
      ensures progress == None && progressText == None && status == Unset && statusLog == []
    {
      name, borderMargin, neighborRadius := None, None, None;
      progress, progressText, status, statusLog := None, None, Unset, [];
    }

    /** The `status` setter. */
    method SetStatus(s: Status)
      modifies this
      ensures status == s && statusLog == old(statusLog) + [s]
      ensures name == old(name) && borderMargin == old(borderMargin) && neighborRadius == old(neighborRadius)
      ensures progress == old(progress) && progressText == old(progressText)
    {
      status := s;
      statusLog := statusLog + [s];
    }
  }

  /** How a call to `compute` ends. */
  datatype ComputeOutcome = NotOpen | NameTaken | Launched

  /** The name `reset` gives an analysis, from the UTC time formatted as
      `%Y-%m-%dT%H-%M-%S`. */
  function DefaultName(timestamp: string): (r: string)
    ensures |r| == |timestamp| + 9 && r[..9] == "Analysis " && r[9..] == timestamp
  {
    "Analysis " + timestamp
  }

  class Controller {
    const model: ModuleTemperaturesModel
    var thread: bool
    var worker: WorkerHandle?
    /** How often `name_exists` was emitted. */
    var nameExists: nat

    constructor (model: ModuleTemperaturesModel)
      ensures this.model == model && !thread && worker == null && nameExists == 0
    {
      this.model := model;
      thread, worker, nameExists := false, null, 0;
    }

    /** `reset`, with the time of the call given as its formatted timestamp. */
    method Reset(timestamp: string)
      modifies model
      ensures model.name == Some(DefaultName(timestamp))
      ensures model.borderMargin == Some(5) && model.neighborRadius == Some(7)
      ensures model.progress == Some(0) && model.progressText == Some("")
      ensures model.status == Unset && model.statusLog == old(model.statusLog) + [Unset]
    {
      model.name := Some(DefaultName(timestamp));
      model.borderMargin := Some(5);
      model.neighborRadius := Some(7);
      model.progress := Some(0);
      model.progressText := Some("");
      model.SetStatus(Unset);
    }

    /** `compute`, given whether a dataset is open, the existing source names
        and the dataset directory. The status is "started" before the worker
        thread is. */
    method Compute(datasetOpen: bool, sourceNames: seq<string>, datasetDir: Option<string>) returns (r: ComputeOutcome)
      modifies this, model
      ensures r == NotOpen <==> !datasetOpen
      ensures r == NameTaken <==> datasetOpen && model.name.Some? && model.name.value in sourceNames
      ensures nameExists == old(nameExists) + (if r == NameTaken then 1 else 0)
      ensures r != Launched ==>
        thread == old(thread) && worker == old(worker) &&
        model.status == old(model.status) && model.statusLog == old(model.statusLog)
      ensures r == Launched ==>
        thread && fresh(worker) && !worker.isCancelled &&
        worker.args == ModuleTemperaturesArgs(datasetDir, model.name, model.borderMargin, model.neighborRadius, None) &&
        model.status == Started && model.statusLog == old(model.statusLog) + [Started]
      ensures model.name == old(model.name) && model.borderMargin == old(model.borderMargin)
      ensures model.neighborRadius == old(model.neighborRadius)
      ensures model.progress == old(model.progress) && model.progressText == old(model.progressText)
    {
      if !datasetOpen {
        return NotOpen;
      }
      if model.name.Some? && model.name.value in sourceNames {
        nameExists := nameExists + 1;
        return NameTaken;
      }
      model.SetStatus(Started);
      thread := true;
      worker := new WorkerHandle(ModuleTemperaturesArgs(datasetDir, model.name, model.borderMargin, model.neighborRadius, None));
      return Launched;
    }

    /** `report_progress`: the bar shows `round(100 * progress)`, and the status
        becomes "cancelled" exactly when the worker says so. */
    method ReportProgress(progress: real, cancelled: bool, description: Option<string>)
      modifies model
      ensures model.progress == Some(Percent(progress)) && model.progressText == description
      ensures cancelled ==> model.status == Cancelled && model.statusLog == old(model.statusLog) + [Cancelled]
      ensures !cancelled ==> model.status == old(model.status) && model.statusLog == old(model.statusLog)
      ensures model.name == old(model.name)
      ensures model.borderMargin == old(model.borderMargin) && model.neighborRadius == old(model.neighborRadius)
    {
      model.progress := Some(Percent(progress));
      model.progressText := description;
      if cancelled {
        model.SetStatus(Cancelled);
      }
    }

    /** The slot connected to the worker's `finished` signal. */
    method OnFinished()
      modifies model
      ensures model.status == Finished && model.statusLog == old(model.statusLog) + [Finished]
      ensures model.progress == old(model.progress) && model.progressText == old(model.progressText)
      ensures model.name == old(model.name)
      ensures model.borderMargin == old(model.borderMargin) && model.neighborRadius == old(model.neighborRadius)
    {
      model.SetStatus(Finished);
    }

    /** `cancel`: raises the worker's flag only when a thread and a worker exist. */
    method Cancel()
      modifies worker
      ensures worker != null ==> worker.isCancelled == (old(worker.isCancelled) || thread)
    {
      if thread && worker != null {
        worker.isCancelled := true;
      }
    }
  }

  /** A run that completes: the status goes from "started" to "finished", and
      the bar ends at 100. */
  method CompletedRun(c: Controller, sourceNames: seq<string>, datasetDir: Option<string>)
    requires c.model.name.Some? && c.model.name.value !in sourceNames
    modifies c, c.model
    ensures c.model.statusLog == old(c.model.statusLog) + [Started, Finished]
    ensures c.model.progress == Some(100) && c.worker != null && !c.worker.isCancelled
  {
    var r := c.Compute(true, sourceNames, datasetDir);
    c.ReportProgress(1.0, false, Some("Done"));
    PercentRange(1.0, 1.0);
    c.OnFinished();
  }
}
