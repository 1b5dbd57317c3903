/** The module-temperature analysis worker: it loads the module layout, reduces
    the radiometric patches of every module to temperatures, corrects each module
    by the median of its neighbours, and writes the results and their metadata.

    The worker reports through two signals, `progress(fraction, cancelled, text)`
    and `finished()`; here both become events in the order they are emitted, and
    the two files written at the end become events too. The file system is an
    input (`Dataset`), and the cancellation flag, which the user interface sets
    from outside, is observed through `cancelAt`: the flag is up from the poll
    with that number on. */
module Temperatures {
  import opened Wrappers
  import opened GeoJson
  import PyList
  import Text
  import PatchStatistics
  import Neighbourhood
  import Frames

  // ---------------------------------------------------------------------------
  // load_modules

  /** The rows whose `geometry_type` cell is the given type. */
  function OfType(t: string): Record -> bool {
    row => Cell(row, "geometry_type") == Str(t)
  }

  /** The frames `load_modules` returns: the layout as loaded, and its corners
      (polygons) and centers (points) in projected coordinates. */
  datatype Modules = Modules(df: seq<Record>, corners: seq<Record>, centers: seq<Record>)

  /** `load_modules`: a missing layout file raises FileNotFoundError. */
  function LoadModulesSpec(layout: Option<seq<Feature>>, project: (real, real) -> (real, real)): Result<Modules> {
    match layout
    case None => Raise(FileNotFoundError)
    case Some(features) =>
      match LoadSpec(features)
      case Raise(e) => Raise(e)
      case Ok(df) =>
        match ReprojectSpec(df, project)
        case Raise(e) => Raise(e)
        case Ok(ltp) => Ok(Modules(df, PyList.Filter(ltp, OfType("Polygon")), PyList.Filter(ltp, OfType("Point"))))
  }

  method LoadModules(layout: Option<seq<Feature>>, project: (real, real) -> (real, real)) returns (r: Result<Modules>)
    ensures r == LoadModulesSpec(layout, project)
  {
    if layout.None? {
      return Raise(FileNotFoundError);
    }
    var df := Load(layout.value);
    if df.Raise? {
      return Raise(df.error);
    }
    var ltp := Reproject(df.value, project);
    if ltp.Raise? {
      return Raise(ltp.error);
    }
    var corners := PyList.Filter(ltp.value, OfType("Polygon"));
    var centers := PyList.Filter(ltp.value, OfType("Point"));
    return Ok(Modules(df.value, corners, centers));
  }

  /** Loading succeeds exactly when the layout file exists, holds at least one
      feature and every feature has a track id; a missing file raises
      FileNotFoundError and a bad layout KeyError. The corners are exactly the
      projected polygons and the centers exactly the projected points. */
  lemma LoadModulesShape(layout: Option<seq<Feature>>, project: (real, real) -> (real, real))
    ensures LoadModulesSpec(layout, project).Ok? <==>
      layout.Some? && |layout.value| > 0 && forall i :: 0 <= i < |layout.value| ==> "track_id" in layout.value[i].properties
    ensures layout.None? ==> LoadModulesSpec(layout, project) == Raise(FileNotFoundError)
    ensures layout.Some? && LoadModulesSpec(layout, project).Raise? ==> LoadModulesSpec(layout, project).error == KeyError
    ensures LoadModulesSpec(layout, project).Ok? ==>
      var m := LoadModulesSpec(layout, project).value;
      var ltp := ReprojectSpec(m.df, project).value;
      |m.df| == |layout.value| &&
      (forall row :: row in m.corners <==> row in ltp && Cell(row, "geometry_type") == Str("Polygon")) &&
      (forall row :: row in m.centers <==> row in ltp && Cell(row, "geometry_type") == Str("Point"))
  {
    if layout.Some? {
      var features := layout.value;
      LoadSpecShape(features);
      if LoadSpec(features).Ok? {
        var df := LoadSpec(features).value;
        var step := row => ReprojectRow(row, project);
        forall i | 0 <= i < |df| ensures step(df[i]).Ok? {
          RecordOfFeature(features[i], df[i]);
        }
        MapResultOk(df, step);
        if |df| > 0 {
          RecordOfFeature(features[0], df[0]);
          assert "geometry" in Columns(df);
        } else {
          assert Columns(df) == {};
        }
        if ReprojectSpec(df, project).Ok? {
          var ltp := ReprojectSpec(df, project).value;
          forall row ensures row in PyList.Filter(ltp, OfType("Polygon")) <==> row in ltp && OfType("Polygon")(row) {
            PyList.FilterMembership(ltp, OfType("Polygon"), row);
          }
          forall row ensures row in PyList.Filter(ltp, OfType("Point")) <==> row in ltp && OfType("Point")(row) {
            PyList.FilterMembership(ltp, OfType("Point"), row);
          }
        }
      }
    }
  }

  // ---------------------------------------------------------------------------
  // The worker's inputs, outputs and state

  /** The worker's parameters; `borderMargin` is already a fraction of the width. */
  datatype Settings = Settings(
    datasetDir: string, datasetVersion: string, name: string,
    gain: real, offset: real, borderMargin: real, neighbourRadius: real,
    ignoreSunReflections: bool, sunReflections: Option<map<string, seq<string>>>,
    timestamp: string)

  /** What the worker reads from disk: the layout file (None when it is missing),
      the subdirectories of each listed directory, the result of each glob
      pattern, the patches that decode, and the WGS84 to local projection. */
  datatype Dataset = Dataset(
    layout: Option<seq<Feature>>,
    subdirectories: map<string, seq<string>>,
    globs: map<string, seq<string>>,
    images: map<string, PatchStatistics.Raster>,
    project: (real, real) -> (real, real))

  /** Everything a run depends on. */
  datatype Env = Env(settings: Settings, dataset: Dataset, cancelAt: Option<nat>)

  /** The contents of `meta.json`. */
  datatype Meta = Meta(
    kind: string, timestamp: string, datasetDir: string,
    borderMargin: real, neighbourRadius: real, ignoreSunReflections: bool,
    sunReflections: Option<map<string, seq<string>>>)

  /** What an observer sees of a run, in order. */
  datatype Event =
    | Progress(fraction: real, cancelled: bool, text: string)
    | Finished
    | WroteResults(path: string, results: Collection)
    | WroteMeta(path: string, meta: Meta)

  /** How `run` ends: normally, by returning after a cancellation, or by raising. */
  datatype Outcome = Completed | Cancelled | Failed(error: PyError)

  /** The worker's mutable state: polls of the flag so far, the flag, the
      progress reached by the last finished step, and the events so far. */
  datatype State = State(polls: nat, cancelled: bool, last: real, events: seq<Event>)

  /** A stage either continues with a value or ends the run. */
  datatype Step<T> = Continue(value: T, st: State) | Stop(outcome: Outcome, st: State)

  /** The corner and center frames between the stages of the analysis. */
  datatype Pair = Pair(corners: seq<Record>, centers: seq<Record>)

  /** Whether the flag is up at poll number `poll`. */
  predicate CancelRequested(cancelAt: Option<nat>, poll: nat) {
    cancelAt.Some? && cancelAt.value <= poll
  }

  /** Reading `self.is_cancelled`. */
  function PollState(st: State, cancelAt: Option<nat>): (r: State)
    ensures r.polls == st.polls + 1 && r.last == st.last && r.events == st.events
    ensures r.cancelled <==> st.cancelled || CancelRequested(cancelAt, st.polls)
  {
    st.(polls := st.polls + 1, cancelled := st.cancelled || CancelRequested(cancelAt, st.polls))
  }

  /** `(i / n) / 5`: the share of one fifth of the bar after `i` of `n` steps. */
  function Fraction(i: nat, n: nat): (f: real)
    requires i < n
    ensures 0.0 <= f < 0.2
  {
    FractionBelowOne(i, n);
    (i as real / n as real) / 5.0
  }

  lemma FractionBelowOne(i: nat, n: nat)
    requires i < n
    ensures 0.0 <= i as real / n as real < 1.0
  {
    var q := i as real / n as real;
    assert q * n as real == i as real;
  }

  /** The two events of a cancellation. */
  function CancelEvents(p: real): seq<Event> {
    [Progress(p, true, "Cancelled"), Finished]
  }

  /** `os.path.join` of several parts. */
  function Join3(a: string, b: string, c: string): string {
    Text.PathJoin(Text.PathJoin(a, b), c)
  }

  /** The patch directory of the dataset version; other versions leave it unbound. */
  function PatchesDir(s: Settings): Option<string> {
    if s.datasetVersion == "v1" then Some(Join3(s.datasetDir, "patches_final", "radiometric"))
    else if s.datasetVersion == "v2" then Some(Join3(s.datasetDir, "patches", "radiometric"))
    else None
  }

  // ---------------------------------------------------------------------------
  // Patch temperatures of every module (the first fifth of the progress bar)

  /** The sorted patch files of a module, without sun reflections when they are
      to be ignored; a module missing from the reflection data raises KeyError. */
  function PatchFiles(env: Env, patchesDir: string, trackId: string): Result<seq<string>> {
    var s := env.settings;
    var pattern := Join3(patchesDir, trackId, "*");
    var files := Text.Sort(if pattern in env.dataset.globs then env.dataset.globs[pattern] else []);
    if s.ignoreSunReflections && s.sunReflections.Some? then
      if trackId in s.sunReflections.value
      then Ok(PyList.Filter(files, PatchStatistics.KeepPatch(s.sunReflections.value[trackId])))
      else Raise(KeyError)
    else Ok(files)
  }

  /** The patch temperatures of one module. */
  function TrackTemps(env: Env, patchesDir: string, trackId: string): Result<PatchStatistics.PatchTemps> {
    match PatchFiles(env, patchesDir, trackId)
    case Raise(e) => Raise(e)
    case Ok(files) =>
      PatchStatistics.PatchTempsSpec(files, env.dataset.images, env.settings.borderMargin, env.settings.gain, env.settings.offset)
  }

  const ExtractText: string := "Computing temperature distribution..."

  /** The patch temperatures of every module, in the order of `trackIds`;
      the loop computes entry `i` at its iteration `i`. */
  function TrackResults(env: Env, patchesDir: string, trackIds: seq<string>): (r: seq<Result<PatchStatistics.PatchTemps>>)
    ensures |r| == |trackIds|
  {
    seq(|trackIds|, k requires 0 <= k < |trackIds| => TrackTemps(env, patchesDir, trackIds[k]))
  }

  /** Iteration `i` of the loop over the modules, given the modules'
      temperatures `results`. */
  function ExtractStep(env: Env, trackIds: seq<string>, results: seq<Result<PatchStatistics.PatchTemps>>, i: nat,
                       temps: map<string, PatchStatistics.PatchTemps>, st: State): Step<map<string, PatchStatistics.PatchTemps>>
    requires i < |trackIds| == |results|
  {
    var p := Fraction(i, |trackIds|);
    var polled := PollState(st, env.cancelAt);
    if polled.cancelled then Stop(Cancelled, polled.(events := polled.events + CancelEvents(p)))
    else
      match results[i]
      case Raise(e) => Stop(Failed(e), polled)
      case Ok(t) => Continue(temps[trackIds[i] := t], polled.(events := polled.events + [Progress(p, false, ExtractText)]))
  }

  /** The loop over the modules from iteration `i` on. */
  function ExtractFrom(env: Env, trackIds: seq<string>, results: seq<Result<PatchStatistics.PatchTemps>>, i: nat,
                       temps: map<string, PatchStatistics.PatchTemps>, st: State): Step<map<string, PatchStatistics.PatchTemps>>
    requires i <= |trackIds| == |results|
    decreases |trackIds| - i
  {
    if i == |trackIds| then Continue(temps, st)
    else
      match ExtractStep(env, trackIds, results, i, temps, st)
      case Stop(o, s) => Stop(o, s)
      case Continue(t, s) => ExtractFrom(env, trackIds, results, i + 1, t, s)
  }

  /** Lines 118 to 132 of `run`: list the modules, loop over them, and record the
      progress of the last iteration. With no module the progress variable is
      never bound and reading it raises UnboundLocalError. */
  function ExtractSpec(env: Env, patchesDir: Option<string>, st: State): Step<map<string, PatchStatistics.PatchTemps>> {
    if patchesDir.None? then Stop(Failed(UnboundLocalError), st)
    else if patchesDir.value !in env.dataset.subdirectories then Stop(Failed(FileNotFoundError), st)
    else
      var trackIds := Text.Sort(env.dataset.subdirectories[patchesDir.value]);
      ExtractDone(|trackIds|, ExtractFrom(env, trackIds, TrackResults(env, patchesDir.value, trackIds), 0, map[], st))
  }

  /** After the loop over `n` modules: the progress variable holds the last
      iteration's fraction, or was never bound. */
  function ExtractDone(n: nat, loop: Step<map<string, PatchStatistics.PatchTemps>>): Step<map<string, PatchStatistics.PatchTemps>> {
    match loop
    case Stop(o, s) => Stop(o, s)
    case Continue(temps, s) =>
      if n == 0 then Stop(Failed(UnboundLocalError), s)
      else Continue(temps, s.(last := Fraction(n - 1, n)))
  }

  // ---------------------------------------------------------------------------
  // Neighbour medians (one fifth of the progress bar per statistic)

  /** The center of one module as line 87 reads it: `d["coordinates"][0]` and
      `[1]`. A cell that is not a geometry raises TypeError and a coordinate list
      with fewer than two entries IndexError; nested coordinates give None, which
      the tree later refuses. */
  function CenterOf(row: Record): Result<Option<Neighbourhood.Point>> {
    match Cell(row, "geometry")
    case Geom(g) =>
      (match g.coordinates
       case Position(x, y) => Ok(Some(Neighbourhood.Point(x, y)))
       case Positions(items) => if |items| < 2 then Raise(IndexError) else Ok(None))
    case _ => Raise(TypeError)
  }

  /** The points the tree is built on; the tree raises ValueError for no points
      or for points that are not pairs of numbers. */
  function CentersSpec(rows: seq<Record>): (r: Result<seq<Neighbourhood.Point>>)
    ensures r.Ok? ==> |r.value| == |rows| && |rows| > 0
  {
    match MapResult(rows, CenterOf)
    case Raise(e) => Raise(e)
    case Ok(cs) =>
      MapResultOk(rows, CenterOf);
      if |cs| == 0 || exists j :: 0 <= j < |cs| && cs[j].None? then Raise(ValueError)
      else Ok(seq(|cs|, j requires 0 <= j < |cs| => cs[j].value))
  }

  /** `"Computing corrected {}...".format(" ".join(column.split("_")))`. */
  function CorrectingText(column: string): string {
    "Computing corrected " + Text.Join(Text.Split(column, '_'), ' ') + "..."
  }

  /** One iteration of the loop over the centers, which reports `p` and,
      unless cancelled, appends the median `m`. */
  function NeighbourStep(env: Env, p: real, text: string, m: Option<real>, ms: seq<Option<real>>, st: State): Step<seq<Option<real>>> {
    var polled := PollState(st, env.cancelAt);
    if polled.cancelled then Stop(Cancelled, polled.(events := polled.events + CancelEvents(p)))
    else Continue(ms + [m], polled.(events := polled.events + [Progress(p, false, text)]))
  }

  /** `all` holds the median of every center. */
  predicate MediansOf(points: seq<Neighbourhood.Point>, values: seq<Option<real>>, all: seq<Option<real>>, radius: real)
    requires |values| == |points|
  {
    |all| == |points| && forall k :: 0 <= k < |all| ==> all[k] == Neighbourhood.NeighbourMedian(points, values, k, radius)
  }

  /** The loop over the centers from iteration `j` on, where `all` holds the
      median each iteration computes. */
  function NeighbourFrom(env: Env, all: seq<Option<real>>, text: string, j: nat, ms: seq<Option<real>>, st: State): Step<seq<Option<real>>>
    requires j <= |all|
    decreases |all| - j
  {
    if j == |all| then Continue(ms, st)
    else
      match NeighbourStep(env, st.last + Fraction(j, |all|), text, all[j], ms, st)
      case Stop(o, s) => Stop(o, s)
      case Continue(m, s) => NeighbourFrom(env, all, text, j + 1, m, s)
  }

  /** `get_neighbours_median_temp`: the median of `column` over the other
      centers within the radius, for every center; a cancellation returns None,
      which ends the run. */
  function NeighboursSpec(env: Env, rows: seq<Record>, column: string, st: State): Step<seq<Option<real>>> {
    match CentersSpec(rows)
    case Raise(e) => Stop(Failed(e), st)
    case Ok(points) =>
      var all := Neighbourhood.NeighbourMedians(points, Frames.NumericColumn(rows, column), env.settings.neighbourRadius);
      match NeighbourFrom(env, all, CorrectingText(column), 0, [], st)
      case Stop(o, s) => Stop(o, s)
      case Continue(ms, s) => Continue(ms, s.(last := st.last + Fraction(|points| - 1, |points|)))
  }

  /** Lines 143 and 144: both frames get `"{column}_corrected"`, the column minus
      the neighbour medians, position by position. */
  function CorrectSpec(frames: Pair, column: string, medians: seq<Option<real>>): Result<Pair> {
    match Frames.Subtract(frames.corners, column, medians)
    case Raise(e) => Raise(e)
    case Ok(dc) =>
      var corners := Frames.WithColumn(frames.corners, Frames.CorrectedColumn(column), dc);
      match Frames.Subtract(frames.centers, column, medians)
      case Raise(e) => Raise(e)
      case Ok(dn) => Ok(Pair(corners, Frames.WithColumn(frames.centers, Frames.CorrectedColumn(column), dn)))
  }

  /** One pass of the loop over the statistics. */
  function PassStep(env: Env, frames: Pair, a: Frames.Agg, st: State): Step<Pair> {
    var column := Frames.TempColumn(a);
    match NeighboursSpec(env, frames.centers, column, st)
    case Stop(o, s) => Stop(o, s)
    case Continue(ms, s) =>
      match CorrectSpec(frames, column, ms)
      case Raise(e) => Stop(Failed(e), s)
      case Ok(f) => Continue(f, s)
  }

  /** The loop over the statistics from pass `k` on. */
  function PassesFrom(env: Env, k: nat, frames: Pair, st: State): Step<Pair>
    requires k <= |Frames.Aggs|
    decreases |Frames.Aggs| - k
  {
    if k == |Frames.Aggs| then Continue(frames, st)
    else
      match PassStep(env, frames, Frames.Aggs[k], st)
      case Stop(o, s) => Stop(o, s)
      case Continue(f, s) => PassesFrom(env, k + 1, f, s)
  }

  // ---------------------------------------------------------------------------
  // Saving

  /** `analyses/<name>` inside the dataset. */
  function SavePath(s: Settings): string {
    Join3(s.datasetDir, "analyses", s.name)
  }

  /** The metadata: the reflection data is recorded only when it was used. */
  function MetaOf(s: Settings): (m: Meta)
    ensures m.sunReflections.Some? <==> s.ignoreSunReflections && s.sunReflections.Some?
    ensures m.sunReflections.Some? ==> m.sunReflections == s.sunReflections
  {
    Meta("module_temperatures", s.timestamp, s.datasetDir, s.borderMargin, s.neighbourRadius, s.ignoreSunReflections,
         if s.ignoreSunReflections && s.sunReflections.Some? then s.sunReflections else None)
  }

  /** The events of a run that reached the end. */
  function DoneEvents(s: Settings, doc: Collection): seq<Event> {
    [WroteResults(Text.PathJoin(SavePath(s), "results.geojson"), doc),
     WroteMeta(Text.PathJoin(SavePath(s), "meta.json"), MetaOf(s)),
     Progress(1.0, false, "Done"),
     Finished]
  }

  const SavingText: string := "Saving analysis results..."

  /** Lines 162 to 180, once the results are serialised (or serialising raised). */
  function ReportSpec(s: Settings, saved: Result<Collection>, st: State): (Outcome, State) {
    match saved
    case Raise(e) => (Failed(e), st)
    case Ok(doc) => (Completed, st.(events := st.events + DoneEvents(s, doc)))
  }

  /** Lines 147 to 180: merge, restore the original geometry, announce the save,
      and save. */
  function FinishSpec(env: Env, df: seq<Record>, frames: Pair, st: State): (Outcome, State) {
    var merged := Frames.MergeSpec(frames.corners, frames.centers, df);
    ReportSpec(env.settings, SaveSpec(merged), st.(events := st.events + [Progress(1.0, false, SavingText)]))
  }

  /** The state of a new worker. */
  const Fresh: State := State(0, false, 0.0, [])

  /** Lines 134 to 180: the per-module means, the four correction passes, and
      the save. */
  function CorrectAndSaveSpec(env: Env, mods: Modules, temps: map<string, PatchStatistics.PatchTemps>, st: State): (Outcome, State) {
    var corners := Frames.MeanOverPatchesSpec(mods.corners, temps, |Frames.Aggs|);
    var centers := Frames.MeanOverPatchesSpec(mods.centers, temps, |Frames.Aggs|);
    match PassesFrom(env, 0, Pair(corners, centers), st)
    case Stop(o, s) => (o, s)
    case Continue(f, s) => FinishSpec(env, mods.df, f, s)
  }

  /** `run` after the modules are loaded. */
  function AnalyseSpec(env: Env, mods: Modules): (Outcome, State) {
    match ExtractSpec(env, PatchesDir(env.settings), Fresh)
    case Stop(o, s) => (o, s)
    case Continue(temps, s) => CorrectAndSaveSpec(env, mods, temps, s)
  }

  /** `run`, from a new worker to its final state. */
  function RunSpec(env: Env): (Outcome, State) {
    match LoadModulesSpec(env.dataset.layout, env.dataset.project)
    case Raise(e) => (Failed(e), Fresh)
    case Ok(mods) => AnalyseSpec(env, mods)
  }

  // ---------------------------------------------------------------------------
  // The worker

  /** `AnalysisModuleTemperaturesWorker`. */
  class Worker {
    const settings: Settings
    /** The poll from which on the cancellation flag is up, if it is ever raised. */
    const cancelAt: Option<nat>
    var isCancelled: bool
    var progressLastStep: real
    var polls: nat
    var events: seq<Event>

    function Snapshot(): State
      reads this
    {
      State(polls, isCancelled, progressLastStep, events)
    }

    /** `__init__`: the border margin is given in percent of the patch width. */
    constructor (datasetDir: string, datasetVersion: string, name: string, gain: real, offset: real,
                 borderMargin: real, neighbourRadius: real, ignoreSunReflections: bool,
                 sunReflections: Option<map<string, seq<string>>>, timestamp: string, cancelAt: Option<nat>)
      ensures settings == Settings(datasetDir, datasetVersion, name, gain, offset, 0.01 * borderMargin,
                                   neighbourRadius, ignoreSunReflections, sunReflections, timestamp)
      ensures this.cancelAt == cancelAt
      ensures Snapshot() == Fresh
    {
      settings := Settings(datasetDir, datasetVersion, name, gain, offset, 0.01 * borderMargin,
                           neighbourRadius, ignoreSunReflections, sunReflections, timestamp);
      this.cancelAt := cancelAt;
      isCancelled := false;
      progressLastStep := 0.0;
      polls := 0;
      events := [];
    }

    /** Reads the cancellation flag. */
    method Poll() returns (cancelled: bool)
      modifies this
      ensures polls == old(polls) + 1 && progressLastStep == old(progressLastStep) && events == old(events)
      ensures isCancelled == (old(isCancelled) || CancelRequested(cancelAt, old(polls)))
      ensures Snapshot() == PollState(old(Snapshot()), cancelAt)
      ensures cancelled == isCancelled
    {
      isCancelled := isCancelled || CancelRequested(cancelAt, polls);
      polls := polls + 1;
      cancelled := isCancelled;
    }

    /** Emits a signal. */
    method Emit(e: Event)
      modifies this
      ensures polls == old(polls) && isCancelled == old(isCancelled) && progressLastStep == old(progressLastStep)
      ensures events == old(events) + [e]
    {
      events := events + [e];
    }

    /** Emits the two signals of a cancellation. */
    method EmitCancelled(p: real)
      modifies this
      ensures polls == old(polls) && isCancelled == old(isCancelled) && progressLastStep == old(progressLastStep)
      ensures events == old(events) + CancelEvents(p)
    {
      Emit(Progress(p, true, "Cancelled"));
      Emit(Finished);
    }

    /** Lines 126 to 129 of `run`: the patch temperatures of one module. */
    method TrackPatchTemps(ds: Dataset, patchesDir: string, trackId: string) returns (r: Result<PatchStatistics.PatchTemps>)
      ensures r == TrackTemps(Env(settings, ds, cancelAt), patchesDir, trackId)
    {
      var pattern := Join3(patchesDir, trackId, "*");
      var files := Text.Sort(if pattern in ds.globs then ds.globs[pattern] else []);
      if settings.ignoreSunReflections && settings.sunReflections.Some? {
        if trackId !in settings.sunReflections.value {
          return Raise(KeyError);
        }
        files := PatchStatistics.RemovePatchesWithSunReflection(files, settings.sunReflections.value[trackId]);
      }
      r := PatchStatistics.GetPatchTemps(files, ds.images, settings.borderMargin, settings.gain, settings.offset);
    }

    /** Lines 117 to 132 of `run`. */
    method ExtractTemps(ds: Dataset, patchesDir: Option<string>) returns (r: Step<map<string, PatchStatistics.PatchTemps>>)
      modifies this
      ensures r == ExtractSpec(Env(settings, ds, cancelAt), patchesDir, old(Snapshot()))
      ensures r.st == Snapshot()
    {
      ghost var env := Env(settings, ds, cancelAt);
      if patchesDir.None? {
        return Stop(Failed(UnboundLocalError), Snapshot());
      }
      var dir := patchesDir.value;
      if dir !in ds.subdirectories {
        return Stop(Failed(FileNotFoundError), Snapshot());
      }
      ghost var st0 := Snapshot();
      var trackIds := Text.Sort(ds.subdirectories[dir]);
      ghost var results := TrackResults(env, dir, trackIds);
      var temps: map<string, PatchStatistics.PatchTemps> := map[];
      var progress := 0.0;
      var i := 0;
      while i < |trackIds|
        invariant 0 <= i <= |trackIds|
        invariant ExtractFrom(env, trackIds, results, 0, map[], st0) == ExtractFrom(env, trackIds, results, i, temps, Snapshot())
        invariant i > 0 ==> progress == Fraction(i - 1, |trackIds|)
        invariant progressLastStep == st0.last
      {
        ghost var next := ExtractStep(env, trackIds, results, i, temps, Snapshot());
        progress := Fraction(i, |trackIds|);
        var cancelled := Poll();
        if cancelled {
          EmitCancelled(progress);
          assert next == Stop(Cancelled, Snapshot());
          return Stop(Cancelled, Snapshot());
        }
        var t := TrackPatchTemps(ds, dir, trackIds[i]);
        assert t == results[i];
        if t.Raise? {
          assert next == Stop(Failed(t.error), Snapshot());
          return Stop(Failed(t.error), Snapshot());
        }
        temps := temps[trackIds[i] := t.value];
        Emit(Progress(progress, false, ExtractText));
        assert next == Continue(temps, Snapshot());
        i := i + 1;
      }
      if |trackIds| == 0 {
        return Stop(Failed(UnboundLocalError), Snapshot());
      }
      progressLastStep := progress;
      return Continue(temps, Snapshot());
    }

    /** Lines 94 to 104: one iteration of the loop over the centers; `all[j]`
        is the median it computes. */
    method NeighbourIteration(ds: Dataset, points: seq<Neighbourhood.Point>, values: seq<Option<real>>, ghost all: seq<Option<real>>,
                              text: string, j: nat, medians: seq<Option<real>>) returns (r: Step<seq<Option<real>>>)
      requires j < |points| && |values| == |points| && MediansOf(points, values, all, settings.neighbourRadius)
      modifies this
      ensures r == NeighbourStep(Env(settings, ds, cancelAt), old(progressLastStep) + Fraction(j, |points|), text,
                                 all[j], medians, old(Snapshot()))
      ensures r.st == Snapshot() && progressLastStep == old(progressLastStep)
      ensures NeighbourFrom(Env(settings, ds, cancelAt), all, text, j, medians, old(Snapshot())) ==
        if r.Stop? then r else NeighbourFrom(Env(settings, ds, cancelAt), all, text, j + 1, r.value, Snapshot())
    {
      var progress := progressLastStep + Fraction(j, |points|);
      var cancelled := Poll();
      if cancelled {
        EmitCancelled(progress);
        return Stop(Cancelled, Snapshot());
      }
      var median := Neighbourhood.NeighbourMedian(points, values, j, settings.neighbourRadius);
      Emit(Progress(progress, false, text));
      return Continue(medians + [median], Snapshot());
    }

    /** The loop at lines 93 to 104 of `get_neighbours_median_temp`; `all`
        lists the medians it computes. */
    method NeighbourLoop(ds: Dataset, points: seq<Neighbourhood.Point>, values: seq<Option<real>>, ghost all: seq<Option<real>>,
                         text: string) returns (r: Step<seq<Option<real>>>)
      requires |values| == |points| && MediansOf(points, values, all, settings.neighbourRadius)
      modifies this
      ensures r == NeighbourFrom(Env(settings, ds, cancelAt), all, text, 0, [], old(Snapshot()))
      ensures r.st == Snapshot()
    {
      ghost var env := Env(settings, ds, cancelAt);
      ghost var st0 := Snapshot();
      var medians: seq<Option<real>> := [];
      var j := 0;
      while j < |points|
        invariant 0 <= j <= |points|
        invariant NeighbourFrom(env, all, text, 0, [], st0) == NeighbourFrom(env, all, text, j, medians, Snapshot())
        invariant progressLastStep == st0.last
      {
        var step := NeighbourIteration(ds, points, values, all, text, j, medians);
        if step.Stop? {
          return step;
        }
        medians := step.value;
        j := j + 1;
      }
      return Continue(medians, Snapshot());
    }

    /** `get_neighbours_median_temp` with the worker's radius: the tree over
        the centers, the loop, and the progress of its last iteration. */
    method GetNeighboursMedianTemp(ds: Dataset, rows: seq<Record>, column: string) returns (r: Step<seq<Option<real>>>)
      modifies this
      ensures r == NeighboursSpec(Env(settings, ds, cancelAt), rows, column, old(Snapshot()))
      ensures r.st == Snapshot()
    {
      var centers := CentersSpec(rows);
      if centers.Raise? {
        return Stop(Failed(centers.error), Snapshot());
      }
      var points := centers.value;
      var last := progressLastStep;
      var values := Frames.NumericColumn(rows, column);
      r := NeighbourLoop(ds, points, values, Neighbourhood.NeighbourMedians(points, values, settings.neighbourRadius), CorrectingText(column));
      if r.Continue? {
        progressLastStep := last + Fraction(|points| - 1, |points|);
        r := Continue(r.value, Snapshot());
      }
    }

    /** One pass of the loop at lines 137 to 144: the neighbour medians of a
        statistic and the two corrected columns. None means the run goes on. */
    method CorrectionPass(ds: Dataset, corners: Frames.Frame, centers: Frames.Frame, a: Frames.Agg) returns (stop: Option<Outcome>)
      requires corners != centers
      modifies this, corners, centers
      ensures var step := PassStep(Env(settings, ds, cancelAt), Pair(old(corners.rows), old(centers.rows)), a, old(Snapshot()));
        match stop
        case None => step == Continue(Pair(corners.rows, centers.rows), Snapshot())
        case Some(o) => step == Stop(o, Snapshot())
    {
      var column := Frames.TempColumn(a);
      var neighbours := GetNeighboursMedianTemp(ds, centers.rows, column);
      if neighbours.Stop? {
        return Some(neighbours.outcome);
      }
      var dc := Frames.Subtract(corners.rows, column, neighbours.value);
      if dc.Raise? {
        return Some(Failed(dc.error));
      }
      corners.SetColumn(Frames.CorrectedColumn(column), dc.value);
      var dn := Frames.Subtract(centers.rows, column, neighbours.value);
      if dn.Raise? {
        return Some(Failed(dn.error));
      }
      centers.SetColumn(Frames.CorrectedColumn(column), dn.value);
      return None;
    }

    /** Lines 162 to 180: write the results and the metadata and report. */
    method Report(saved: Result<Collection>) returns (outcome: Outcome)
      modifies this
      ensures (outcome, Snapshot()) == ReportSpec(settings, saved, old(Snapshot()))
    {
      if saved.Raise? {
        return Failed(saved.error);
      }
      // The results file, the metadata file, then the two signals.
      events := events + DoneEvents(settings, saved.value);
      return Completed;
    }

    /** Lines 147 to 180: merge the frames, restore the geometry and save. */
    method Finish(ds: Dataset, df: seq<Record>, corners: seq<Record>, centers: seq<Record>) returns (outcome: Outcome)
      modifies this
      ensures (outcome, Snapshot()) == FinishSpec(Env(settings, ds, cancelAt), df, Pair(corners, centers), old(Snapshot()))
    {
      var merged := Frames.MergeSpec(corners, centers, df);
      Emit(Progress(1.0, false, SavingText));
      var doc := Save(merged);
      outcome := Report(doc);
    }

    /** Lines 134 to 180 of `run`. */
    method CorrectAndSave(ds: Dataset, mods: Modules, temps: map<string, PatchStatistics.PatchTemps>) returns (outcome: Outcome)
      modifies this
      ensures (outcome, Snapshot()) == CorrectAndSaveSpec(Env(settings, ds, cancelAt), mods, temps, old(Snapshot()))
    {
      var corners := new Frames.Frame(mods.corners);
      var centers := new Frames.Frame(mods.centers);
      Frames.MeanOverPatches(corners, temps);
      Frames.MeanOverPatches(centers, temps);
      var stop := CorrectionPasses(ds, corners, centers);
      if stop.Some? {
        return stop.value;
      }
      outcome := Finish(ds, mods.df, corners.rows, centers.rows);
    }

    /** The loop at lines 137 to 144 over the four statistics. */
    method CorrectionPasses(ds: Dataset, corners: Frames.Frame, centers: Frames.Frame) returns (stop: Option<Outcome>)
      requires corners != centers
      modifies this, corners, centers
      ensures var passes := PassesFrom(Env(settings, ds, cancelAt), 0, Pair(old(corners.rows), old(centers.rows)), old(Snapshot()));
        match stop
        case None => passes == Continue(Pair(corners.rows, centers.rows), Snapshot())
        case Some(o) => passes == Stop(o, Snapshot())
    {
      ghost var env := Env(settings, ds, cancelAt);
      ghost var start := Pair(corners.rows, centers.rows);
      ghost var st0 := Snapshot();
      var k := 0;
      while k < |Frames.Aggs|
        invariant 0 <= k <= |Frames.Aggs|
        invariant PassesFrom(env, 0, start, st0) == PassesFrom(env, k, Pair(corners.rows, centers.rows), Snapshot())
      {
        var passStop := CorrectionPass(ds, corners, centers, Frames.Aggs[k]);
        if passStop.Some? {
          return passStop;
        }
        k := k + 1;
      }
      return None;
    }

    /** `run` after the modules are loaded. */
    method Analyse(ds: Dataset, mods: Modules, patchesDir: Option<string>) returns (outcome: Outcome)
      requires Snapshot() == Fresh && patchesDir == PatchesDir(settings)
      modifies this
      ensures (outcome, Snapshot()) == AnalyseSpec(Env(settings, ds, cancelAt), mods)
    {
      var extracted := ExtractTemps(ds, patchesDir);
      if extracted.Stop? {
        return extracted.outcome;
      }
      outcome := CorrectAndSave(ds, mods, extracted.value);
    }

    /** `run` on a new worker. */
    method Run(ds: Dataset) returns (outcome: Outcome)
      requires Snapshot() == Fresh
      modifies this
      ensures (outcome, Snapshot()) == RunSpec(Env(settings, ds, cancelAt))
    {
      var patchesDir: Option<string>;
      if settings.datasetVersion == "v1" {
        patchesDir := Some(Join3(settings.datasetDir, "patches_final", "radiometric"));
      } else if settings.datasetVersion == "v2" {
        patchesDir := Some(Join3(settings.datasetDir, "patches", "radiometric"));
      } else {
        patchesDir := None;
      }
      var mods := LoadModules(ds.layout, ds.project);
      if mods.Raise? {
        return Failed(mods.error);
      }
      outcome := Analyse(ds, mods.value, patchesDir);
    }
  }

  // ---------------------------------------------------------------------------
  // What an observer of a run sees

  /** Only progress reports without cancellation: nothing written, not finished. */
  predicate Quiet(events: seq<Event>) {
    forall i :: 0 <= i < |events| ==> events[i].Progress? && !events[i].cancelled
  }

  /** Every reported fraction lies between 0 and `hi`. */
  predicate Within(events: seq<Event>, hi: real) {
    forall i :: 0 <= i < |events| && events[i].Progress? ==> 0.0 <= events[i].fraction <= hi
  }

  /** Every reported fraction lies below `hi`. */
  predicate Below(events: seq<Event>, hi: real) {
    forall i :: 0 <= i < |events| && events[i].Progress? ==> events[i].fraction < hi
  }

  /** Reported fractions never go down. */
  predicate Ascending(events: seq<Event>) {
    forall i, j :: 0 <= i < j < |events| && events[i].Progress? && events[j].Progress? ==>
      events[i].fraction <= events[j].fraction
  }

  /** Whether the flag was up at one of the first `polls` polls. */
  predicate SeenBy(cancelAt: Option<nat>, polls: nat) {
    cancelAt.Some? && cancelAt.value < polls
  }

  /** A run still going: the flag has not been seen, and the reports so far are
      ascending progress reports no higher than `x`. */
  predicate Running(st: State, x: real, cancelAt: Option<nat>) {
    !st.cancelled && !SeenBy(cancelAt, st.polls) && Quiet(st.events) && Ascending(st.events) && Within(st.events, x)
  }

  /** How a run ends. In every case the reported fractions ascend and stay
      between 0 and 1, and only the saving and `Done` reports reach 1. A run
      that raised has reported progress only, so it never emits `finished` and
      writes nothing; every report before a last saving report is below 1. A
      cancelled run saw the flag, its last two events are the cancelled report
      and `finished`, and every report up to the cancelled one is below 1. A
      completed run never saw the flag, every report before its saving report
      is below 1, and it ends with the saving report, the results file, the
      metadata file, the `Done` report and `finished`. */
  predicate Ended(o: Outcome, st: State, env: Env) {
    var ev := st.events;
    var n := |ev|;
    Ascending(ev) && Within(ev, 1.0) &&
    match o
    case Failed(_) =>
      Quiet(ev) &&
      (Below(ev, 1.0) || (n >= 1 && Below(ev[..n - 1], 1.0) && ev[n - 1] == Progress(1.0, false, SavingText)))
    case Cancelled =>
      SeenBy(env.cancelAt, st.polls) &&
      n >= 2 && Quiet(ev[..n - 2]) && Below(ev[..n - 1], 1.0) &&
      ev[n - 2].Progress? && ev[n - 2].cancelled && ev[n - 2].text == "Cancelled" &&
      ev[n - 1] == Finished
    case Completed =>
      !SeenBy(env.cancelAt, st.polls) &&
      n >= 5 && Quiet(ev[..n - 5]) && Below(ev[..n - 5], 1.0) &&
      ev[n - 5] == Progress(1.0, false, SavingText) &&
      ev[n - 4].WroteResults? && ev[n - 4].path == Text.PathJoin(SavePath(env.settings), "results.geojson") &&
      ev[n - 3] == WroteMeta(Text.PathJoin(SavePath(env.settings), "meta.json"), MetaOf(env.settings)) &&
      ev[n - 2] == Progress(1.0, false, "Done") &&
      ev[n - 1] == Finished
  }

  /** A progress report at or above every earlier one keeps the reports ascending. */
  lemma AppendProgress(ev: seq<Event>, x: real, p: real, text: string)
    requires Quiet(ev) && Ascending(ev) && Within(ev, x) && 0.0 <= x <= p
    ensures Quiet(ev + [Progress(p, false, text)])
    ensures Ascending(ev + [Progress(p, false, text)])
    ensures Within(ev + [Progress(p, false, text)], p)
  {
  }

  /** The two events of a cancellation end a run in the cancelled shape. */
  lemma AppendCancel(st: State, x: real, p: real, env: Env)
    requires Quiet(st.events) && Ascending(st.events) && Within(st.events, x) && 0.0 <= x <= p < 1.0
    requires SeenBy(env.cancelAt, st.polls)
    ensures Ended(Cancelled, st.(events := st.events + CancelEvents(p)), env)
  {
    var ev := st.events + CancelEvents(p);
    assert ev[..|ev| - 2] == st.events;
  }

  /** `(i / n) / 5` grows with `i`. */
  lemma FractionMonotone(i: nat, j: nat, n: nat)
    requires i <= j < n
    ensures Fraction(i, n) <= Fraction(j, n)
  {
    var nr := n as real;
    var a, b := i as real / nr, j as real / nr;
    assert a * nr == i as real && b * nr == j as real;
    assert (b - a) * nr == (j - i) as real;
    assert b - a >= 0.0;
  }

  /** A stage either keeps the run going, with its reports at or below `x` and
      the last step `last`, or ends it properly. */
  predicate Goes<T>(r: Step<T>, x: real, last: real, env: Env) {
    match r
    case Continue(_, s) => Running(s, x, env.cancelAt) && s.last == last
    case Stop(o, s) => Ended(o, s, env)
  }

  /** A stage that ended the run properly. */
  lemma GoesStop<T>(r: Step<T>, x: real, last: real, env: Env)
    requires r.Stop? && Ended(r.outcome, r.st, env)
    ensures Goes(r, x, last, env)
  {
  }

  /** A stage that kept the run going. */
  lemma GoesOn<T>(r: Step<T>, x: real, last: real, env: Env)
    requires r.Continue? && Running(r.st, x, env.cancelAt) && r.st.last == last
    ensures Goes(r, x, last, env)
  {
  }

  /** One iteration of the loop over the modules reports `(i / n) / 5`. */
  lemma ExtractStepEnds(env: Env, trackIds: seq<string>, results: seq<Result<PatchStatistics.PatchTemps>>, i: nat,
                        temps: map<string, PatchStatistics.PatchTemps>, st: State, lo: real)
    requires i < |trackIds| == |results| && Running(st, lo, env.cancelAt) && 0.0 <= lo <= Fraction(i, |trackIds|)
    ensures Goes(ExtractStep(env, trackIds, results, i, temps, st), Fraction(i, |trackIds|), st.last, env)
  {
    var p := Fraction(i, |trackIds|);
    var polled := PollState(st, env.cancelAt);
    if polled.cancelled {
      AppendCancel(polled, lo, p, env);
    } else if results[i].Raise? {
      assert Below(polled.events, 1.0);
    } else {
      AppendProgress(st.events, lo, p, ExtractText);
    }
  }

  /** The loop over the modules from iteration `i` on. */
  lemma {:induction false} ExtractFromEnds(env: Env, trackIds: seq<string>, results: seq<Result<PatchStatistics.PatchTemps>>, i: nat,
                                           temps: map<string, PatchStatistics.PatchTemps>, st: State, lo: real)
    requires i <= |trackIds| == |results| && Running(st, lo, env.cancelAt) && 0.0 <= lo
    requires i < |trackIds| ==> lo <= Fraction(i, |trackIds|)
    ensures Goes(ExtractFrom(env, trackIds, results, i, temps, st),
                 if i == |trackIds| then lo else Fraction(|trackIds| - 1, |trackIds|), st.last, env)
    decreases |trackIds| - i
  {
    if i < |trackIds| {
      var r := ExtractStep(env, trackIds, results, i, temps, st);
      var p := Fraction(i, |trackIds|);
      ExtractStepEnds(env, trackIds, results, i, temps, st, lo);
      if r.Continue? {
        if i + 1 < |trackIds| {
          FractionMonotone(i, i + 1, |trackIds|);
        }
        ExtractFromEnds(env, trackIds, results, i + 1, r.value, r.st, p);
        var rest := ExtractFrom(env, trackIds, results, i + 1, r.value, r.st);
        assert ExtractFrom(env, trackIds, results, i, temps, st) == rest;
        GoesThen(r, rest, rest, p, Fraction(|trackIds| - 1, |trackIds|), st.last, env);
      } else {
        assert ExtractFrom(env, trackIds, results, i, temps, st) == r;
        GoesThen(r, r, r, p, Fraction(|trackIds| - 1, |trackIds|), st.last, env);
      }
    }
  }

  /** A stage followed by the rest of the loop: the whole goes on as the rest
      does, or ends where the stage or the rest ended. */
  lemma GoesThen<T>(r: Step<T>, rest: Step<T>, whole: Step<T>, p: real, x: real, last: real, env: Env)
    requires Goes(r, p, last, env)
    requires r.Stop? ==> whole == r
    requires r.Continue? ==> whole == rest && Goes(rest, x, r.st.last, env)
    ensures Goes(whole, x, last, env)
  {
  }

  /** The first fifth of the bar: afterwards the last step is below 0.2. */
  lemma ExtractEnds(env: Env, patchesDir: Option<string>)
    ensures var r := ExtractSpec(env, patchesDir, Fresh);
      Goes(r, if r.Continue? then r.st.last else 0.0, if r.Continue? then r.st.last else 0.0, env) &&
      (r.Continue? ==> 0.0 <= r.st.last < 0.2)
  {
    if patchesDir.Some? && patchesDir.value in env.dataset.subdirectories {
      var trackIds := Text.Sort(env.dataset.subdirectories[patchesDir.value]);
      if |trackIds| > 0 {
        assert Fraction(0, |trackIds|) == 0.0;
      }
      var loop := ExtractFrom(env, trackIds, TrackResults(env, patchesDir.value, trackIds), 0, map[], Fresh);
      ExtractFromEnds(env, trackIds, TrackResults(env, patchesDir.value, trackIds), 0, map[], Fresh, 0.0);
      ExtractDoneEnds(env, |trackIds|, loop);
    }
  }

  /** Recording the last fraction keeps a running loop running, and a loop over
      no module ends the run. */
  lemma ExtractDoneEnds(env: Env, n: nat, loop: Step<map<string, PatchStatistics.PatchTemps>>)
    requires Goes(loop, if n == 0 then 0.0 else Fraction(n - 1, n), 0.0, env)
    ensures var r := ExtractDone(n, loop);
      Goes(r, if r.Continue? then r.st.last else 0.0, if r.Continue? then r.st.last else 0.0, env) &&
      (r.Continue? ==> 0.0 <= r.st.last < 0.2)
  {
  }

  /** One iteration of the loop over the centers, reporting `p`. */
  lemma NeighbourStepEnds(env: Env, p: real, text: string, m: Option<real>, ms: seq<Option<real>>, st: State, lo: real)
    requires Running(st, lo, env.cancelAt) && 0.0 <= lo <= p < 1.0
    ensures Goes(NeighbourStep(env, p, text, m, ms, st), p, st.last, env)
    ensures NeighbourStep(env, p, text, m, ms, st).Continue? ==> NeighbourStep(env, p, text, m, ms, st).value == ms + [m]
  {
    var polled := PollState(st, env.cancelAt);
    var r := NeighbourStep(env, p, text, m, ms, st);
    if polled.cancelled {
      AppendCancel(polled, lo, p, env);
      GoesStop(r, p, st.last, env);
    } else {
      AppendProgress(st.events, lo, p, text);
      GoesOn(r, p, st.last, env);
    }
  }

  /** The loop over the centers from iteration `j` on: it reports the last
      step plus `(j / m) / 5` and adds one median per iteration. */
  lemma {:induction false} NeighbourFromEnds(env: Env, all: seq<Option<real>>, text: string,
                                             j: nat, ms: seq<Option<real>>, st: State, lo: real)
    requires j <= |all| && |ms| == j
    requires Running(st, lo, env.cancelAt) && 0.0 <= lo && st.last <= 0.8
    requires j < |all| ==> lo <= st.last + Fraction(j, |all|)
    ensures Goes(NeighbourFrom(env, all, text, j, ms, st),
                 if j == |all| then lo else st.last + Fraction(|all| - 1, |all|), st.last, env)
    ensures NeighbourFrom(env, all, text, j, ms, st).Continue? ==> NeighbourFrom(env, all, text, j, ms, st).value == ms + all[j..]
    decreases |all| - j
  {
    if j < |all| {
      var p := st.last + Fraction(j, |all|);
      var r := NeighbourStep(env, p, text, all[j], ms, st);
      NeighbourStepEnds(env, p, text, all[j], ms, st, lo);
      if r.Continue? {
        if j + 1 < |all| {
          FractionMonotone(j, j + 1, |all|);
        }
        NeighbourFromEnds(env, all, text, j + 1, r.value, r.st, p);
        assert NeighbourFrom(env, all, text, j, ms, st) == NeighbourFrom(env, all, text, j + 1, r.value, r.st);
        assert ms + all[j..] == (ms + [all[j]]) + all[j + 1..];
      } else {
        assert NeighbourFrom(env, all, text, j, ms, st) == r;
      }
    }
  }

  /** One statistic's neighbour medians take up to one more fifth of the bar,
      and give one median per center. */
  lemma NeighboursEnds(env: Env, rows: seq<Record>, column: string, st: State)
    requires Running(st, st.last, env.cancelAt) && 0.0 <= st.last <= 0.8
    ensures match NeighboursSpec(env, rows, column, st)
      case Continue(ms, s) => Running(s, s.last, env.cancelAt) && st.last <= s.last < st.last + 0.2 && |ms| == |rows|
      case Stop(o, s) => Ended(o, s, env)
  {
    match CentersSpec(rows)
    case Raise(e) =>
    case Ok(points) =>
      var all := Neighbourhood.NeighbourMedians(points, Frames.NumericColumn(rows, column), env.settings.neighbourRadius);
      assert Fraction(0, |all|) == 0.0;
      NeighbourFromEnds(env, all, CorrectingText(column), 0, [], st, st.last);
      assert all[0..] == all;
  }

  /** One correction pass: both frames keep their rows. */
  lemma PassStepEnds(env: Env, frames: Pair, a: Frames.Agg, st: State)
    requires Running(st, st.last, env.cancelAt) && 0.0 <= st.last <= 0.8
    ensures match PassStep(env, frames, a, st)
      case Continue(f, s) =>
        Running(s, s.last, env.cancelAt) && st.last <= s.last < st.last + 0.2 &&
        |f.corners| == |frames.corners| && |f.centers| == |frames.centers|
      case Stop(o, s) => Ended(o, s, env)
  {
    NeighboursEnds(env, frames.centers, Frames.TempColumn(a), st);
  }

  /** The passes from pass `k` on: each takes at most a fifth of the bar. */
  lemma {:induction false} PassesFromEnds(env: Env, k: nat, frames: Pair, st: State)
    requires k <= |Frames.Aggs| && Running(st, st.last, env.cancelAt)
    requires 0.0 <= st.last < 0.2 * (k + 1) as real
    ensures match PassesFrom(env, k, frames, st)
      case Continue(f, s) =>
        Running(s, s.last, env.cancelAt) && st.last <= s.last < 1.0 &&
        |f.corners| == |frames.corners| && |f.centers| == |frames.centers|
      case Stop(o, s) => Ended(o, s, env)
    decreases |Frames.Aggs| - k
  {
    if k < |Frames.Aggs| {
      var r := PassStep(env, frames, Frames.Aggs[k], st);
      PassStepEnds(env, frames, Frames.Aggs[k], st);
      if r.Continue? {
        PassesFromEnds(env, k + 1, r.value, r.st);
        assert PassesFrom(env, k, frames, st) == PassesFrom(env, k + 1, r.value, r.st);
      } else {
        assert PassesFrom(env, k, frames, st) == r;
      }
    }
  }

  /** The save's five events after a run's quiet reports end it as completed. */
  lemma AppendDone(env: Env, st: State, doc: Collection)
    requires Running(st, st.last, env.cancelAt) && 0.0 <= st.last < 1.0
    ensures Ended(Completed, st.(events := st.events + [Progress(1.0, false, SavingText)] + DoneEvents(env.settings, doc)), env)
  {
    var ev, s := st.events, env.settings;
    var p := Progress(1.0, false, SavingText);
    var w := WroteResults(Text.PathJoin(SavePath(s), "results.geojson"), doc);
    var m := WroteMeta(Text.PathJoin(SavePath(s), "meta.json"), MetaOf(s));
    var q := Progress(1.0, false, "Done");
    AppendOne(ev, st.last, p, 1.0);
    AppendOne(ev + [p], 1.0, w, 1.0);
    AppendOne(ev + [p] + [w], 1.0, m, 1.0);
    AppendOne(ev + [p] + [w] + [m], 1.0, q, 1.0);
    AppendOne(ev + [p] + [w] + [m] + [q], 1.0, Finished, 1.0);
    var all := ev + [p] + [w] + [m] + [q] + [Finished];
    assert ev + [p] + DoneEvents(s, doc) == all;
    assert all[..|all| - 5] == ev;
  }

  /** One more event, reporting (if it reports progress) no less than every
      report before it, keeps the reports ascending and bounded. */
  lemma AppendOne(ev: seq<Event>, x: real, e: Event, y: real)
    requires Ascending(ev) && Within(ev, x) && 0.0 <= x <= y
    requires e.Progress? ==> e.fraction == y
    ensures Ascending(ev + [e]) && Within(ev + [e], y)
  {
    var c := ev + [e];
    forall i | 0 <= i < |c| && c[i].Progress? ensures 0.0 <= c[i].fraction <= y {
      if i < |ev| {
        assert c[i] == ev[i];
      }
    }
    forall i, j | 0 <= i < j < |c| && c[i].Progress? && c[j].Progress?
      ensures c[i].fraction <= c[j].fraction
    {
      assert c[i] == ev[i];
      if j < |ev| {
        assert c[j] == ev[j];
      }
    }
  }

  /** Reporting after the saving announcement ends the run, completed or failed. */
  lemma ReportEnds(env: Env, saved: Result<Collection>, st: State)
    requires Running(st, st.last, env.cancelAt) && 0.0 <= st.last < 1.0
    ensures var r := ReportSpec(env.settings, saved, st.(events := st.events + [Progress(1.0, false, SavingText)]));
      Ended(r.0, r.1, env)
  {
    if saved.Ok? {
      AppendDone(env, st, saved.value);
    } else {
      AppendProgress(st.events, st.last, 1.0, SavingText);
    }
  }

  /** Saving ends the run: with the results and the metadata written, or with
      the error of serialising them. */
  lemma FinishEnds(env: Env, df: seq<Record>, frames: Pair, st: State)
    requires Running(st, st.last, env.cancelAt) && 0.0 <= st.last < 1.0
    ensures Ended(FinishSpec(env, df, frames, st).0, FinishSpec(env, df, frames, st).1, env)
  {
    ReportEnds(env, SaveSpec(Frames.MergeSpec(frames.corners, frames.centers, df)), st);
  }

  /** After the extraction: the passes and the save. */
  lemma CorrectAndSaveEnds(env: Env, mods: Modules, temps: map<string, PatchStatistics.PatchTemps>, st: State)
    requires Running(st, st.last, env.cancelAt) && 0.0 <= st.last < 0.2
    ensures Ended(CorrectAndSaveSpec(env, mods, temps, st).0, CorrectAndSaveSpec(env, mods, temps, st).1, env)
  {
    var corners := Frames.MeanOverPatchesSpec(mods.corners, temps, |Frames.Aggs|);
    var centers := Frames.MeanOverPatchesSpec(mods.centers, temps, |Frames.Aggs|);
    PassesFromEnds(env, 0, Pair(corners, centers), st);
    match PassesFrom(env, 0, Pair(corners, centers), st)
    case Stop(o, s) =>
    case Continue(f, s) => FinishEnds(env, mods.df, f, s);
  }

  /** Every run ends in one of the three shapes `Ended` describes. */
  lemma RunEnds(env: Env)
    ensures Ended(RunSpec(env).0, RunSpec(env).1, env)
  {
    match LoadModulesSpec(env.dataset.layout, env.dataset.project)
    case Raise(e) =>
    case Ok(mods) =>
      ExtractEnds(env, PatchesDir(env.settings));
      match ExtractSpec(env, PatchesDir(env.settings), Fresh)
      case Stop(o, s) =>
      case Continue(temps, s) => CorrectAndSaveEnds(env, mods, temps, s);
  }

  // ---------------------------------------------------------------------------
  // Consequences for an observer of a run

  /** Without a cancellation request a run is never cancelled. */
  lemma NoRequestNoCancel(env: Env)
    requires env.cancelAt.None?
    ensures RunSpec(env).0 != Cancelled
  {
    RunEnds(env);
  }

  /** In every ending shape but completion, the events are progress reports
      and, for cancellation, `finished`; so only completion writes files. */
  lemma EndedWrites(o: Outcome, st: State, env: Env)
    requires Ended(o, st, env)
    ensures forall i :: 0 <= i < |st.events| && (st.events[i].WroteResults? || st.events[i].WroteMeta?) ==> o == Completed
  {
    var ev := st.events;
    if o.Cancelled? {
      forall i | 0 <= i < |ev| - 2 ensures ev[i].Progress? {
        assert ev[..|ev| - 2][i] == ev[i];
      }
    }
  }

  /** In every ending shape, a report that reaches 1 is the saving report or
      the `Done` report: the bar stays below 1 until the run's final reports. */
  lemma EndedBelowOne(o: Outcome, st: State, env: Env)
    requires Ended(o, st, env)
    ensures forall i :: 0 <= i < |st.events| && st.events[i].Progress? && st.events[i].fraction >= 1.0 ==>
      st.events[i].text == SavingText || st.events[i].text == "Done"
  {
    var ev := st.events;
    var n := |ev|;
    match o
    case Failed(_) =>
      if !Below(ev, 1.0) {
        BelowPrefix(ev, n - 1, 1.0);
      }
    case Cancelled =>
      BelowPrefix(ev, n - 1, 1.0);
    case Completed =>
      BelowPrefix(ev, n - 5, 1.0);
  }

  /** A bound on the reports of a prefix is a bound on those positions. */
  lemma BelowPrefix(ev: seq<Event>, m: nat, hi: real)
    requires m <= |ev| && Below(ev[..m], hi)
    ensures forall i :: 0 <= i < m && ev[i].Progress? ==> ev[i].fraction < hi
  {
    forall i | 0 <= i < m && ev[i].Progress? ensures ev[i].fraction < hi {
      assert ev[..m][i] == ev[i];
    }
  }

  /** A run's progress bar stays below 1 until its saving and `Done` reports. */
  lemma RunBelowOne(env: Env)
    ensures var ev := RunSpec(env).1.events;
      forall i :: 0 <= i < |ev| && ev[i].Progress? && ev[i].fraction >= 1.0 ==>
        ev[i].text == SavingText || ev[i].text == "Done"
  {
    RunEnds(env);
    EndedBelowOne(RunSpec(env).0, RunSpec(env).1, env);
  }

  /** Progress reports followed by a tail whose last event alone is `finished`. */
  lemma FinishedOnlyLast(ev: seq<Event>, m: nat)
    requires m < |ev| && Quiet(ev[..m]) && ev[|ev| - 1] == Finished
    requires Finished !in ev[m..|ev| - 1]
    ensures Finished in ev
    ensures forall i :: 0 <= i < |ev| && ev[i] == Finished ==> i == |ev| - 1
  {
    forall i | 0 <= i < |ev| - 1 ensures ev[i] != Finished {
      if i < m {
        assert ev[..m][i] == ev[i];
      } else {
        assert ev[m..|ev| - 1][i - m] == ev[i];
      }
    }
  }

  /** In every ending shape `finished` is present exactly when the run did not
      raise, and then only as the last event. */
  lemma EndedFinished(o: Outcome, st: State, env: Env)
    requires Ended(o, st, env)
    ensures Finished in st.events <==> !o.Failed?
    ensures forall i :: 0 <= i < |st.events| && st.events[i] == Finished ==> i == |st.events| - 1
  {
    var ev := st.events;
    var n := |ev|;
    match o
    case Failed(_) =>
      assert forall i :: 0 <= i < n ==> ev[i] != Finished;
    case Cancelled =>
      FinishedAfter(ev, 2);
    case Completed =>
      FinishedAfter(ev, 5);
  }

  /** Progress reports, then `t - 1` events that are not `finished`, then
      `finished`. */
  lemma FinishedAfter(ev: seq<Event>, t: nat)
    requires 2 <= t <= |ev| && Quiet(ev[..|ev| - t]) && ev[|ev| - 1] == Finished
    requires forall i :: |ev| - t <= i < |ev| - 1 ==> ev[i] != Finished
    ensures Finished in ev
    ensures forall i :: 0 <= i < |ev| && ev[i] == Finished ==> i == |ev| - 1
  {
    var m := |ev| - t;
    var tail := ev[m..|ev| - 1];
    forall k | 0 <= k < |tail| ensures tail[k] != Finished {
      assert tail[k] == ev[m + k];
    }
    FinishedOnlyLast(ev, m);
  }

  /** Only a completed run writes `results.geojson` or `meta.json`: a cancelled
      run and a run that raised write neither. */
  lemma WritesOnlyWhenCompleted(env: Env)
    ensures var r := RunSpec(env);
      forall i :: 0 <= i < |r.1.events| && (r.1.events[i].WroteResults? || r.1.events[i].WroteMeta?) ==> r.0 == Completed
  {
    var r := RunSpec(env);
    RunEnds(env);
    EndedWrites(r.0, r.1, env);
  }

  /** `finished` is emitted exactly when the run did not raise, and then only as
      the last event. */
  lemma FinishedLast(env: Env)
    ensures var r := RunSpec(env);
      (Finished in r.1.events <==> !r.0.Failed?) &&
      forall i :: 0 <= i < |r.1.events| && r.1.events[i] == Finished ==> i == |r.1.events| - 1
  {
    var r := RunSpec(env);
    RunEnds(env);
    EndedFinished(r.0, r.1, env);
  }

  /** With the flag up at the first poll, extraction stops before its first
      track. */
  lemma ExtractCancelledFirst(env: Env, trackIds: seq<string>, results: seq<Result<PatchStatistics.PatchTemps>>)
    requires env.cancelAt == Some(0) && |trackIds| == |results| > 0
    ensures ExtractFrom(env, trackIds, results, 0, map[], Fresh) == Stop(Cancelled, State(1, true, 0.0, CancelEvents(0.0)))
  {
    assert Fraction(0, |trackIds|) == 0.0;
    assert PollState(Fresh, env.cancelAt) == State(1, true, 0.0, []);
  }

  /** A flag that is up from the first poll on stops the run at its first
      track: the only reports are the cancelled one at 0 and `finished`. */
  lemma CancelAtStart(env: Env)
    requires env.cancelAt == Some(0)
    requires LoadModulesSpec(env.dataset.layout, env.dataset.project).Ok?
    requires PatchesDir(env.settings).Some? && PatchesDir(env.settings).value in env.dataset.subdirectories
    requires |env.dataset.subdirectories[PatchesDir(env.settings).value]| > 0
    ensures RunSpec(env) == (Cancelled, State(1, true, 0.0, CancelEvents(0.0)))
  {
    var dir := PatchesDir(env.settings).value;
    var listing := env.dataset.subdirectories[dir];
    var trackIds := Text.Sort(listing);
    Text.SortSpec(listing);
    assert |trackIds| == |multiset(trackIds)| == |multiset(listing)| == |listing|;
    ExtractCancelledFirst(env, trackIds, TrackResults(env, dir, trackIds));
    assert ExtractSpec(env, PatchesDir(env.settings), Fresh) == Stop(Cancelled, State(1, true, 0.0, CancelEvents(0.0)));
  }

  /** The progress text of a correction pass names the statistic:
      `"Computing corrected min temp..."` and so on. */
  lemma CorrectingTextOf(a: Frames.Agg)
    ensures CorrectingText(Frames.TempColumn(a)) == "Computing corrected " + Frames.AggName(a) + " temp..."
  {
    var name := Frames.AggName(a);
    assert '_' !in name by {
      match a
      case Min =>
      case Max =>
      case Mean =>
      case Median =>
    }
    assert Frames.TempColumn(a) == name + ['_'] + "temp";
    SpacedWords(name);
    assert "Computing corrected " + (name + [' '] + "temp") + "..." == "Computing corrected " + name + " temp...";
  }

  /** Splitting `<name>_temp` on `_` and joining with spaces gives `<name> temp`. */
  lemma SpacedWords(name: string)
    requires '_' !in name
    ensures Text.Join(Text.Split(name + ['_'] + "temp", '_'), ' ') == name + [' '] + "temp"
  {
    Text.SplitAt(name, '_', "temp");
    Text.SplitAbsent("temp", '_');
    var parts := [name] + ["temp"];
    assert parts[1..] == ["temp"];
  }
}
