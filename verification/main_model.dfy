/** The application state shared by the main window's views and controllers
    (`src/models/main_model.py`): which dataset is open, the loaded source,
    the selected column, module and patch. The setters emit Qt signals, kept
    here as the log `signals` in emission order. */
module MainState {
  import opened Wrappers
  import opened GeoJson

  /** `patch_meta` is keyed by track id, frame name and mask name. */
  type PatchKey = (string, string, string)
  type PatchMeta = map<PatchKey, map<string, Value>>

  /** The argument `patch_idx_changed` carries: a patch index from the
      `patch_idx` setter, but the new track id from the `track_id` setter. */
  datatype PatchIdxArg = IndexArg(index: Option<int>) | TrackIdArg(trackId: Option<string>)

  datatype Signal =
    | DatasetOpened
    | DatasetClosed
    | SourceNamesChanged(names: Option<seq<string>>)
    | SelectedSourceChanged(source: Option<string>)
    | SelectedColumnChanged(column: Option<int>)
    | TrackIdChanged(trackId: Option<string>)
    | PatchIdxChanged(arg: PatchIdxArg)

  /** The values of all fields, to say what a setter leaves alone. */
  datatype Fields = Fields(
    datasetDir: Option<string>,
    data: Option<seq<Feature>>,
    meta: Option<map<string, Value>>,
    patchMeta: Option<PatchMeta>,
    sourceNames: Option<seq<string>>,
    datasetIsOpen: bool,
    selectedSource: Option<string>,
    selectedColumn: Option<int>,
    trackId: Option<string>,
    patchIdx: Option<int>)

  /** The fields after `reset`: every one `None` and no dataset open. */
  const Cleared := Fields(None, None, None, None, None, false, None, None, None, None)

  class MainModel {
    var datasetDir: Option<string>
    /** The `features` of the loaded GeoJSON document. */
    var data: Option<seq<Feature>>
    var meta: Option<map<string, Value>>
    var patchMeta: Option<PatchMeta>
    var sourceNames: Option<seq<string>>
    var datasetIsOpen: bool
    var selectedSource: Option<string>
    var selectedColumn: Option<int>
    var trackId: Option<string>
    var patchIdx: Option<int>
    var signals: seq<Signal>

    function State(): Fields
      reads this
    {
      Fields(datasetDir, data, meta, patchMeta, sourceNames, datasetIsOpen,
             selectedSource, selectedColumn, trackId, patchIdx)
    }

    /** The constructor calls `reset`. */
    constructor ()
      ensures State() == Cleared && signals == []
    {
      datasetDir, data, meta, patchMeta, sourceNames := None, None, None, None, None;
      datasetIsOpen, selectedSource, selectedColumn, trackId, patchIdx := false, None, None, None, None;
      signals := [];
    }

    /** `reset` writes the private fields directly, so it emits nothing. */
    method Reset()
      modifies this
      ensures State() == Cleared && signals == old(signals)
    {
      datasetDir, data, meta, patchMeta, sourceNames := None, None, None, None, None;
      datasetIsOpen, selectedSource, selectedColumn, trackId, patchIdx := false, None, None, None, None;
    }

    method SetSelectedColumn(value: Option<int>)
      modifies this
      ensures State() == old(State()).(selectedColumn := value)
      ensures signals == old(signals) + [SelectedColumnChanged(value)]
    {
      selectedColumn := value;
      signals := signals + [SelectedColumnChanged(value)];
    }

    /** Selecting a module returns to its first patch. */
    method SetTrackId(value: Option<string>)
      modifies this
      ensures State() == old(State()).(trackId := value, patchIdx := Some(0))
      ensures signals == old(signals) + [TrackIdChanged(value), PatchIdxChanged(TrackIdArg(value))]
    {
      trackId := value;
      patchIdx := Some(0);
      signals := signals + [TrackIdChanged(value), PatchIdxChanged(TrackIdArg(value))];
    }

    method SetPatchIdx(value: Option<int>)
      modifies this
      ensures State() == old(State()).(patchIdx := value)
      ensures signals == old(signals) + [PatchIdxChanged(IndexArg(value))]
    {
      patchIdx := value;
      signals := signals + [PatchIdxChanged(IndexArg(value))];
    }

    /** Emits `dataset_opened` for true and `dataset_closed` otherwise, also
        when the value does not change. */
    method SetDatasetIsOpen(value: bool)
      modifies this
      ensures State() == old(State()).(datasetIsOpen := value)
      ensures signals == old(signals) + [if value then DatasetOpened else DatasetClosed]
    {
      datasetIsOpen := value;
      if datasetIsOpen {
        signals := signals + [DatasetOpened];
      } else {
        signals := signals + [DatasetClosed];
      }
    }

    method SetSourceNames(value: Option<seq<string>>)
      modifies this
      ensures State() == old(State()).(sourceNames := value)
      ensures signals == old(signals) + [SourceNamesChanged(value)]
    {
      sourceNames := value;
      signals := signals + [SourceNamesChanged(value)];
    }

    method SetSelectedSource(value: Option<string>)
      modifies this
      ensures State() == old(State()).(selectedSource := value)
      ensures signals == old(signals) + [SelectedSourceChanged(value)]
    {
      selectedSource := value;
      signals := signals + [SelectedSourceChanged(value)];
    }
  }

  /** Moving to another patch and then selecting a module again brings the
      patch index back to 0, and the module selected last is the one kept. */
  method BrowseThenSelect(m: MainModel, idx: int, first: string, second: string)
    modifies m
    ensures m.trackId == Some(second) && m.patchIdx == Some(0)
    ensures m.signals == old(m.signals) + [
      TrackIdChanged(Some(first)), PatchIdxChanged(TrackIdArg(Some(first))),
      PatchIdxChanged(IndexArg(Some(idx))),
      TrackIdChanged(Some(second)), PatchIdxChanged(TrackIdArg(Some(second)))]
  {
    m.SetTrackId(Some(first));
    m.SetPatchIdx(Some(idx));
    m.SetTrackId(Some(second));
  }
}
