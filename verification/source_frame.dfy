/** The radiometric source-frame view (`src/components/source_frame.py`, with
    its model also in `src/models/source_frame_model.py` and its controller
    also in `src/controllers/source_frame_controller.py`): for the selected
    patch of the selected module it shows the video frame the patch was cut
    from, scaled to the chosen temperature range and colour map, with the
    module's quadrilateral drawn on it. Pixels are not modelled: a shown frame
    records the file it was read from and how it was rendered. */
module SourceFrame {
  import opened Wrappers
  import opened GeoJson
  import opened PatchNames
  import Text
  import PyList
  import MainState

  datatype Frame =
    /** `no_image.png`, shown whenever the frame is set to None. */
    | Placeholder
    | Radiometric(file: string, minTemp: int, maxTemp: int, colormap: Option<Colormap>, quadrilateral: Value)

  datatype Signal = MinTempChanged(minTemp: int) | MaxTempChanged(maxTemp: int) | ColormapChanged(colormap: int) | FrameChanged(frame: Frame)

  /** `<dataset_dir>/patches_final/radiometric/<track_id>`. */
  function PatchDir(datasetDir: string, trackId: string): string {
    Text.PathJoin(Text.PathJoin(Text.PathJoin(datasetDir, "patches_final"), "radiometric"), trackId)
  }

  /** `image_files[patch_idx]`: IndexError outside the list (a negative index
      counts from the end), TypeError without an index. */
  function SelectPatch(files: seq<string>, patchIdx: Option<int>): (r: Result<string>)
    ensures r.Ok? ==> r.value in files
    ensures r.Raise? ==> r.error == (if patchIdx.None? then TypeError else IndexError)
    ensures patchIdx.Some? && 0 <= patchIdx.value < |files| ==> r == Ok(files[patchIdx.value])
  {
    if patchIdx.None? then Raise(TypeError)
    else match PyList.Index(|files|, patchIdx.value)
      case None => Raise(IndexError)
      case Some(k) => Ok(files[k])
  }

  /** `patch_meta[key]["quadrilateral"]`: TypeError while there is no patch
      metadata, KeyError for a missing patch or a patch without one. */
  function Quadrilateral(patchMeta: Option<MainState.PatchMeta>, key: MainState.PatchKey): (r: Result<Value>)
    ensures r.Ok? <==> patchMeta.Some? && key in patchMeta.value && "quadrilateral" in patchMeta.value[key]
    ensures r.Ok? ==> r.value == patchMeta.value[key]["quadrilateral"]
    ensures r.Raise? ==> r.error == (if patchMeta.None? then TypeError else KeyError)
  {
    if patchMeta.None? then Raise(TypeError)
    else if key !in patchMeta.value || "quadrilateral" !in patchMeta.value[key] then Raise(KeyError)
    else Ok(patchMeta.value[key]["quadrilateral"])
  }

  /** What `update_source_frame` shows once a dataset is open and a module is
      selected, or the exception it raises, in the order the steps run.
      `entries` are the names in the module's patch directory, `readable` the
      paths OpenCV can decode. */
  function Render(datasetDir: string, trackId: string, patchIdx: Option<int>, entries: seq<string>, readable: set<string>,
                  minTemp: int, maxTemp: int, colormap: int, patchMeta: Option<MainState.PatchMeta>): Result<Frame>
  {
    match SelectPatch(SortedFiles(PatchDir(datasetDir, trackId), entries), patchIdx)
    case Raise(e) => Raise(e)
    case Ok(image) => RenderPatch(datasetDir, trackId, image, readable, minTemp, maxTemp, colormap, patchMeta)
  }

  /** The steps after the patch file `image` is chosen: its frame number, the
      frame file (an undecodable frame is None, and converting it to Celsius
      raises TypeError), the colour map and the quadrilateral. */
  function RenderPatch(datasetDir: string, trackId: string, image: string, readable: set<string>,
                       minTemp: int, maxTemp: int, colormap: int, patchMeta: Option<MainState.PatchMeta>): Result<Frame>
  {
    var name := Text.Basename(image);
    match FrameIndex(name)
    case None => Raise(IndexError)
    case Some(idx) =>
      var file := FramePath(datasetDir, "radiometric", idx, ".tiff");
      if file !in readable then Raise(TypeError)
      else match ColormapOf(colormap)
        case Raise(e) => Raise(e)
        case Ok(cm) =>
          match Quadrilateral(patchMeta, MetaKey(trackId, name))
          case Raise(e) => Raise(e)
          case Ok(q) => Ok(Radiometric(file, minTemp, maxTemp, cm, q))
  }

  /** A rendered frame is the frame named by the first digit run of the
      patch file, read from `splitted/radiometric/frame_NNNNNN.tiff`, rendered
      with the model's range and colour map, and outlined with the
      quadrilateral stored under the module and the patch's frame and mask
      names. */
  lemma RenderPatchSpec(datasetDir: string, trackId: string, image: string, readable: set<string>,
                        minTemp: int, maxTemp: int, colormap: int, patchMeta: Option<MainState.PatchMeta>)
    ensures var r := RenderPatch(datasetDir, trackId, image, readable, minTemp, maxTemp, colormap, patchMeta);
      r.Ok? ==>
        FrameIndex(Text.Basename(image)).Some? && ColormapOf(colormap).Ok? &&
        r.value.Radiometric? && r.value.minTemp == minTemp && r.value.maxTemp == maxTemp &&
        r.value.file == FramePath(datasetDir, "radiometric", FrameIndex(Text.Basename(image)).value, ".tiff") &&
        r.value.file in readable &&
        r.value.colormap == ColormapOf(colormap).value &&
        Quadrilateral(patchMeta, MetaKey(trackId, Text.Basename(image))) == Ok(r.value.quadrilateral)
  {
  }

  /** Each failing step raises its own exception: no digit in the patch name
      IndexError, an undecodable frame TypeError, an unknown colour map
      KeyError. */
  lemma RenderPatchErrors(datasetDir: string, trackId: string, image: string, readable: set<string>,
                          minTemp: int, maxTemp: int, colormap: int, patchMeta: Option<MainState.PatchMeta>)
    ensures var r := RenderPatch(datasetDir, trackId, image, readable, minTemp, maxTemp, colormap, patchMeta);
      (FrameIndex(Text.Basename(image)).None? ==> r == Raise(IndexError)) &&
      (FrameIndex(Text.Basename(image)).Some? &&
       FramePath(datasetDir, "radiometric", FrameIndex(Text.Basename(image)).value, ".tiff") !in readable ==>
         r == Raise(TypeError)) &&
      (r.Ok? <==>
         FrameIndex(Text.Basename(image)).Some? &&
         FramePath(datasetDir, "radiometric", FrameIndex(Text.Basename(image)).value, ".tiff") in readable &&
         colormap <= 2 && Quadrilateral(patchMeta, MetaKey(trackId, Text.Basename(image))).Ok?)
  {
  }

  /** An empty patch directory, or a patch file with no digit in its name,
      raises IndexError whatever else holds. */
  lemma RenderIndexError(datasetDir: string, trackId: string, entries: seq<string>, readable: set<string>,
                         minTemp: int, maxTemp: int, colormap: int, patchMeta: Option<MainState.PatchMeta>)
    ensures Render(datasetDir, trackId, Some(0), [], readable, minTemp, maxTemp, colormap, patchMeta) == Raise(IndexError)
    ensures |entries| == 1 && (forall k :: 0 <= k < |entries[0]| ==> !Text.IsDigit(entries[0][k])) && '/' !in entries[0] ==>
      Render(datasetDir, trackId, Some(0), entries, readable, minTemp, maxTemp, colormap, patchMeta) == Raise(IndexError)
  {
    if |entries| == 1 && '/' !in entries[0] {
      var files := SortedFiles(PatchDir(datasetDir, trackId), entries);
      SortedFilesSpec(PatchDir(datasetDir, trackId), entries);
      assert files[0] in multiset(JoinAll(PatchDir(datasetDir, trackId), entries));
      assert JoinAll(PatchDir(datasetDir, trackId), entries) == [Text.PathJoin(PatchDir(datasetDir, trackId), entries[0])];
      Text.BasenameJoin(PatchDir(datasetDir, trackId), entries[0]);
    }
  }

  /** The source-frame model. Its constructor leaves every field None; the
      view, while it connects its slots, sets the frame to None once (the
      `setattr` meant for `dataset_closed` runs right away), and then assigns
      30, 50, 0 and None, which is the state and the log built here. */
  class SourceFrameModel {
    var minTemp: int
    var maxTemp: int
    var colormap: int
    var frame: Frame
    var signals: seq<Signal>

    constructor ()
      ensures minTemp == 30 && maxTemp == 50 && colormap == 0 && frame == Placeholder
      ensures signals == [FrameChanged(Placeholder), MinTempChanged(30), MaxTempChanged(50), ColormapChanged(0), FrameChanged(Placeholder)]
    {
      minTemp, maxTemp, colormap, frame := 30, 50, 0, Placeholder;
      signals := [FrameChanged(Placeholder), MinTempChanged(30), MaxTempChanged(50), ColormapChanged(0), FrameChanged(Placeholder)];
    }

    method SetMinTemp(value: int)
      modifies this
      ensures minTemp == value && signals == old(signals) + [MinTempChanged(value)]
      ensures maxTemp == old(maxTemp) && colormap == old(colormap) && frame == old(frame)
    {
      minTemp := value;
      signals := signals + [MinTempChanged(value)];
    }

    method SetMaxTemp(value: int)
      modifies this
      ensures maxTemp == value && signals == old(signals) + [MaxTempChanged(value)]
      ensures minTemp == old(minTemp) && colormap == old(colormap) && frame == old(frame)
    {
      maxTemp := value;
      signals := signals + [MaxTempChanged(value)];
    }

    method SetColormap(value: int)
      modifies this
      ensures colormap == value && signals == old(signals) + [ColormapChanged(value)]
      ensures minTemp == old(minTemp) && maxTemp == old(maxTemp) && frame == old(frame)
    {
      colormap := value;
      signals := signals + [ColormapChanged(value)];
    }

    /** The `frame` setter: None becomes the placeholder image, and the frame
        stored is the one announced. */
    method SetFrame(value: Option<Frame>)
      modifies this
      ensures frame == (if value.None? then Placeholder else value.value)
      ensures signals == old(signals) + [FrameChanged(frame)]
      ensures minTemp == old(minTemp) && maxTemp == old(maxTemp) && colormap == old(colormap)
    {
      var v := if value.None? then Placeholder else value.value;
      frame := v;
      signals := signals + [FrameChanged(v)];
    }
  }

  /** `update_source_frame`: nothing without an open dataset or a selected
      module; otherwise the rendered frame is stored, or the exception is
      raised and the model is left as it was. The inputs the controller reads
      from the main model are parameters. */
  method UpdateSourceFrame(m: SourceFrameModel, datasetIsOpen: bool, trackId: Option<string>, datasetDir: string,
                           patchIdx: Option<int>, entries: seq<string>, readable: set<string>,
                           patchMeta: Option<MainState.PatchMeta>) returns (raised: Option<PyError>)
    modifies m
    ensures m.minTemp == old(m.minTemp) && m.maxTemp == old(m.maxTemp) && m.colormap == old(m.colormap)
    ensures !datasetIsOpen || trackId.None? ==> raised == None && m.frame == old(m.frame) && m.signals == old(m.signals)
    ensures datasetIsOpen && trackId.Some? ==>
      match Render(datasetDir, trackId.value, patchIdx, entries, readable, old(m.minTemp), old(m.maxTemp), old(m.colormap), patchMeta)
      case Raise(e) => raised == Some(e) && m.frame == old(m.frame) && m.signals == old(m.signals)
      case Ok(f) => raised == None && m.frame == f && m.signals == old(m.signals) + [FrameChanged(f)]
  {
    if !datasetIsOpen || trackId.None? {
      return None;
    }
    var r := Render(datasetDir, trackId.value, patchIdx, entries, readable, m.minTemp, m.maxTemp, m.colormap, patchMeta);
    if r.Raise? {
      return Some(r.error);
    }
    m.SetFrame(Some(r.value));
    return None;
  }
}
