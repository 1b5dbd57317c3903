/** The RGB source-frame view (`src/components/source_frame_rgb.py`): for
    the selected module it shows the colour video frame its first patch was
    cut from, with the module's quadrilateral drawn on it when the map shows
    RGB data. Pixels are not modelled: a shown frame records the file it was
    read from and the quadrilateral drawn. */
module SourceFrameRgb {
  import opened Wrappers
  import opened GeoJson
  import opened PatchNames
  import Text
  import MainState
  import SourceFrame

  datatype Frame =
    /** `no_image.png`, shown whenever the frame is set to None. */
    | Placeholder
    | Rgb(file: string, quadrilateral: Option<Value>)

  /** How a failing update ends: a Python exception, or an error raised by
      OpenCV when it is handed a frame that could not be read. */
  datatype Failure = Raised(error: PyError) | OpenCvError

  /** `<dataset_dir>/patches/radiometric/<track_id>`. */
  function PatchDir(datasetDir: string, trackId: string): string {
    Text.PathJoin(Text.PathJoin(Text.PathJoin(datasetDir, "patches"), "radiometric"), trackId)
  }

  /** What `update_source_frame` shows once a dataset is open and a module is
      selected, or how it fails. The patch is always the first of the sorted
      patch files; `irOrRgb` is the main model's `ir_or_rgb`. Whether the frame
      can be read is decided afterwards, by the update. */
  function RenderRgb(datasetDir: string, trackId: string, entries: seq<string>,
                     irOrRgb: string, patchMeta: Option<MainState.PatchMeta>): (r: Result<Frame>)
    ensures r.Ok? ==> r.value.Rgb?
  {
    var files := SortedFiles(PatchDir(datasetDir, trackId), entries);
    if |files| == 0 then Raise(IndexError)
    else
      var name := Text.Basename(files[0]);
      match FrameIndex(name)
      case None => Raise(IndexError)
      case Some(idx) =>
        var file := FramePath(datasetDir, "rgb", idx, ".jpg");
        if irOrRgb == "rgb" then
          match SourceFrame.Quadrilateral(patchMeta, MetaKey(trackId, name))
          case Raise(e) => Raise(e)
          case Ok(q) => Ok(Rgb(file, Some(q)))
        else Ok(Rgb(file, None))
  }

  /** The shown frame comes from the first of the sorted patch files (the
      least, by `PatchNames.SortedFilesSpec`): it is the frame numbered by that file's first digit run, under
      `splitted/rgb/frame_NNNNNN.jpg`, and it carries a quadrilateral exactly
      when the map shows RGB data, the one stored for the patch. */
  lemma RenderRgbSpec(datasetDir: string, trackId: string, entries: seq<string>,
                      irOrRgb: string, patchMeta: Option<MainState.PatchMeta>)
    ensures var r := RenderRgb(datasetDir, trackId, entries, irOrRgb, patchMeta);
      var files := SortedFiles(PatchDir(datasetDir, trackId), entries);
      (|entries| == 0 ==> r == Raise(IndexError)) &&
      (r.Ok? ==>
        |files| > 0 && FrameIndex(Text.Basename(files[0])).Some? &&
        r.value == Rgb(FramePath(datasetDir, "rgb", FrameIndex(Text.Basename(files[0])).value, ".jpg"), r.value.quadrilateral) &&
        (r.value.quadrilateral.Some? <==> irOrRgb == "rgb") &&
        (irOrRgb == "rgb" ==>
          SourceFrame.Quadrilateral(patchMeta, MetaKey(trackId, Text.Basename(files[0]))) == Ok(r.value.quadrilateral.value)))
  {
    var files := SortedFiles(PatchDir(datasetDir, trackId), entries);
    var r := RenderRgb(datasetDir, trackId, entries, irOrRgb, patchMeta);
    if |files| > 0 {
      var name := Text.Basename(files[0]);
      if FrameIndex(name).Some? {
        var file := FramePath(datasetDir, "rgb", FrameIndex(name).value, ".jpg");
        if irOrRgb == "rgb" {
          var q := SourceFrame.Quadrilateral(patchMeta, MetaKey(trackId, name));
          assert r == if q.Raise? then Raise(q.error) else Ok(Rgb(file, Some(q.value)));
        } else {
          assert r == Ok(Rgb(file, None));
        }
      }
    }
  }

  /** Outside RGB mode the patch metadata is never read. */
  lemma RenderRgbIgnoresMeta(datasetDir: string, trackId: string, entries: seq<string>,
                             irOrRgb: string, patchMeta: Option<MainState.PatchMeta>)
    requires irOrRgb != "rgb"
    ensures RenderRgb(datasetDir, trackId, entries, irOrRgb, patchMeta) == RenderRgb(datasetDir, trackId, entries, irOrRgb, None)
  {
  }

  class SourceFrameModelRgb {
    var frame: Frame
    var signals: seq<Frame>

    /** The model as the view leaves it: its frame set to None, which shows
        the placeholder. */
    constructor ()
      ensures frame == Placeholder && signals == [Placeholder]
    {
      frame := Placeholder;
      signals := [Placeholder];
    }

    /** The `frame` setter: None becomes the placeholder image, and the frame
        stored is the one announced by `frame_changed`. */
    method SetFrame(value: Option<Frame>)
      modifies this
      ensures frame == (if value.None? then Placeholder else value.value)
      ensures signals == old(signals) + [frame]
    {
      var v := if value.None? then Placeholder else value.value;
      frame := v;
      signals := signals + [v];
    }
  }

  /** `update_source_frame` of `SourceFrameControllerRGB`: without an open
      dataset or a selected module the placeholder is shown; otherwise the
      rendered frame is stored, or the update fails and the model is left as
      it was. A frame that cannot be read is None, which OpenCV refuses (when
      drawing the quadrilateral, or else when converting colours), so it
      fails only after every lookup has succeeded. */
  method UpdateSourceFrame(m: SourceFrameModelRgb, datasetIsOpen: bool, trackId: Option<string>, datasetDir: string,
                           entries: seq<string>, readable: set<string>, irOrRgb: string,
                           patchMeta: Option<MainState.PatchMeta>) returns (failure: Option<Failure>)
    modifies m
    ensures !datasetIsOpen || trackId.None? ==>
      failure == None && m.frame == Placeholder && m.signals == old(m.signals) + [Placeholder]
    ensures datasetIsOpen && trackId.Some? ==>
      match RenderRgb(datasetDir, trackId.value, entries, irOrRgb, patchMeta)
      case Raise(e) => failure == Some(Raised(e)) && m.frame == old(m.frame) && m.signals == old(m.signals)
      case Ok(f) =>
        if f.file !in readable then failure == Some(OpenCvError) && m.frame == old(m.frame) && m.signals == old(m.signals)
        else failure == None && m.frame == f && m.signals == old(m.signals) + [f]
  {
    if !datasetIsOpen || trackId.None? {
      m.SetFrame(None);
      return None;
    }
    var r := RenderRgb(datasetDir, trackId.value, entries, irOrRgb, patchMeta);
    if r.Raise? {
      return Some(Raised(r.error));
    }
    if r.value.file !in readable {
      return Some(OpenCvError);
    }
    m.SetFrame(Some(r.value));
    return None;
  }
}
