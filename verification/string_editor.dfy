/** The string editor (`src/components/string_editor.py`): the user draws a
    polyline over the modules of one electrical string and gives its tracker,
    array and inverter ids; confirming inserts the string into the plant's
    string annotation and gives each of its modules a plant id. */
module StringEditor {
  import opened Wrappers
  import Text

  /** A point of the drawn polyline. */
  type Point = (real, real)

  /** One string of the annotation: its modules' track ids in drawing order
      and its polyline. */
  datatype StringEntry = StringEntry(trackIds: seq<string>, polyline: seq<Point>)

  /** The plant's string annotation: the strings by id, and the plant id of
      every module in the order the ids were given out. */
  datatype StringAnnotation = StringAnnotation(
    stringData: map<string, StringEntry>,
    plantIdTrackIdMapping: seq<(string, string)>)

  /** The annotation used when there is none yet. */
  const EmptyAnnotation := StringAnnotation(map[], [])

  /** `"{}_{}_{}".format(tracker, array, inverter, string_id)`: the format has
      three fields, so the string id typed by the user is not part of it. */
  function StringId(trackerId: string, arrayId: string, inverterId: string): (r: string) {
    trackerId + "_" + arrayId + "_" + inverterId
  }

  /** When no id contains an underscore, the three ids can be read back from
      the string id. */
  lemma StringIdSplits(trackerId: string, arrayId: string, inverterId: string)
    requires '_' !in trackerId && '_' !in arrayId && '_' !in inverterId
    ensures Text.Split(StringId(trackerId, arrayId, inverterId), '_') == [trackerId, arrayId, inverterId]
  {
    Text.SplitAt(trackerId, '_', arrayId + "_" + inverterId);
    Text.SplitAt(arrayId, '_', inverterId);
    Text.SplitAbsent(inverterId, '_');
    assert StringId(trackerId, arrayId, inverterId) == trackerId + "_" + (arrayId + "_" + inverterId);
    assert arrayId + "_" + inverterId == arrayId + "_" + inverterId;
  }

  /** `"{}_{:02d}".format(string_id, i)`: the plant id of the `i`-th module. */
  function PlantId(stringId: string, i: nat): (r: string)
    ensures |r| >= |stringId| + 3 && r[..|stringId| + 1] == stringId + "_"
  {
    stringId + "_" + Text.FormatInt(i, 2)
  }

  /** Two modules of the same string never share a plant id. */
  lemma PlantIdInjective(stringId: string, i: nat, j: nat)
    requires PlantId(stringId, i) == PlantId(stringId, j)
    ensures i == j
  {
    var n := |stringId| + 1;
    assert PlantId(stringId, i)[n..] == Text.FormatInt(i, 2);
    assert PlantId(stringId, j)[n..] == Text.FormatInt(j, 2);
    Text.FormatInjective(i, j, 2);
  }

  /** The mapping entries of the string's modules from the `i`-th on. */
  function MappingFrom(stringId: string, trackIds: seq<string>, i: nat): (r: seq<(string, string)>)
    requires i <= |trackIds|
    ensures |r| == |trackIds| - i
    ensures forall k :: 0 <= k < |r| ==> r[k] == (PlantId(stringId, i + k), trackIds[i + k])
    decreases |trackIds| - i
  {
    if i == |trackIds| then [] else [(PlantId(stringId, i), trackIds[i])] + MappingFrom(stringId, trackIds, i + 1)
  }

  /** `module["track_id"]` for every drawn module, or KeyError for a module
      without one. */
  function TrackIdsFrom(modules: seq<map<string, string>>, i: nat): (r: Result<seq<string>>)
    requires i <= |modules|
    decreases |modules| - i
  {
    if i == |modules| then Ok([])
    else if "track_id" !in modules[i] then Raise(KeyError)
    else match TrackIdsFrom(modules, i + 1)
      case Raise(e) => Raise(e)
      case Ok(rest) => Ok([modules[i]["track_id"]] + rest)
  }

  lemma {:induction false} TrackIdsFromSpec(modules: seq<map<string, string>>, i: nat)
    requires i <= |modules|
    ensures TrackIdsFrom(modules, i).Ok? <==> forall k :: i <= k < |modules| ==> "track_id" in modules[k]
    ensures TrackIdsFrom(modules, i).Raise? ==> TrackIdsFrom(modules, i) == Raise(KeyError)
    ensures TrackIdsFrom(modules, i).Ok? ==>
      |TrackIdsFrom(modules, i).value| == |modules| - i &&
      forall k :: 0 <= k < |modules| - i ==> TrackIdsFrom(modules, i).value[k] == modules[i + k]["track_id"]
    decreases |modules| - i
  {
    if i < |modules| {
      TrackIdsFromSpec(modules, i + 1);
    }
  }

  /** The annotation after the string is inserted: the previous annotation
      (or the empty one) with the string's entry set, replacing an entry of
      the same id, and one mapping entry appended per module. */
  function Inserted(data: Option<StringAnnotation>, stringId: string, trackIds: seq<string>, polyline: seq<Point>): StringAnnotation {
    var base := if data.None? then EmptyAnnotation else data.value;
    StringAnnotation(base.stringData[stringId := StringEntry(trackIds, polyline)],
                     base.plantIdTrackIdMapping + MappingFrom(stringId, trackIds, 0))
  }

  /** Inserting keeps every other string, and the mapping grows by exactly
      one entry per module, whose plant ids are all different. */
  lemma InsertedSpec(data: Option<StringAnnotation>, stringId: string, trackIds: seq<string>, polyline: seq<Point>)
    ensures var base := if data.None? then EmptyAnnotation else data.value;
      var r := Inserted(data, stringId, trackIds, polyline);
      r.stringData.Keys == base.stringData.Keys + {stringId} &&
      r.stringData[stringId] == StringEntry(trackIds, polyline) &&
      (forall s :: s in base.stringData && s != stringId ==> r.stringData[s] == base.stringData[s]) &&
      |r.plantIdTrackIdMapping| == |base.plantIdTrackIdMapping| + |trackIds| &&
      r.plantIdTrackIdMapping[..|base.plantIdTrackIdMapping|] == base.plantIdTrackIdMapping &&
      forall i, j :: |base.plantIdTrackIdMapping| <= i < j < |r.plantIdTrackIdMapping| ==>
        r.plantIdTrackIdMapping[i].0 != r.plantIdTrackIdMapping[j].0
  {
    var base := if data.None? then EmptyAnnotation else data.value;
    var r := Inserted(data, stringId, trackIds, polyline);
    var n := |base.plantIdTrackIdMapping|;
    var added := MappingFrom(stringId, trackIds, 0);
    assert r.plantIdTrackIdMapping == base.plantIdTrackIdMapping + added;
    MappingDistinct(stringId, trackIds);
    forall i, j | n <= i < j < |r.plantIdTrackIdMapping| ensures r.plantIdTrackIdMapping[i].0 != r.plantIdTrackIdMapping[j].0 {
      assert r.plantIdTrackIdMapping[i] == added[i - n] && r.plantIdTrackIdMapping[j] == added[j - n];
    }
  }

  /** The plant ids given to the modules of one string are all different. */
  lemma MappingDistinct(stringId: string, trackIds: seq<string>)
    ensures forall i, j :: 0 <= i < j < |trackIds| ==>
      MappingFrom(stringId, trackIds, 0)[i].0 != MappingFrom(stringId, trackIds, 0)[j].0
  {
    forall i, j | 0 <= i < j < |trackIds| ensures MappingFrom(stringId, trackIds, 0)[i].0 != MappingFrom(stringId, trackIds, 0)[j].0 {
      if PlantId(stringId, i) == PlantId(stringId, j) {
        PlantIdInjective(stringId, i, j);
      }
    }
  }

  datatype Signal =
    | TrackerIdChanged(trackerId: string)
    | ArrayIdChanged(arrayId: string)
    | InverterIdChanged(inverterId: string)
    | StringIdChanged(stringId: string)
    | ReverseDirectionChanged(reverse: bool)
    | DrawingStringChanged(drawing: bool)
    | StringAnnotationDataChanged

  /** The signals `reset_temp_string_data` emits. */
  const ResetSignals: seq<Signal> := [
    TrackerIdChanged(""), ArrayIdChanged(""), InverterIdChanged(""), StringIdChanged(""),
    ReverseDirectionChanged(false), DrawingStringChanged(false)]

  class StringEditorModel {
    var trackerId: string
    var arrayId: string
    var inverterId: string
    var stringId: string
    var reverseDirection: bool
    var drawingString: bool
    var stringAnnotationData: Option<StringAnnotation>
    var signals: seq<Signal>

    /** The ids of the string being drawn are all empty and nothing is drawn. */
    ghost predicate Cleared()
      reads this
    {
      trackerId == "" && arrayId == "" && inverterId == "" && stringId == "" &&
      !reverseDirection && !drawingString
    }

    constructor ()
      ensures Cleared() && stringAnnotationData == None && signals == []
    {
      trackerId, arrayId, inverterId, stringId := "", "", "", "";
      reverseDirection, drawingString := false, false;
      stringAnnotationData := None;
      signals := [];
    }

    method SetTrackerId(value: string)
      modifies this
      ensures trackerId == value && signals == old(signals) + [TrackerIdChanged(value)]
      ensures arrayId == old(arrayId) && inverterId == old(inverterId) && stringId == old(stringId)
      ensures reverseDirection == old(reverseDirection) && drawingString == old(drawingString)
      ensures stringAnnotationData == old(stringAnnotationData)
    {
      trackerId := value;
      signals := signals + [TrackerIdChanged(value)];
    }

    method SetArrayId(value: string)
      modifies this
      ensures arrayId == value && signals == old(signals) + [ArrayIdChanged(value)]
      ensures trackerId == old(trackerId) && inverterId == old(inverterId) && stringId == old(stringId)
      ensures reverseDirection == old(reverseDirection) && drawingString == old(drawingString)
      ensures stringAnnotationData == old(stringAnnotationData)
    {
      arrayId := value;
      signals := signals + [ArrayIdChanged(value)];
    }

    method SetInverterId(value: string)
      modifies this
      ensures inverterId == value && signals == old(signals) + [InverterIdChanged(value)]
      ensures trackerId == old(trackerId) && arrayId == old(arrayId) && stringId == old(stringId)
      ensures reverseDirection == old(reverseDirection) && drawingString == old(drawingString)
      ensures stringAnnotationData == old(stringAnnotationData)
    {
      inverterId := value;
      signals := signals + [InverterIdChanged(value)];
    }

    method SetStringId(value: string)
      modifies this
      ensures stringId == value && signals == old(signals) + [StringIdChanged(value)]
      ensures trackerId == old(trackerId) && arrayId == old(arrayId) && inverterId == old(inverterId)
      ensures reverseDirection == old(reverseDirection) && drawingString == old(drawingString)
      ensures stringAnnotationData == old(stringAnnotationData)
    {
      stringId := value;
      signals := signals + [StringIdChanged(value)];
    }

    /** The `reverse_direction` setter takes the checkbox state: 0 means
        unchecked, anything else checked. */
    method SetReverseDirection(value: int)
      modifies this
      ensures reverseDirection == (value != 0) && signals == old(signals) + [ReverseDirectionChanged(value != 0)]
      ensures trackerId == old(trackerId) && arrayId == old(arrayId) && inverterId == old(inverterId)
      ensures stringId == old(stringId) && drawingString == old(drawingString)
      ensures stringAnnotationData == old(stringAnnotationData)
    {
      if value == 0 {
        reverseDirection := false;
        signals := signals + [ReverseDirectionChanged(false)];
      } else {
        reverseDirection := true;
        signals := signals + [ReverseDirectionChanged(true)];
      }
    }

    method SetDrawingString(value: bool)
      modifies this
      ensures drawingString == value && signals == old(signals) + [DrawingStringChanged(value)]
      ensures trackerId == old(trackerId) && arrayId == old(arrayId) && inverterId == old(inverterId)
      ensures stringId == old(stringId) && reverseDirection == old(reverseDirection)
      ensures stringAnnotationData == old(stringAnnotationData)
    {
      drawingString := value;
      signals := signals + [DrawingStringChanged(value)];
    }

    method SetStringAnnotationData(value: Option<StringAnnotation>)
      modifies this
      ensures stringAnnotationData == value && signals == old(signals) + [StringAnnotationDataChanged]
      ensures trackerId == old(trackerId) && arrayId == old(arrayId) && inverterId == old(inverterId)
      ensures stringId == old(stringId) && reverseDirection == old(reverseDirection)
      ensures drawingString == old(drawingString)
    {
      stringAnnotationData := value;
      signals := signals + [StringAnnotationDataChanged];
    }

    /** `reset_temp_string_data` of the controller: through the setters, in
        this order. */
    method ResetTempStringData()
      modifies this
      ensures Cleared() && stringAnnotationData == old(stringAnnotationData)
      ensures signals == old(signals) + ResetSignals
    {
      SetTrackerId("");
      SetArrayId("");
      SetInverterId("");
      SetStringId("");
      SetReverseDirection(0);
      SetDrawingString(false);
    }
  }

  /** `[module["track_id"] for module in modules]`. */
  method CollectTrackIds(modules: seq<map<string, string>>) returns (r: Result<seq<string>>)
    ensures r == TrackIdsFrom(modules, 0)
    ensures r.Raise? <==> exists k :: 0 <= k < |modules| && "track_id" !in modules[k]
    ensures r.Ok? ==> |r.value| == |modules| && forall k :: 0 <= k < |modules| ==> r.value[k] == modules[k]["track_id"]
  {
    TrackIdsFromSpec(modules, 0);
    var trackIds: seq<string> := [];
    var i := 0;
    while i < |modules|
      invariant 0 <= i <= |modules| && |trackIds| == i
      invariant forall k :: 0 <= k < i ==> "track_id" in modules[k] && trackIds[k] == modules[k]["track_id"]
    {
      if "track_id" !in modules[i] {
        assert TrackIdsFrom(modules, 0).Raise?;
        return Raise(KeyError);
      }
      trackIds := trackIds + [modules[i]["track_id"]];
      i := i + 1;
    }
    assert TrackIdsFrom(modules, 0).Ok?;
    assert trackIds == TrackIdsFrom(modules, 0).value;
    return Ok(trackIds);
  }

  /** The loop that appends `(plant_id, track_id)` for each module in order. */
  method AppendMapping(mapping: seq<(string, string)>, stringId: string, trackIds: seq<string>)
    returns (r: seq<(string, string)>)
    ensures r == mapping + MappingFrom(stringId, trackIds, 0)
    ensures |r| == |mapping| + |trackIds| && r[..|mapping|] == mapping
    ensures forall k :: 0 <= k < |trackIds| ==> r[|mapping| + k] == (PlantId(stringId, k), trackIds[k])
  {
    r := mapping;
    var i := 0;
    while i < |trackIds|
      invariant 0 <= i <= |trackIds|
      invariant r + MappingFrom(stringId, trackIds, i) == mapping + MappingFrom(stringId, trackIds, 0)
    {
      assert MappingFrom(stringId, trackIds, i) == [(PlantId(stringId, i), trackIds[i])] + MappingFrom(stringId, trackIds, i + 1);
      r := r + [(PlantId(stringId, i), trackIds[i])];
      i := i + 1;
    }
    assert r == r + MappingFrom(stringId, trackIds, i);
  }

  /** `update_string_annotation_data` of the map backend, given the decoded
      `modules` and `polyline` of the drawn string. The annotation is copied
      before it is changed, so the annotation held before is left as it was
      (a value here). A module without a track id raises KeyError before
      anything changes. */
  method UpdateStringAnnotationData(m: StringEditorModel, modules: seq<map<string, string>>, polyline: seq<Point>)
    returns (raised: Option<PyError>)
    modifies m
    ensures TrackIdsFrom(modules, 0).Raise? ==>
      raised == Some(KeyError) && m.stringAnnotationData == old(m.stringAnnotationData) && m.signals == old(m.signals) &&
      m.trackerId == old(m.trackerId) && m.arrayId == old(m.arrayId) && m.inverterId == old(m.inverterId) &&
      m.stringId == old(m.stringId) && m.reverseDirection == old(m.reverseDirection) && m.drawingString == old(m.drawingString)
    ensures TrackIdsFrom(modules, 0).Ok? ==>
      var sid := StringId(old(m.trackerId), old(m.arrayId), old(m.inverterId));
      raised == None &&
      m.stringAnnotationData == Some(Inserted(old(m.stringAnnotationData), sid, TrackIdsFrom(modules, 0).value, polyline)) &&
      m.Cleared() && m.signals == old(m.signals) + [StringAnnotationDataChanged] + ResetSignals
  {
    var sid := StringId(m.trackerId, m.arrayId, m.inverterId);
    var data := if m.stringAnnotationData.None? then EmptyAnnotation else m.stringAnnotationData.value;
    var trackIds := CollectTrackIds(modules);
    if trackIds.Raise? {
      return Some(KeyError);
    }
    var mapping := AppendMapping(data.plantIdTrackIdMapping, sid, trackIds.value);
    var updated := StringAnnotation(data.stringData[sid := StringEntry(trackIds.value, polyline)], mapping);
    m.SetStringAnnotationData(Some(updated));
    m.ResetTempStringData();
    return None;
  }

  /** Confirming the same string twice keeps one entry for it but gives its
      modules plant ids twice: the mapping is appended to either way. */
  lemma ConfirmTwice(data: Option<StringAnnotation>, stringId: string, trackIds: seq<string>, polyline: seq<Point>)
    ensures var once := Inserted(data, stringId, trackIds, polyline);
      var twice := Inserted(Some(once), stringId, trackIds, polyline);
      twice.stringData == once.stringData &&
      |twice.plantIdTrackIdMapping| == |once.plantIdTrackIdMapping| + |trackIds|
  {
    var once := Inserted(data, stringId, trackIds, polyline);
    assert once.stringData[stringId := StringEntry(trackIds, polyline)] == once.stringData;
  }
}
