/** The defect annotation editor (`src/components/annotation_editor.py`):
    for every module of the open dataset a list of defect names, edited
    through one checkbox per defect of the defect scheme. A checkbox is
    named `defect_checkbox_<defect>`. */
module AnnotationEditor {
  import opened Wrappers
  import PyList

  const CheckboxPrefix: string := "defect_checkbox_"

  /** The object name the view gives the checkbox of a defect. */
  function CheckboxName(defect: string): (r: string)
    ensures |r| == |defect| + 16
  {
    CheckboxPrefix + defect
  }

  /** `checkbox_name[16:]`: the name after the 16-character prefix, empty for
      a shorter name. */
  function DefectName(checkboxName: string): (r: string)
    ensures |checkboxName| <= 16 ==> r == ""
    ensures |checkboxName| > 16 ==> |r| == |checkboxName| - 16
  {
    PyList.Slice(checkboxName, 16, |checkboxName|)
  }

  /** Reading the defect back from its checkbox gives the defect. */
  lemma DefectOfCheckbox(defect: string)
    ensures DefectName(CheckboxName(defect)) == defect
  {
    assert CheckboxName(defect)[16..] == defect;
  }

  /** The list of a module after its box was set (`checked`) or cleared: a
      defect is appended only when absent, and removed only when present. */
  function Toggled(defects: seq<string>, defect: string, checked: bool): (r: seq<string>)
  {
    if checked then (if defect in defects then defects else defects + [defect])
    else PyList.RemoveFirst(defects, defect)
  }

  /** Toggling keeps a list free of duplicates, puts the defect in or takes it
      out as the box says, leaves every other defect as it was, and changes
      the list exactly when the defect's presence disagreed with the box. */
  lemma ToggledSpec(defects: seq<string>, defect: string, checked: bool)
    requires PyList.NoDup(defects)
    ensures var r := Toggled(defects, defect, checked);
      PyList.NoDup(r) && (defect in r <==> checked) &&
      (forall d :: d != defect ==> (d in r <==> d in defects)) &&
      (r != defects <==> (defect in defects) != checked)
  {
    var r := Toggled(defects, defect, checked);
    if checked {
      if defect !in defects {
        forall i, j | 0 <= i < j < |r| ensures r[i] != r[j] {
          if j == |defects| {
            assert r[i] == defects[i] && r[j] == defect;
          }
        }
        assert r[|defects|] == defect;
        assert |r| != |defects|;
      }
    } else {
      PyList.RemoveFirstNoDup(defects, defect);
      if defect in defects {
        assert |r| != |defects|;
      }
    }
  }

  /** Every module's list is free of duplicates. */
  ghost predicate NoDuplicates(data: map<string, seq<string>>) {
    forall t :: t in data ==> PyList.NoDup(data[t])
  }

  /** `AnnotationEditorModel` with its controller. The controller reads
      whether a dataset is open, the selected module and the list of all
      modules from the main model; they are parameters here. */
  class AnnotationEditorModel {
    var annotationData: Option<map<string, seq<string>>>
    /** How often `annotation_data_changed` was emitted. */
    var changed: nat

    ghost predicate Valid()
      reads this
    {
      annotationData.Some? ==> NoDuplicates(annotationData.value)
    }

    constructor ()
      ensures Valid() && annotationData == None && changed == 0
    {
      annotationData := None;
      changed := 0;
    }

    /** `set_annotation_data`, run when a dataset opens: an empty list for
        every module. Without a list of modules it raises TypeError. */
    method SetAnnotationData(trackIds: Option<seq<string>>) returns (raised: Option<PyError>)
      requires Valid()
      modifies this
      ensures trackIds.None? ==> raised == Some(TypeError) && annotationData == old(annotationData) && changed == old(changed)
      ensures trackIds.Some? ==>
        raised == None && changed == old(changed) + 1 && annotationData.Some? &&
        annotationData.value.Keys == (set t | t in trackIds.value) &&
        forall t :: t in annotationData.value ==> annotationData.value[t] == []
      ensures Valid()
    {
      if trackIds.None? {
        return Some(TypeError);
      }
      annotationData := Some(map t | t in trackIds.value :: []);
      changed := changed + 1;
      return None;
    }

    /** `reset_annotation_data`, run when the dataset closes. */
    method ResetAnnotationData()
      modifies this
      ensures Valid() && annotationData == None && changed == old(changed) + 1
    {
      annotationData := None;
      changed := changed + 1;
    }

    /** `update_annotation_data`, the slot of every checkbox: `value` is the
        new check state and `checkboxName` the sender's object name. Only
        the selected module's list changes, and `annotation_data_changed` is
        emitted exactly when it does. A module without a list raises
        KeyError. */
    method UpdateAnnotationData(datasetIsOpen: bool, trackId: Option<string>, checkboxName: string, value: int)
      returns (raised: Option<PyError>)
      requires Valid()
      modifies this
      ensures Valid()
      ensures !datasetIsOpen || old(annotationData).None? || trackId.None? ==>
        raised == None && annotationData == old(annotationData) && changed == old(changed)
      ensures datasetIsOpen && old(annotationData).Some? && trackId.Some? && trackId.value !in old(annotationData).value ==>
        raised == Some(KeyError) && annotationData == old(annotationData) && changed == old(changed)
      ensures datasetIsOpen && old(annotationData).Some? && trackId.Some? && trackId.value in old(annotationData).value ==>
        var before := old(annotationData).value[trackId.value];
        var after := Toggled(before, DefectName(checkboxName), value != 0);
        raised == None && annotationData == Some(old(annotationData).value[trackId.value := after]) &&
        changed == old(changed) + (if after != before then 1 else 0)
    {
      if !datasetIsOpen || annotationData.None? || trackId.None? {
        return None;
      }
      var data := annotationData.value;
      var t := trackId.value;
      if t !in data {
        return Some(KeyError);
      }
      var defect := DefectName(checkboxName);
      var defects := data[t];
      // the two branches of the slot: append when absent, remove when present
      var after := Toggled(defects, defect, value != 0);
      ToggledSpec(defects, defect, value != 0);
      if after != defects {
        annotationData := Some(data[t := after]);
        changed := changed + 1;
        forall u | u in annotationData.value ensures PyList.NoDup(annotationData.value[u]) {
          if u != t {
            assert annotationData.value[u] == data[u];
          }
        }
      } else {
        assert data == data[t := defects];
      }
      return None;
    }
  }

  /** `update_checkbox_states` of the view: each box is checked exactly when
      its defect is in the selected module's list. Without an open dataset,
      annotation data or a selected module the boxes keep `current`. `boxes`
      is None when the defect schema could not be read, so the view never
      got its list of boxes and reading it raises AttributeError, before the
      module's list is looked up. */
  method UpdateCheckboxStates(datasetIsOpen: bool, data: Option<map<string, seq<string>>>, trackId: Option<string>,
                              boxes: Option<seq<string>>, current: seq<bool>) returns (r: Result<seq<bool>>)
    ensures !datasetIsOpen || data.None? || trackId.None? ==> r == Ok(current)
    ensures datasetIsOpen && data.Some? && trackId.Some? && boxes.None? ==> r == Raise(AttributeError)
    ensures datasetIsOpen && data.Some? && trackId.Some? && boxes.Some? && trackId.value !in data.value ==>
      r == Raise(KeyError)
    ensures datasetIsOpen && data.Some? && trackId.Some? && boxes.Some? && trackId.value in data.value ==>
      r.Ok? && |r.value| == |boxes.value| &&
      forall i :: 0 <= i < |boxes.value| ==> (r.value[i] <==> DefectName(boxes.value[i]) in data.value[trackId.value])
  {
    if !datasetIsOpen || data.None? || trackId.None? {
      return Ok(current);
    }
    if boxes.None? {
      return Raise(AttributeError);
    }
    if trackId.value !in data.value {
      return Raise(KeyError);
    }
    var defects := data.value[trackId.value];
    var states: seq<bool> := [];
    var i := 0;
    while i < |boxes.value|
      invariant 0 <= i <= |boxes.value| && |states| == i
      invariant forall k :: 0 <= k < i ==> (states[k] <==> DefectName(boxes.value[k]) in defects)
    {
      states := states + [DefectName(boxes.value[i]) in defects];
      i := i + 1;
    }
    return Ok(states);
  }

  /** Ticking the box of a defect and then refreshing the boxes shows that
      box ticked, and the module's list holds the defect once. */
  method TickThenRefresh(m: AnnotationEditorModel, trackId: string, defect: string, boxes: seq<string>, current: seq<bool>)
    returns (states: Result<seq<bool>>)
    requires m.Valid() && m.annotationData.Some? && trackId in m.annotationData.value
    requires CheckboxName(defect) in boxes
    modifies m
    ensures m.Valid() && m.annotationData.Some? && trackId in m.annotationData.value
    ensures defect in m.annotationData.value[trackId] && PyList.NoDup(m.annotationData.value[trackId])
    ensures states.Ok? && |states.value| == |boxes|
    ensures forall i :: 0 <= i < |boxes| && boxes[i] == CheckboxName(defect) ==> states.value[i]
  {
    var raised := m.UpdateAnnotationData(true, Some(trackId), CheckboxName(defect), 2);
    DefectOfCheckbox(defect);
    ToggledSpec(old(m.annotationData).value[trackId], defect, true);
    states := UpdateCheckboxStates(true, m.annotationData, Some(trackId), Some(boxes), current);
  }
}
