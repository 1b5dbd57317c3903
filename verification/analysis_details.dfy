/** The analysis-details window (`src/components/analysis_details.py`): it
    shows the type, timestamp, dataset path and hyperparameters of the
    selected analysis, read from the analysis's `meta.json`. Case mapping is
    modelled for ASCII letters only. */
module AnalysisDetails {
  import opened Wrappers
  import Text

  // ---------------------------------------------------------------------------
  // Display names

  function Upper(ch: char): (r: char)
    ensures r == ch || ('a' <= ch <= 'z' && 'A' <= r <= 'Z')
  {
    if 'a' <= ch <= 'z' then (ch as int - 32) as char else ch
  }

  function Lower(ch: char): (r: char)
    ensures r == ch || ('A' <= ch <= 'Z' && 'a' <= r <= 'z')
  {
    if 'A' <= ch <= 'Z' then (ch as int + 32) as char else ch
  }

  function LowerAll(s: string): (r: string)
    ensures |r| == |s| && forall k :: 0 <= k < |s| ==> r[k] == Lower(s[k])
  {
    if |s| == 0 then "" else [Lower(s[0])] + LowerAll(s[1..])
  }

  /** `str.capitalize`: the first character upper case, the others lower case. */
  function Capitalize(s: string): (r: string)
    ensures |r| == |s|
    ensures forall k :: 0 <= k < |s| ==> r[k] == (if k == 0 then Upper(s[0]) else Lower(s[k]))
  {
    if |s| == 0 then "" else [Upper(s[0])] + LowerAll(s[1..])
  }

  function CapitalizeAll(parts: seq<string>): (r: seq<string>)
    ensures |r| == |parts|
  {
    if |parts| == 0 then [] else [Capitalize(parts[0])] + CapitalizeAll(parts[1..])
  }

  /** `to_display`: `"my_setting"` becomes `"My Setting"`. */
  function ToDisplay(text: string): (r: string) {
    Text.Join(CapitalizeAll(Text.Split(text, '_')), ' ')
  }

  /** What `to_display` makes of the character at `i`: an underscore becomes
      a space, the first character of a word is upper case, every other
      character lower case. */
  function DisplayChar(text: string, i: nat): char
    requires i < |text|
  {
    if text[i] == '_' then ' '
    else if i == 0 || text[i - 1] == '_' then Upper(text[i])
    else Lower(text[i])
  }

  function FirstIndexOf(s: string, c: char): (r: Option<nat>)
    ensures r.None? <==> c !in s
    ensures r.Some? ==> r.value < |s| && s[r.value] == c && c !in s[..r.value]
  {
    if |s| == 0 then None
    else if s[0] == c then Some(0)
    else match FirstIndexOf(s[1..], c)
      case None => None
      case Some(k) =>
        assert s[..k + 1] == [s[0]] + s[1..][..k];
        Some(k + 1)
  }

  /** `to_display` works character by character: it keeps the length and maps
      each character by `DisplayChar`. */
  lemma {:induction false} ToDisplayChars(text: string)
    ensures |ToDisplay(text)| == |text|
    ensures forall i :: 0 <= i < |text| ==> ToDisplay(text)[i] == DisplayChar(text, i)
    decreases |text|
  {
    var r := ToDisplay(text);
    match FirstIndexOf(text, '_')
    case None =>
      Text.SplitAbsent(text, '_');
      assert CapitalizeAll([text]) == [Capitalize(text)];
    case Some(p) =>
      var a, b := text[..p], text[p + 1..];
      assert text == a + ['_'] + b;
      Text.SplitAt(a, '_', b);
      var rest := Text.Split(b, '_');
      assert CapitalizeAll([a] + rest) == [Capitalize(a)] + CapitalizeAll(rest) by {
        assert ([a] + rest)[1..] == rest;
      }
      assert r == Capitalize(a) + [' '] + ToDisplay(b);
      ToDisplayChars(b);
      DisplayConcat(a, b, ToDisplay(b));
  }

  /** Joining a word without underscores to an already displayed rest with a
      space displays the underscore-joined name. */
  lemma DisplayConcat(a: string, b: string, d: string)
    requires '_' !in a
    requires |d| == |b| && forall i :: 0 <= i < |b| ==> d[i] == DisplayChar(b, i)
    ensures var text, r := a + ['_'] + b, Capitalize(a) + [' '] + d;
      |r| == |text| && forall i :: 0 <= i < |text| ==> r[i] == DisplayChar(text, i)
  {
    var text, r := a + ['_'] + b, Capitalize(a) + [' '] + d;
    var p := |a|;
    forall i | 0 <= i < |text| ensures r[i] == DisplayChar(text, i) {
      if i < p {
        assert r[i] == Capitalize(a)[i] && text[i] == a[i];
        if i > 0 {
          assert text[i - 1] == a[i - 1];
        }
      } else if i > p {
        assert r[i] == d[i - p - 1] && b[i - p - 1] == text[i];
        if i > p + 1 {
          assert b[i - p - 2] == text[i - 1];
        }
      }
    }
  }

  /** The display name holds no underscore and has the same length; when the
      setting name holds no space, the spaces of the display name sit exactly
      where the underscores were, one word per part of the name. */
  lemma ToDisplaySpec(text: string)
    ensures |ToDisplay(text)| == |text|
    ensures '_' !in ToDisplay(text)
    ensures ' ' !in text ==> forall i :: 0 <= i < |text| ==> (ToDisplay(text)[i] == ' ' <==> text[i] == '_')
  {
    ToDisplayChars(text);
    var r := ToDisplay(text);
    forall i | 0 <= i < |r| ensures r[i] != '_' {
      assert r[i] == DisplayChar(text, i);
    }
  }

  /** `truncate_string` on a value already converted by `str`: longer values
      are cut to `maxLen` characters and marked with `...`. */
  function TruncateString(value: string, maxLen: nat): (r: string)
    ensures |r| <= maxLen + 3
    ensures |value| <= maxLen ==> r == value
    ensures |value| > maxLen ==> |r| == maxLen + 3 && r[..maxLen] == value[..maxLen] && r[maxLen..] == "..."
  {
    if |value| > maxLen then value[..maxLen] + "..." else value
  }

  /** Truncating a truncated value again changes nothing. */
  lemma TruncateIdempotent(value: string, maxLen: nat)
    ensures TruncateString(TruncateString(value, maxLen), maxLen) == TruncateString(value, maxLen)
  {
    var r := TruncateString(value, maxLen);
    if |value| > maxLen {
      assert r[..maxLen] + "..." == r;
    }
  }

  // ---------------------------------------------------------------------------
  // The view

  /** The values of `meta.json` the view reads: strings, the hyperparameter
      dictionary (its values already converted by `str`, in the dictionary's
      order), or anything else. */
  datatype MetaValue = MetaStr(s: string) | MetaDict(items: seq<(string, string)>) | MetaOther

  /** One line of the hyperparameter list. */
  function HyperparameterLine(name: string, value: string): string {
    ToDisplay(name) + ": " + TruncateString(value, 100)
  }

  /** The hyperparameter list: one line per hyperparameter, in order. */
  function HyperparameterLines(items: seq<(string, string)>): (r: seq<string>)
    ensures |r| == |items|
    ensures forall k :: 0 <= k < |items| ==> r[k] == HyperparameterLine(items[k].0, items[k].1)
  {
    if |items| == 0 then [] else [HyperparameterLine(items[0].0, items[0].1)] + HyperparameterLines(items[1..])
  }

  /** `meta[key]` passed where a string is needed: KeyError when missing,
      TypeError when not a string (`str.split` and `setText` refuse it). */
  function TextOf(meta: map<string, MetaValue>, key: string): (r: Result<string>)
    ensures r.Ok? <==> key in meta && meta[key].MetaStr?
    ensures r.Ok? ==> r.value == meta[key].s
    ensures r.Raise? ==> r.error == (if key in meta then TypeError else KeyError)
  {
    if key !in meta then Raise(KeyError)
    else if !meta[key].MetaStr? then Raise(TypeError)
    else Ok(meta[key].s)
  }

  /** `meta["hyperparameters"].items()`: KeyError when missing,
      AttributeError when not a dictionary. */
  function ItemsOf(meta: map<string, MetaValue>): (r: Result<seq<(string, string)>>)
    ensures r.Ok? <==> "hyperparameters" in meta && meta["hyperparameters"].MetaDict?
    ensures r.Ok? ==> r.value == meta["hyperparameters"].items
    ensures r.Raise? ==> r.error == (if "hyperparameters" in meta then AttributeError else KeyError)
  {
    if "hyperparameters" !in meta then Raise(KeyError)
    else if !meta["hyperparameters"].MetaDict? then Raise(AttributeError)
    else Ok(meta["hyperparameters"].items)
  }

  /** The four widgets the view fills. */
  class AnalysisDetailsView {
    var analysisType: string
    var timestamp: string
    var datasetPath: string
    var hyperparameters: seq<string>

    /** `update`, the slot of `meta_changed`: without meta data every field
        is cleared; otherwise the fields are set one after the other, so a
        missing or malformed entry raises after the fields before it were
        already set. */
    method Update(meta: Option<map<string, MetaValue>>) returns (raised: Option<PyError>)
      modifies this
      ensures meta.None? ==>
        raised == None && analysisType == "" && timestamp == "" && datasetPath == "" && hyperparameters == []
      ensures meta.Some? ==>
        match TextOf(meta.value, "type")
        case Raise(e) =>
          raised == Some(e) && analysisType == old(analysisType) && timestamp == old(timestamp) &&
          datasetPath == old(datasetPath) && hyperparameters == old(hyperparameters)
        case Ok(t) =>
          analysisType == ToDisplay(t) &&
          match TextOf(meta.value, "timestamp")
          case Raise(e) =>
            raised == Some(e) && timestamp == old(timestamp) && datasetPath == old(datasetPath) && hyperparameters == old(hyperparameters)
          case Ok(ts) =>
            timestamp == ts &&
            match TextOf(meta.value, "dataset_dir")
            case Raise(e) => raised == Some(e) && datasetPath == old(datasetPath) && hyperparameters == old(hyperparameters)
            case Ok(dir) =>
              datasetPath == dir &&
              match ItemsOf(meta.value)
              case Raise(e) => raised == Some(e) && hyperparameters == old(hyperparameters)
              case Ok(items) => raised == None && hyperparameters == HyperparameterLines(items)
    {
      if meta.None? {
        analysisType, timestamp, datasetPath, hyperparameters := "", "", "", [];
        return None;
      }
      var t := TextOf(meta.value, "type");
      if t.Raise? {
        return Some(t.error);
      }
      analysisType := ToDisplay(t.value);
      var ts := TextOf(meta.value, "timestamp");
      if ts.Raise? {
        return Some(ts.error);
      }
      timestamp := ts.value;
      var dir := TextOf(meta.value, "dataset_dir");
      if dir.Raise? {
        return Some(dir.error);
      }
      datasetPath := dir.value;
      var items := ItemsOf(meta.value);
      if items.Raise? {
        return Some(items.error);
      }
      // the list is built before the widget is cleared and refilled
      var lines := BuildLines(items.value);
      hyperparameters := lines;
      return None;
    }
  }

  /** The comprehension that builds the hyperparameter list. */
  method BuildLines(items: seq<(string, string)>) returns (lines: seq<string>)
    ensures lines == HyperparameterLines(items)
  {
    lines := [];
    var k := 0;
    while k < |items|
      invariant 0 <= k <= |items| && lines == HyperparameterLines(items[..k])
    {
      assert items[..k + 1] == items[..k] + [items[k]];
      HyperparameterLinesAppend(items[..k], items[k]);
      lines := lines + [HyperparameterLine(items[k].0, items[k].1)];
      k := k + 1;
    }
    assert items[..k] == items;
  }

  lemma {:induction false} HyperparameterLinesAppend(items: seq<(string, string)>, item: (string, string))
    ensures HyperparameterLines(items + [item]) == HyperparameterLines(items) + [HyperparameterLine(item.0, item.1)]
  {
    if |items| > 0 {
      assert (items + [item])[1..] == items[1..] + [item];
      HyperparameterLinesAppend(items[1..], item);
    }
  }
}
