/** The queries every version of the main window runs on the loaded GeoJSON
    document: the names of the data columns, one column as a dictionary from
    track id to value, and whether a directory holds a dataset. The same code
    appears in the main window component, the main controller and the older
    single-file application. */
module Columns {
  import opened Wrappers
  import opened GeoJson
  import Text
  import PyList

  // ---------------------------------------------------------------------------
  // Python dictionaries: insertion-ordered, a key assigned again keeps its place

  type Dict = seq<(Value, Value)>

  function Keys(d: Dict): set<Value> {
    if |d| == 0 then {} else {d[0].0} + Keys(d[1..])
  }

  function Lookup(d: Dict, k: Value): Option<Value> {
    if |d| == 0 then None
    else if d[0].0 == k then Some(d[0].1)
    else Lookup(d[1..], k)
  }

  /** `d[k] = v`. */
  function Put(d: Dict, k: Value, v: Value): (r: Dict)
    ensures Keys(r) == Keys(d) + {k}
    ensures k in Keys(d) ==> |r| == |d| && forall i :: 0 <= i < |d| ==> r[i].0 == d[i].0
    ensures k !in Keys(d) ==> r == d + [(k, v)]
  {
    if |d| == 0 then [(k, v)]
    else if d[0].0 == k then
      assert ([(k, v)] + d[1..])[1..] == d[1..];
      [(k, v)] + d[1..]
    else
      var rest := Put(d[1..], k, v);
      assert ([d[0]] + rest)[1..] == rest;
      [d[0]] + rest
  }

  /** After `d[k] = v`, `k` holds `v` and every other key what it held. */
  lemma {:induction false} LookupPut(d: Dict, k: Value, v: Value, k': Value)
    ensures Lookup(Put(d, k, v), k') == if k' == k then Some(v) else Lookup(d, k')
  {
    if |d| > 0 && d[0].0 != k {
      LookupPut(d[1..], k, v, k');
    }
  }

  /** A key is found exactly when it is present. */
  lemma {:induction false} LookupKeys(d: Dict, k: Value)
    ensures Lookup(d, k).Some? <==> k in Keys(d)
  {
    if |d| > 0 {
      LookupKeys(d[1..], k);
    }
  }

  /** `d.values()`, in insertion order. */
  function Values(d: Dict): (vs: seq<Value>)
    ensures |vs| == |d| && forall i :: 0 <= i < |d| ==> vs[i] == d[i].1
  {
    if |d| == 0 then [] else [d[0].1] + Values(d[1..])
  }

  // ---------------------------------------------------------------------------
  // get_column

  /** A missing value (`None`) is read as NaN. */
  function NanForNone(v: Value): (r: Value)
    ensures r != Null
    ensures v != Null ==> r == v
  {
    if v == Null then NaN else v
  }

  predicate HasTrackId(f: Feature) {
    "track_id" in f.properties
  }

  /** The feature carries the column and a track id to file it under. */
  predicate Holds(f: Feature, column: string) {
    HasTrackId(f) && column in f.properties
  }

  /** The loop of `get_column` from the `i`-th feature on. Reading the track id
      of a feature without one raises KeyError; a feature without the column
      is skipped; a later feature with the same track id overwrites. */
  function ColumnFrom(features: seq<Feature>, column: string, i: nat, acc: Dict): Result<Dict>
    requires i <= |features|
    decreases |features| - i
  {
    if i == |features| then Ok(acc)
    else
      var props := features[i].properties;
      if !HasTrackId(features[i]) then Raise(KeyError)
      else if column !in props then ColumnFrom(features, column, i + 1, acc)
      else ColumnFrom(features, column, i + 1, Put(acc, props["track_id"], NanForNone(props[column])))
  }

  /** The loop of `get_column` over all features, once a dataset is loaded. */
  method GetColumn(features: seq<Feature>, column: string) returns (r: Result<Dict>)
    ensures r == ColumnFrom(features, column, 0, [])
  {
    var values: Dict := [];
    var i := 0;
    while i < |features|
      invariant 0 <= i <= |features|
      invariant ColumnFrom(features, column, 0, []) == ColumnFrom(features, column, i, values)
    {
      var props := features[i].properties;
      if "track_id" !in props {
        return Raise(KeyError);
      }
      if column in props {
        values := Put(values, props["track_id"], NanForNone(props[column]));
      }
      i := i + 1;
    }
    return Ok(values);
  }

  /** `get_column` raises exactly when some feature has no track id. */
  lemma {:induction false} ColumnRaises(features: seq<Feature>, column: string, i: nat, acc: Dict)
    requires i <= |features|
    ensures ColumnFrom(features, column, i, acc).Raise? <==> exists j :: i <= j < |features| && !HasTrackId(features[j])
    ensures ColumnFrom(features, column, i, acc).Raise? ==> ColumnFrom(features, column, i, acc).error == KeyError
    decreases |features| - i
  {
    if i < |features| && HasTrackId(features[i]) {
      var props := features[i].properties;
      var acc' := if column in props then Put(acc, props["track_id"], NanForNone(props[column])) else acc;
      ColumnRaises(features, column, i + 1, acc');
    }
  }

  /** The track ids of the features from the `i`-th on that carry the column. */
  function HeldIds(features: seq<Feature>, column: string, i: nat): set<Value>
    requires i <= |features|
  {
    set j | i <= j < |features| && Holds(features[j], column) :: features[j].properties["track_id"]
  }

  /** The `j`-th feature is the last from the `i`-th on to file a value under
      its track id. */
  predicate LastFor(features: seq<Feature>, column: string, j: nat)
    requires j < |features|
  {
    Holds(features[j], column) &&
    forall k :: j < k < |features| && Holds(features[k], column) ==>
      features[k].properties["track_id"] != features[j].properties["track_id"]
  }

  /** The keys of what `get_column` returns: the entries there before, and the
      track id of every feature that carries the column. */
  lemma {:induction false} ColumnKeys(features: seq<Feature>, column: string, i: nat, acc: Dict)
    requires i <= |features|
    requires ColumnFrom(features, column, i, acc).Ok?
    ensures Keys(ColumnFrom(features, column, i, acc).value) == Keys(acc) + HeldIds(features, column, i)
    decreases |features| - i
  {
    if i < |features| {
      var props := features[i].properties;
      if column in props {
        ColumnKeys(features, column, i + 1, Put(acc, props["track_id"], NanForNone(props[column])));
        assert HeldIds(features, column, i) == HeldIds(features, column, i + 1) + {props["track_id"]};
      } else {
        ColumnKeys(features, column, i + 1, acc);
        assert HeldIds(features, column, i) == HeldIds(features, column, i + 1);
      }
    }
  }

  /** A track id no feature from the `i`-th on files a value under keeps what
      it held before. */
  lemma {:induction false} ColumnKeeps(features: seq<Feature>, column: string, i: nat, acc: Dict, k: Value)
    requires i <= |features|
    requires ColumnFrom(features, column, i, acc).Ok?
    requires k !in HeldIds(features, column, i)
    ensures Lookup(ColumnFrom(features, column, i, acc).value, k) == Lookup(acc, k)
    decreases |features| - i
  {
    if i < |features| {
      var props := features[i].properties;
      if column in props {
        var acc' := Put(acc, props["track_id"], NanForNone(props[column]));
        assert k != props["track_id"];
        assert k !in HeldIds(features, column, i + 1);
        ColumnKeeps(features, column, i + 1, acc', k);
        LookupPut(acc, props["track_id"], NanForNone(props[column]), k);
      } else {
        assert HeldIds(features, column, i) == HeldIds(features, column, i + 1);
        ColumnKeeps(features, column, i + 1, acc, k);
      }
    }
  }

  /** Under each track id, `get_column` holds the value of the last feature
      that carries the column and that track id, with `None` read as NaN. */
  lemma {:induction false} ColumnLast(features: seq<Feature>, column: string, i: nat, acc: Dict, j: nat)
    requires i <= j < |features| && LastFor(features, column, j)
    requires ColumnFrom(features, column, i, acc).Ok?
    ensures Lookup(ColumnFrom(features, column, i, acc).value, features[j].properties["track_id"])
            == Some(NanForNone(features[j].properties[column]))
    decreases |features| - i
  {
    var props := features[i].properties;
    if column in props {
      var acc' := Put(acc, props["track_id"], NanForNone(props[column]));
      if j == i {
        assert props["track_id"] !in HeldIds(features, column, i + 1);
        ColumnKeeps(features, column, i + 1, acc', props["track_id"]);
        LookupPut(acc, props["track_id"], NanForNone(props[column]), props["track_id"]);
      } else {
        ColumnLast(features, column, i + 1, acc', j);
      }
    } else {
      ColumnLast(features, column, i + 1, acc, j);
    }
  }

  // ---------------------------------------------------------------------------
  // get_column_names

  /** Every property name of the features. */
  ghost function PropertyNames(features: seq<Feature>): set<string> {
    if |features| == 0 then {}
    else PropertyNames(features[..|features| - 1]) + features[|features| - 1].properties.Keys
  }

  /** A strictly ascending list: sorted and without duplicates. */
  predicate Ascending(names: seq<string>) {
    Text.Sorted(names) && PyList.NoDup(names)
  }

  /** What `get_column_names` returns once a dataset is loaded: the property
      names of all features except `track_id`, sorted, each once. */
  ghost predicate IsColumnNames(features: seq<Feature>, names: seq<string>) {
    Ascending(names) && forall n :: n in names <==> n in PropertyNames(features) && n != "track_id"
  }

  method GetColumnNames(features: seq<Feature>) returns (names: seq<string>)
    ensures IsColumnNames(features, names)
  {
    var cols: set<string> := {};
    var i := 0;
    while i < |features|
      invariant 0 <= i <= |features|
      invariant cols == PropertyNames(features[..i])
    {
      assert features[..i + 1][..i] == features[..i];
      cols := cols + features[i].properties.Keys;
      i := i + 1;
    }
    assert features[..|features|] == features;
    cols := cols - {"track_id"};
    // `list(columns_names)`: some order of the set
    var listed: seq<string> := [];
    var rest := cols;
    while rest != {}
      invariant rest <= cols
      invariant forall n :: n in listed <==> n in cols && n !in rest
      invariant PyList.NoDup(listed)
      decreases |rest|
    {
      var n :| n in rest;
      listed := listed + [n];
      rest := rest - {n};
    }
    names := Text.Sort(listed);
    Text.SortSpec(listed);
    PyList.NoDupPerm(listed, names);
    forall n ensures n in names <==> n in listed {
      assert n in names <==> n in multiset(names);
    }
  }

  /** The names are fixed by the features alone, whatever order the set of
      names was listed in before sorting. */
  lemma ColumnNamesUnique(features: seq<Feature>, a: seq<string>, b: seq<string>)
    requires IsColumnNames(features, a) && IsColumnNames(features, b)
    ensures a == b
  {
    assert forall n :: n in a <==> n in b;
    forall n ensures multiset(a)[n] == multiset(b)[n] {
      PyList.NoDupCount(a, n);
      PyList.NoDupCount(b, n);
      assert n in a <==> n in multiset(a);
      assert n in b <==> n in multiset(b);
    }
    assert multiset(a) == multiset(b);
    Text.SortedUnique(a, b);
  }

  // ---------------------------------------------------------------------------
  // The queries as the controllers run them on their model

  /** `get_column` on the model: no dataset directory gives the empty
      dictionary; a directory with no document loaded fails on `None["features"]`. */
  function ColumnQuery(dirSet: bool, data: Option<seq<Feature>>, column: string): (r: Result<Dict>)
  {
    if !dirSet then Ok([])
    else if data.None? then Raise(TypeError)
    else ColumnFrom(data.value, column, 0, [])
  }

  /** `get_column_names` on the model: `names` is what it returns. */
  ghost predicate NamesQuery(dirSet: bool, data: Option<seq<Feature>>, names: Result<seq<string>>) {
    if !dirSet then names == Ok([])
    else if data.None? then names == Raise(TypeError)
    else names.Ok? && IsColumnNames(data.value, names.value)
  }

  method QueryColumnNames(dirSet: bool, data: Option<seq<Feature>>) returns (r: Result<seq<string>>)
    ensures NamesQuery(dirSet, data, r)
  {
    if !dirSet {
      return Ok([]);
    }
    if data.None? {
      return Raise(TypeError);
    }
    var names := GetColumnNames(data.value);
    return Ok(names);
  }

  method QueryColumn(dirSet: bool, data: Option<seq<Feature>>, column: string) returns (r: Result<Dict>)
    ensures r == ColumnQuery(dirSet, data, column)
  {
    if !dirSet {
      return Ok([]);
    }
    if data.None? {
      return Raise(TypeError);
    }
    r := GetColumn(data.value, column);
  }

  // ---------------------------------------------------------------------------
  // valid_dataset

  /** The four directories a dataset must have at its top level. */
  const RequiredDirs: set<string> := {"mapping", "patches", "patches_final", "splitted"}

  /** `valid_dataset`, given the names of the directory's immediate
      subdirectories: the probes run in order and the first missing directory
      decides. */
  function ValidDataset(subdirs: seq<string>): (r: bool) {
    if "mapping" !in subdirs then false
    else if "patches" !in subdirs then false
    else if "patches_final" !in subdirs then false
    else if "splitted" !in subdirs then false
    else true
  }

  /** A directory is a dataset exactly when all four required directories are
      among its subdirectories, whatever else it holds. */
  lemma ValidDatasetSpec(subdirs: seq<string>, extra: seq<string>)
    ensures ValidDataset(subdirs) <==> RequiredDirs <= set n | n in subdirs
    ensures ValidDataset(subdirs) ==> ValidDataset(subdirs + extra) && ValidDataset(extra + subdirs)
  {
    if ValidDataset(subdirs) {
      assert "mapping" in subdirs + extra && "patches" in subdirs + extra;
      assert "patches_final" in subdirs + extra && "splitted" in subdirs + extra;
      assert "mapping" in extra + subdirs && "patches" in extra + subdirs;
      assert "patches_final" in extra + subdirs && "splitted" in extra + subdirs;
    } else {
      assert !("mapping" in subdirs && "patches" in subdirs && "patches_final" in subdirs && "splitted" in subdirs);
    }
  }

  // ---------------------------------------------------------------------------
  // Counting modules

  /** A feature whose geometry is a polygon, the outline of one module. */
  predicate IsModule(f: Feature) {
    f.geometry.geomType == Str("Polygon")
  }

  /** `num_modules` of `update_dataset_stats`. */
  method NumModules(features: seq<Feature>) returns (n: nat)
    ensures n == |PyList.Filter(features, IsModule)|
    ensures n == |set i | 0 <= i < |features| && IsModule(features[i])|
  {
    n := 0;
    var i := 0;
    while i < |features|
      invariant 0 <= i <= |features|
      invariant n == |PyList.Filter(features[..i], IsModule)|
    {
      PyList.FilterSnoc(features[..i], features[i], IsModule);
      assert features[..i + 1] == features[..i] + [features[i]];
      if IsModule(features[i]) {
        n := n + 1;
      }
      i := i + 1;
    }
    assert features[..|features|] == features;
    FilterCount(features);
  }

  /** The polygons kept by a filter are as many as the positions holding one. */
  lemma {:induction false} FilterCount(features: seq<Feature>)
    ensures |PyList.Filter(features, IsModule)| == |set i | 0 <= i < |features| && IsModule(features[i])|
  {
    if |features| > 0 {
      var init := features[..|features| - 1];
      var last := features[|features| - 1];
      FilterCount(init);
      assert features == init + [last];
      PyList.FilterSnoc(init, last, IsModule);
      var s := set i | 0 <= i < |features| && IsModule(features[i]);
      var s0 := set i | 0 <= i < |init| && IsModule(init[i]);
      if IsModule(last) {
        assert s == s0 + {|init|};
      } else {
        assert s == s0;
      }
    }
  }
}
