/** Conversion between GeoJSON features and the flat records of a data frame,
    and the reprojection of a frame's geometry column.

    A frame is a sequence of records, one per row, each mapping column names to
    cells; a column missing from a row reads as NaN, as it does in a pandas frame
    built from dictionaries. Index columns are ordinary columns here (the state
    of a frame after `reset_index`). */
module GeoJson {
  import opened Wrappers

  /** GeoJSON coordinates: a position or a nested array of them. */
  datatype Coordinates = Position(x: real, y: real) | Positions(items: seq<Coordinates>)

  datatype Geometry = Geometry(geomType: Value, coordinates: Coordinates)

  /** A data frame cell or a JSON property value. */
  datatype Value = Null | NaN | Num(n: real) | Str(s: string) | Bool(b: bool) | Geom(g: Geometry)

  type Record = map<string, Value>

  datatype Feature = Feature(geometry: Geometry, properties: map<string, Value>)

  datatype Collection = Collection(crsName: string, features: seq<Feature>)

  /** Columns that never become feature properties. */
  const Excluded: set<string> := {"index", "level_0", "geometry", "geometry_type"}

  /** The coordinate reference system named in every saved collection. */
  const Crs84: string := "urn:ogc:def:crs:OGC:1.3:CRS84"

  /** The cell of column `k` in `row`: NaN where the row lacks the column. */
  function Cell(row: Record, k: string): Value {
    if k in row then row[k] else NaN
  }

  /** The columns of a frame: every key of every row. */
  function Columns(rows: seq<Record>): (cols: set<string>)
    ensures forall i, k :: 0 <= i < |rows| && k in rows[i] ==> k in cols
    ensures forall k :: k in cols ==> exists i :: 0 <= i < |rows| && k in rows[i]
  {
    if |rows| == 0 then {}
    else
      var rest := Columns(rows[1..]);
      assert forall i :: 1 <= i < |rows| ==> rows[i] == rows[1..][i - 1];
      rows[0].Keys + rest
  }

  /** `df.where(pd.notnull(df), None)` on one cell. */
  function Clean(v: Value): (r: Value)
    ensures r != NaN
    ensures v != NaN ==> r == v
    ensures v == NaN ==> r == Null
  {
    if v == NaN then Null else v
  }

  // ---------------------------------------------------------------------------
  // Loading

  /** The record that loading makes of one feature, or KeyError without a track id. */
  function RecordOf(f: Feature): (r: Result<Record>)
    ensures r.Ok? <==> "track_id" in f.properties
    ensures r.Ok? ==> r.value.Keys == {"track_id", "geometry_type", "geometry"}
    ensures r.Ok? ==> r.value["track_id"] == f.properties["track_id"]
    ensures r.Ok? ==> r.value["geometry_type"] == f.geometry.geomType
    ensures r.Ok? ==> r.value["geometry"] == Geom(f.geometry)
  {
    if "track_id" in f.properties then
      Ok(map["track_id" := f.properties["track_id"],
             "geometry_type" := f.geometry.geomType,
             "geometry" := Geom(f.geometry)])
    else Raise(KeyError)
  }

  /** The frame that loading makes of a feature list. */
  function LoadSpec(features: seq<Feature>): Result<seq<Record>> {
    MapResult(features, RecordOf)
  }

  /** Loading fails, with KeyError, exactly when some feature has no track id;
      otherwise it yields one record per feature, in feature order. */
  lemma LoadSpecShape(features: seq<Feature>)
    ensures LoadSpec(features).Ok? <==> forall i :: 0 <= i < |features| ==> "track_id" in features[i].properties
    ensures !LoadSpec(features).Ok? ==> LoadSpec(features) == Raise(KeyError)
    ensures LoadSpec(features).Ok? ==>
      |LoadSpec(features).value| == |features| &&
      forall i :: 0 <= i < |features| ==> Ok(LoadSpec(features).value[i]) == RecordOf(features[i])
  {
    MapResultOk(features, RecordOf);
    if !LoadSpec(features).Ok? {
      var i := FirstMissingTrackId(features);
      MapResultFirstError(features, RecordOf, i);
    }
  }

  /** The position of the first feature without a track id. */
  lemma FirstMissingTrackId(features: seq<Feature>) returns (i: nat)
    requires exists j :: 0 <= j < |features| && "track_id" !in features[j].properties
    ensures i < |features| && "track_id" !in features[i].properties
    ensures forall j :: 0 <= j < i ==> "track_id" in features[j].properties
  {
    i := 0;
    while "track_id" in features[i].properties
      invariant i < |features|
      invariant forall j :: 0 <= j < i ==> "track_id" in features[j].properties
      decreases |features| - i
    {
      i := i + 1;
    }
  }

  /** `load_geojson`: one record per feature holding its track id, geometry type
      and geometry. */
  method Load(features: seq<Feature>) returns (r: Result<seq<Record>>)
    ensures r == LoadSpec(features)
  {
    var rows: seq<Record> := [];
    var i := 0;
    while i < |features|
      invariant 0 <= i <= |features| && |rows| == i
      invariant forall j :: 0 <= j < i ==> RecordOf(features[j]) == Ok(rows[j])
    {
      var f := features[i];
      if "track_id" !in f.properties {
        MapResultFirstError(features, RecordOf, i);
        return Raise(KeyError);
      }
      var rec := map["track_id" := f.properties["track_id"],
                     "geometry_type" := f.geometry.geomType,
                     "geometry" := Geom(f.geometry)];
      rows := rows + [rec];
      i := i + 1;
    }
    MapResultAll(features, RecordOf, rows);
    return Ok(rows);
  }

  // ---------------------------------------------------------------------------
  // Saving

  /** The properties written for a row: every column except the excluded ones,
      with NaN replaced by None. */
  function Properties(row: Record, cols: set<string>): map<string, Value> {
    map k | k in cols - Excluded :: Clean(Cell(row, k))
  }

  /** The feature written for one row of a frame with columns `cols`. */
  function FeatureOf(row: Record, cols: set<string>): Result<Feature> {
    if "geometry_type" !in cols || "geometry" !in cols then Raise(KeyError)
    else
      match Clean(Cell(row, "geometry"))
      case Geom(g) => Ok(Feature(Geometry(Clean(Cell(row, "geometry_type")), g.coordinates), Properties(row, cols)))
      case _ => Raise(TypeError)
  }

  /** The collection that saving a frame writes. */
  function SaveSpec(rows: seq<Record>): Result<Collection> {
    var cols := Columns(rows);
    match MapResult(rows, row => FeatureOf(row, cols))
    case Raise(e) => Raise(e)
    case Ok(fs) => Ok(Collection(Crs84, fs))
  }

  /** `save_geojson`: a FeatureCollection in CRS84 with one feature per row, in row
      order. Each feature's geometry takes its type from the row's `geometry_type`
      and its coordinates from the row's geometry; its properties are the other
      columns, without `index`, `level_0`, `geometry` and `geometry_type`, and with
      NaN written as None. An empty frame saves as an empty collection; otherwise
      a missing `geometry_type` or `geometry` column raises KeyError and a geometry
      cell that is not a geometry raises TypeError. */
  lemma SaveSpecShape(rows: seq<Record>)
    ensures SaveSpec(rows).Ok? <==>
      (|rows| == 0 ||
       ("geometry_type" in Columns(rows) && "geometry" in Columns(rows) &&
        forall i :: 0 <= i < |rows| ==> Cell(rows[i], "geometry").Geom?))
    ensures SaveSpec(rows).Ok? ==>
      var c := SaveSpec(rows).value;
      c.crsName == "urn:ogc:def:crs:OGC:1.3:CRS84" && |c.features| == |rows| &&
      forall i :: 0 <= i < |rows| ==> FeatureShape(c.features[i], rows[i], Columns(rows))
  {
    var cols := Columns(rows);
    MapResultOk(rows, row => FeatureOf(row, cols));
    if |rows| > 0 && !("geometry_type" in cols && "geometry" in cols) {
      assert !FeatureOf(rows[0], cols).Ok?;
    }
    if |rows| > 0 && "geometry_type" in cols && "geometry" in cols {
      if !forall i :: 0 <= i < |rows| ==> Cell(rows[i], "geometry").Geom? {
        var i :| 0 <= i < |rows| && !Cell(rows[i], "geometry").Geom?;
        assert !FeatureOf(rows[i], cols).Ok?;
      }
    }
    if SaveSpec(rows).Ok? {
      var fs := SaveSpec(rows).value.features;
      forall i | 0 <= i < |rows| ensures FeatureShape(fs[i], rows[i], cols) {
        FeatureOfShape(rows[i], cols);
      }
    }
  }

  /** What a row's feature holds: the geometry type of the row, the coordinates of
      its geometry, and the cleaned cells of the other columns. */
  predicate FeatureShape(f: Feature, row: Record, cols: set<string>) {
    f.geometry.geomType == Clean(Cell(row, "geometry_type")) &&
    Cell(row, "geometry").Geom? && f.geometry.coordinates == Cell(row, "geometry").g.coordinates &&
    f.properties.Keys == cols - Excluded &&
    forall k :: k in f.properties ==> f.properties[k] == Clean(Cell(row, k)) && f.properties[k] != NaN
  }

  /** The feature of one row, when there is one. */
  lemma FeatureOfShape(row: Record, cols: set<string>)
    ensures FeatureOf(row, cols).Ok? <==> "geometry_type" in cols && "geometry" in cols && Cell(row, "geometry").Geom?
    ensures FeatureOf(row, cols).Ok? ==> FeatureShape(FeatureOf(row, cols).value, row, cols)
  {
  }

  /** Builds the properties of one feature by visiting the columns one by one. */
  method PropertiesOf(row: Record, cols: set<string>) returns (props: map<string, Value>)
    ensures props == Properties(row, cols)
  {
    props := map[];
    var todo := cols;
    while todo != {}
      invariant todo <= cols
      invariant props == map k | k in (cols - todo) - Excluded :: Clean(Cell(row, k))
      decreases |todo|
    {
      var k :| k in todo;
      if k !in Excluded {
        props := props[k := Clean(Cell(row, k))];
      }
      todo := todo - {k};
    }
  }

  /** `save_geojson`, feature by feature. */
  method Save(rows: seq<Record>) returns (r: Result<Collection>)
    ensures r == SaveSpec(rows)
  {
    var cols := Columns(rows);
    var step := row => FeatureOf(row, cols);
    var features: seq<Feature> := [];
    var i := 0;
    while i < |rows|
      invariant 0 <= i <= |rows| && |features| == i
      invariant forall j :: 0 <= j < i ==> step(rows[j]) == Ok(features[j])
    {
      var row := rows[i];
      if "geometry_type" !in cols || "geometry" !in cols {
        MapResultFirstError(rows, step, i);
        return Raise(KeyError);
      }
      var gtype := Clean(Cell(row, "geometry_type"));
      var geometry := Clean(Cell(row, "geometry"));
      if !geometry.Geom? {
        MapResultFirstError(rows, step, i);
        return Raise(TypeError);
      }
      var props := PropertiesOf(row, cols);
      features := features + [Feature(Geometry(gtype, geometry.g.coordinates), props)];
      i := i + 1;
    }
    MapResultAll(rows, step, features);
    return Ok(Collection(Crs84, features));
  }

  /** Loading a saved frame recovers, row by row, the track id, the geometry type
      and the coordinates (NaN coming back as None). */
  lemma RoundTrip(rows: seq<Record>)
    requires SaveSpec(rows).Ok?
    requires "track_id" in Columns(rows)
    ensures LoadSpec(SaveSpec(rows).value.features).Ok?
    ensures var loaded := LoadSpec(SaveSpec(rows).value.features).value;
      |loaded| == |rows| &&
      forall i :: 0 <= i < |rows| ==>
        loaded[i].Keys == {"track_id", "geometry_type", "geometry"} &&
        loaded[i]["track_id"] == Clean(Cell(rows[i], "track_id")) &&
        loaded[i]["geometry_type"] == Clean(Cell(rows[i], "geometry_type")) &&
        loaded[i]["geometry"].Geom? && Cell(rows[i], "geometry").Geom? &&
        loaded[i]["geometry"].g.coordinates == Cell(rows[i], "geometry").g.coordinates
  {
    SaveSpecShape(rows);
    var fs := SaveSpec(rows).value.features;
    assert "track_id" in Columns(rows) - Excluded;
    forall i | 0 <= i < |fs| ensures "track_id" in fs[i].properties {
      assert FeatureShape(fs[i], rows[i], Columns(rows));
    }
    LoadSpecShape(fs);
    var loaded := LoadSpec(fs).value;
    forall i | 0 <= i < |rows|
      ensures loaded[i].Keys == {"track_id", "geometry_type", "geometry"}
      ensures loaded[i]["track_id"] == Clean(Cell(rows[i], "track_id"))
      ensures loaded[i]["geometry_type"] == Clean(Cell(rows[i], "geometry_type"))
      ensures loaded[i]["geometry"] == Geom(fs[i].geometry)
    {
      RecordOfFeature(fs[i], loaded[i]);
      assert FeatureShape(fs[i], rows[i], Columns(rows));
      assert fs[i].properties["track_id"] == Clean(Cell(rows[i], "track_id"));
    }
  }

  lemma RecordOfFeature(f: Feature, rec: Record)
    requires Ok(rec) == RecordOf(f)
    ensures rec.Keys == {"track_id", "geometry_type", "geometry"}
    ensures rec["track_id"] == f.properties["track_id"]
    ensures rec["geometry_type"] == f.geometry.geomType
    ensures rec["geometry"] == Geom(f.geometry)
  {
  }

  // ---------------------------------------------------------------------------
  // Reprojection

  /** Applies a point projection to every position, keeping the nesting. */
  function MapCoordinates(c: Coordinates, project: (real, real) -> (real, real)): (r: Coordinates)
    ensures r.Position? <==> c.Position?
    ensures r.Positions? ==> |r.items| == |c.items|
  {
    match c
    case Position(x, y) => Position(project(x, y).0, project(x, y).1)
    case Positions(items) => Positions(seq(|items|, i requires 0 <= i < |items| => MapCoordinates(items[i], project)))
  }

  /** Projecting with the identity changes no coordinate. */
  lemma {:induction false} MapIdentity(c: Coordinates, project: (real, real) -> (real, real))
    requires forall x, y :: project(x, y) == (x, y)
    ensures MapCoordinates(c, project) == c
  {
    match c
    case Position(x, y) =>
    case Positions(items) =>
      forall i | 0 <= i < |items| ensures MapCoordinates(items[i], project) == items[i] {
        MapIdentity(items[i], project);
      }
  }

  /** The geometry cell a reprojected row gets, or the error of `shape()`. */
  function ReprojectCell(v: Value, project: (real, real) -> (real, real)): Result<Value> {
    match v
    case Geom(g) => Ok(Geom(Geometry(g.geomType, MapCoordinates(g.coordinates, project))))
    case _ => Raise(AttributeError)
  }

  /** A row with its geometry cell replaced by the projected geometry. */
  function ReprojectRow(row: Record, project: (real, real) -> (real, real)): Result<Record> {
    match ReprojectCell(Cell(row, "geometry"), project)
    case Raise(e) => Raise(e)
    case Ok(v) => Ok(row["geometry" := v])
  }

  /** The frame that `coords_wgs84_to_ltp` returns. */
  function ReprojectSpec(rows: seq<Record>, project: (real, real) -> (real, real)): Result<seq<Record>> {
    if "geometry" !in Columns(rows) then Raise(KeyError)
    else MapResult(rows, row => ReprojectRow(row, project))
  }

  /** `coords_wgs84_to_ltp`: collects the projected geometries, then writes them
      into a copy of the frame. */
  method Reproject(rows: seq<Record>, project: (real, real) -> (real, real)) returns (r: Result<seq<Record>>)
    ensures r == ReprojectSpec(rows, project)
  {
    if "geometry" !in Columns(rows) {
      return Raise(KeyError);
    }
    var step := row => ReprojectRow(row, project);
    var transformed: seq<Value> := [];
    var i := 0;
    while i < |rows|
      invariant 0 <= i <= |rows| && |transformed| == i
      invariant forall j :: 0 <= j < i ==> ReprojectCell(Cell(rows[j], "geometry"), project) == Ok(transformed[j])
    {
      var cell := ReprojectCell(Cell(rows[i], "geometry"), project);
      if cell.Raise? {
        MapResultFirstError(rows, step, i);
        return Raise(cell.error);
      }
      transformed := transformed + [cell.value];
      i := i + 1;
    }
    var copy := seq(|rows|, j requires 0 <= j < |rows| => rows[j]["geometry" := transformed[j]]);
    MapResultAll(rows, step, copy);
    return Ok(copy);
  }

  /** The reprojected copy has the same rows in the same order; in each, only the
      geometry cell changes, its type is kept and its coordinates are projected. */
  lemma ReprojectOnlyGeometry(rows: seq<Record>, project: (real, real) -> (real, real))
    requires ReprojectSpec(rows, project).Ok?
    ensures var out := ReprojectSpec(rows, project).value;
      |out| == |rows| &&
      forall i :: 0 <= i < |rows| ==>
        out[i].Keys == rows[i].Keys + {"geometry"} &&
        (forall k :: k in rows[i] && k != "geometry" ==> out[i][k] == rows[i][k]) &&
        "geometry" in rows[i] && rows[i]["geometry"].Geom? && out[i]["geometry"].Geom? &&
        out[i]["geometry"].g.geomType == rows[i]["geometry"].g.geomType &&
        out[i]["geometry"].g.coordinates == MapCoordinates(rows[i]["geometry"].g.coordinates, project)
  {
    MapResultOk(rows, row => ReprojectRow(row, project));
  }
}
