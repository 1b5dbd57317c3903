/** The per-patch steps of the module-temperature analysis: cropping the module
    frame off a patch, dropping patches with a sun reflection, and reducing each
    decodable patch to its minimum, maximum, mean and median temperature. */
module PatchStatistics {
  import opened Wrappers
  import PyList
  import Text
  import Stats
  import Display

  /** A raw radiometric patch: rows of pixel values. */
  type Raster = seq<seq<int>>

  /** A numpy image is rectangular: all rows have the same width. */
  predicate Rectangular(patch: Raster) {
    forall i :: 0 <= i < |patch| ==> |patch[i]| == Width(patch)
  }

  /** `patch.shape[1]`. */
  function Width(patch: Raster): nat {
    if |patch| == 0 then 0 else |patch[0]|
  }

  /** Python's `int()` on a float: truncation towards zero. */
  function Trunc(x: real): (r: int)
    ensures x >= 0.0 ==> r == x.Floor
    ensures x < 0.0 ==> r == -((-x).Floor)
  {
    if x >= 0.0 then x.Floor else -((-x).Floor)
  }

  /** The margin in pixels: the fraction `margin` of the width, truncated. */
  function MarginPx(margin: real, width: nat): int {
    Trunc(margin * (width as real))
  }

  /** `truncate_patch`: `patch[m:-m, m:-m]` with `m = int(margin * width)`. */
  function TruncatePatch(patch: Raster, margin: real): Raster {
    var m := MarginPx(margin, Width(patch));
    var rows := PyList.Slice(patch, m, -m);
    seq(|rows|, i requires 0 <= i < |rows| => PyList.Slice(rows[i], m, -m))
  }

  /** The margin is computed from the width alone; for `m >= 1` with `2m` below
      both the height and the width, `m` rows and `m` columns are removed from
      every side and the pixels keep their relative positions. */
  lemma TruncateInterior(patch: Raster, margin: real)
    requires Rectangular(patch)
    requires var m := MarginPx(margin, Width(patch)); m >= 1 && 2 * m < |patch| && 2 * m < Width(patch)
    ensures var m := MarginPx(margin, Width(patch));
      var r := TruncatePatch(patch, margin);
      |r| == |patch| - 2 * m &&
      forall i :: 0 <= i < |r| ==>
        |r[i]| == Width(patch) - 2 * m &&
        forall j :: 0 <= j < |r[i]| ==> r[i][j] == patch[i + m][j + m]
  {
    var m := MarginPx(margin, Width(patch));
    PyList.SymmetricSlice(patch, m);
    var rows := PyList.Slice(patch, m, -m);
    forall i | 0 <= i < |rows| ensures PyList.Slice(rows[i], m, -m) == patch[i + m][m..Width(patch) - m] {
      PyList.SymmetricSlice(rows[i], m);
    }
  }

  /** A margin that truncates to 0 pixels gives the slice `[0:-0]`, which is empty:
      the cropped patch has no pixels at all. */
  lemma TruncateZeroMargin(patch: Raster, margin: real)
    requires MarginPx(margin, Width(patch)) == 0
    ensures TruncatePatch(patch, margin) == []
  {
  }

  /** All pixels, row after row: the list is empty exactly when every row is. */
  function Pixels(patch: Raster): (r: seq<real>)
    ensures |r| == 0 <==> forall i :: 0 <= i < |patch| ==> |patch[i]| == 0
  {
    if |patch| == 0 then []
    else
      var head := seq(|patch[0]|, j requires 0 <= j < |patch[0]| => patch[0][j] as real);
      head + Pixels(patch[1..])
  }

  /** Every pixel of the patch is among the flattened pixels. */
  lemma {:induction false} PixelsHold(patch: Raster, i: nat, j: nat)
    requires i < |patch| && j < |patch[i]|
    ensures patch[i][j] as real in Pixels(patch)
  {
    var head := seq(|patch[0]|, j requires 0 <= j < |patch[0]| => patch[0][j] as real);
    assert Pixels(patch) == head + Pixels(patch[1..]);
    if i == 0 {
      assert head[j] == patch[0][j] as real;
    } else {
      assert patch[1..][i - 1] == patch[i];
      PixelsHold(patch[1..], i - 1, j);
    }
  }

  /** A rectangular patch flattens to height times width pixels. */
  lemma {:induction false} PixelsCount(patch: Raster)
    requires Rectangular(patch)
    ensures |Pixels(patch)| == |patch| * Width(patch)
  {
    if |patch| > 0 {
      var rest := patch[1..];
      var w := Width(patch);
      RestRectangular(patch);
      PixelsCount(rest);
      var head := seq(|patch[0]|, j requires 0 <= j < |patch[0]| => patch[0][j] as real);
      assert Pixels(patch) == head + Pixels(rest);
      MulSucc(|rest|, w);
    }
  }

  /** Dropping the first row keeps a patch rectangular, with the same width
      unless no row is left. */
  lemma RestRectangular(patch: Raster)
    requires Rectangular(patch) && |patch| > 0
    ensures Rectangular(patch[1..])
    ensures |patch| > 1 ==> Width(patch[1..]) == Width(patch)
  {
    var rest := patch[1..];
    forall i | 0 <= i < |rest| ensures |rest[i]| == Width(rest) {
      assert rest[i] == patch[i + 1];
      assert rest[0] == patch[1];
    }
  }

  lemma MulSucc(a: nat, w: nat)
    ensures (a + 1) * w == w + a * w
  {
  }

  /** The four pixel statistics of one patch, in degrees Celsius. */
  datatype PatchStat = PatchStat(min: real, max: real, mean: real, median: real)

  /** The converted minimum, maximum, mean and median of a non-empty list of
      pixels. */
  function Summary(px: seq<real>, gain: real, offset: real): PatchStat
    requires |px| > 0
  {
    PatchStat(Display.Calibrated(Stats.Min(px), gain, offset),
              Display.Calibrated(Stats.Max(px), gain, offset),
              Display.Calibrated(Stats.Mean(px), gain, offset),
              Display.Calibrated(Stats.Median(px), gain, offset))
  }

  /** With a non-negative gain, the minimum is at most the mean and the median,
      which are at most the maximum. */
  lemma SummaryOrdered(px: seq<real>, gain: real, offset: real)
    requires |px| > 0 && gain >= 0.0
    ensures var s := Summary(px, gain, offset);
      s.min <= s.mean <= s.max && s.min <= s.median <= s.max
  {
    Stats.MeanBetween(px);
    Stats.MedianBetween(px);
    CalibratedBetween(Stats.Min(px), Stats.Mean(px), Stats.Max(px), gain, offset);
    CalibratedBetween(Stats.Min(px), Stats.Median(px), Stats.Max(px), gain, offset);
  }

  lemma CalibratedBetween(lo: real, x: real, hi: real, gain: real, offset: real)
    requires lo <= x <= hi && gain >= 0.0
    ensures Display.Calibrated(lo, gain, offset) <= Display.Calibrated(x, gain, offset) <= Display.Calibrated(hi, gain, offset)
  {
    Display.MulMonotone(lo, x, gain);
    Display.MulMonotone(x, hi, gain);
  }

  /** The statistics of one decoded patch: crop it, then convert `np.min`,
      `np.max`, `np.mean` and `np.median` of its pixels; `np.min` of a crop with
      no pixels raises ValueError. */
  function StatOf(patch: Raster, margin: real, gain: real, offset: real): (r: Result<PatchStat>)
    ensures r.Raise? <==> |Pixels(TruncatePatch(patch, margin))| == 0
    ensures r.Raise? ==> r.error == ValueError
    ensures r.Ok? ==> r.value == Summary(Pixels(TruncatePatch(patch, margin)), gain, offset)
  {
    var px := Pixels(TruncatePatch(patch, margin));
    if |px| == 0 then Raise(ValueError) else Ok(Summary(px, gain, offset))
  }

  // ---------------------------------------------------------------------------
  // Sun reflections

  /** A patch file is kept when its stem is not a listed sun reflection. */
  function KeepPatch(sunReflections: seq<string>): string -> bool {
    file => Text.Stem(file) !in sunReflections
  }

  /** `remove_patches_with_sun_reflection`: the files, in input order, whose stem
      (basename without extension) is not listed. */
  method RemovePatchesWithSunReflection(files: seq<string>, sunReflections: seq<string>) returns (kept: seq<string>)
    ensures kept == PyList.Filter(files, KeepPatch(sunReflections))
  {
    kept := [];
    var i := 0;
    while i < |files|
      invariant 0 <= i <= |files|
      invariant kept == PyList.Filter(files[..i], KeepPatch(sunReflections))
    {
      PyList.FilterPrefixStep(files, i, KeepPatch(sunReflections));
      if KeepPatch(sunReflections)(files[i]) {
        kept := kept + [files[i]];
      }
      i := i + 1;
    }
    assert files[..i] == files;
  }

  /** A file survives the filter exactly when it is listed and its stem is not a
      sun reflection; filtering again removes nothing more. */
  lemma SunFilterSpec(files: seq<string>, sunReflections: seq<string>, f: string)
    ensures f in PyList.Filter(files, KeepPatch(sunReflections)) <==> f in files && Text.Stem(f) !in sunReflections
    ensures var kept := PyList.Filter(files, KeepPatch(sunReflections));
      PyList.Filter(kept, KeepPatch(sunReflections)) == kept
  {
    PyList.FilterMembership(files, KeepPatch(sunReflections), f);
    PyList.FilterIdempotent(files, KeepPatch(sunReflections));
  }

  // ---------------------------------------------------------------------------
  // get_patch_temps

  /** The four statistic lists of one module, one entry per decoded patch. */
  datatype PatchTemps = PatchTemps(min: seq<real>, max: seq<real>, mean: seq<real>, median: seq<real>)

  /** The four lists holding, at each position, the fields of one patch's
      statistics. */
  function Unzip(stats: seq<PatchStat>): (t: PatchTemps)
    ensures |t.min| == |t.max| == |t.mean| == |t.median| == |stats|
    ensures forall k :: 0 <= k < |stats| ==> PatchStat(t.min[k], t.max[k], t.mean[k], t.median[k]) == stats[k]
  {
    if |stats| == 0 then PatchTemps([], [], [], [])
    else
      var t := Unzip(stats[..|stats| - 1]);
      var s := stats[|stats| - 1];
      PatchTemps(t.min + [s.min], t.max + [s.max], t.mean + [s.mean], t.median + [s.median])
  }

  lemma UnzipSnoc(stats: seq<PatchStat>, s: PatchStat)
    ensures var t := Unzip(stats);
      Unzip(stats + [s]) == PatchTemps(t.min + [s.min], t.max + [s.max], t.mean + [s.mean], t.median + [s.median])
  {
    assert (stats + [s])[..|stats|] == stats;
  }

  /** Whether a file decodes: `cv2.imread` returns None for the others. */
  function Decodes(images: map<string, Raster>): string -> bool {
    file => file in images
  }

  /** The statistics of a decodable file. */
  function FileStat(images: map<string, Raster>, margin: real, gain: real, offset: real): string -> Result<PatchStat> {
    file => if file in images then StatOf(images[file], margin, gain, offset) else Raise(FileNotFoundError)
  }

  /** The statistic lists of `get_patch_temps`: the statistics of the decodable
      files, in file order, unzipped into four lists. */
  function PatchTempsSpec(files: seq<string>, images: map<string, Raster>, margin: real, gain: real, offset: real): Result<PatchTemps> {
    match MapResult(PyList.Filter(files, Decodes(images)), FileStat(images, margin, gain, offset))
    case Raise(e) => Raise(e)
    case Ok(stats) => Ok(Unzip(stats))
  }

  /** `get_patch_temps`: undecodable files are skipped; each decoded patch is
      cropped and its four statistics are appended to the four lists. */
  method GetPatchTemps(files: seq<string>, images: map<string, Raster>, margin: real, gain: real, offset: real)
    returns (r: Result<PatchTemps>)
    ensures r == PatchTempsSpec(files, images, margin, gain, offset)
  {
    var temps := PatchTemps([], [], [], []);
    ghost var stats: seq<PatchStat> := [];
    ghost var f := FileStat(images, margin, gain, offset);
    var i := 0;
    while i < |files|
      invariant 0 <= i <= |files|
      invariant Traversed(files, images, f, i, stats)
      invariant temps == Unzip(stats)
    {
      var file := files[i];
      if file in images {
        var patch := images[file];
        var s := StatOf(patch, margin, gain, offset);
        assert f(file) == s;
        TraverseStep(files, images, f, i, stats);
        if s.Raise? {
          RaiseStops(files, images, f, i + 1);
          return Raise(s.error);
        }
        UnzipSnoc(stats, s.value);
        temps := PatchTemps(temps.min + [s.value.min], temps.max + [s.value.max],
                            temps.mean + [s.value.mean], temps.median + [s.value.median]);
        stats := stats + [s.value];
      } else {
        TraverseStep(files, images, f, i, stats);
      }
      i := i + 1;
    }
    assert files[..i] == files;
    return Ok(temps);
  }

  /** The traversal of the decodable files among the first `i` files succeeds
      with `stats`. */
  predicate Traversed(files: seq<string>, images: map<string, Raster>, f: string -> Result<PatchStat>, i: nat, stats: seq<PatchStat>)
    requires i <= |files|
  {
    MapResult(PyList.Filter(files[..i], Decodes(images)), f) == Ok(stats)
  }

  /** The traversal of the decodable files among the first `i + 1` files:
      one more step when file `i` decodes, the same traversal otherwise. */
  lemma TraverseStep(files: seq<string>, images: map<string, Raster>, f: string -> Result<PatchStat>, i: nat, stats: seq<PatchStat>)
    requires i < |files| && Traversed(files, images, f, i, stats)
    ensures files[i] !in images ==> Traversed(files, images, f, i + 1, stats)
    ensures files[i] in images && f(files[i]).Ok? ==> Traversed(files, images, f, i + 1, stats + [f(files[i]).value])
    ensures files[i] in images && f(files[i]).Raise? ==>
      MapResult(PyList.Filter(files[..i + 1], Decodes(images)), f) == Raise(f(files[i]).error)
  {
    var done := PyList.Filter(files[..i], Decodes(images));
    PyList.FilterPrefixStep(files, i, Decodes(images));
    if files[i] in images {
      MapResultSnoc(done, files[i], f);
    } else {
      assert done + [] == done;
    }
  }

  /** Once the traversal of a prefix of the decodable files raises, so does the
      traversal of all of them, with the same error. */
  lemma RaiseStops(files: seq<string>, images: map<string, Raster>, f: string -> Result<PatchStat>, k: nat)
    requires k <= |files| && MapResult(PyList.Filter(files[..k], Decodes(images)), f).Raise?
    ensures MapResult(PyList.Filter(files, Decodes(images)), f) == MapResult(PyList.Filter(files[..k], Decodes(images)), f)
  {
    assert files[..k] + files[k..] == files;
    PyList.FilterAppend(files[..k], files[k..], Decodes(images));
    MapResultAppend(PyList.Filter(files[..k], Decodes(images)), PyList.Filter(files[k..], Decodes(images)), f);
  }

  /** The decodable files, in file order, are exactly the listed files that decode. */
  lemma DecodedFiles(files: seq<string>, images: map<string, Raster>)
    ensures forall k :: 0 <= k < |PyList.Filter(files, Decodes(images))| ==> PyList.Filter(files, Decodes(images))[k] in images
    ensures forall f :: f in PyList.Filter(files, Decodes(images)) <==> f in files && f in images
  {
    forall f ensures f in PyList.Filter(files, Decodes(images)) <==> f in files && f in images {
      PyList.FilterMembership(files, Decodes(images), f);
    }
  }

  /** The four lists have one entry per decodable file, in file order: entry `k`
      holds the statistics of the `k`-th decodable file. The call raises exactly
      when some decodable file crops to no pixels, and then with ValueError. */
  lemma PatchTempsShape(files: seq<string>, images: map<string, Raster>, margin: real, gain: real, offset: real)
    ensures var decoded := PyList.Filter(files, Decodes(images));
      (forall k :: 0 <= k < |decoded| ==> decoded[k] in images) &&
      (PatchTempsSpec(files, images, margin, gain, offset).Ok? <==>
        forall k :: 0 <= k < |decoded| ==> StatOf(images[decoded[k]], margin, gain, offset).Ok?)
    ensures PatchTempsSpec(files, images, margin, gain, offset).Raise? ==>
      PatchTempsSpec(files, images, margin, gain, offset).error == ValueError
    ensures var decoded := PyList.Filter(files, Decodes(images));
      var r := PatchTempsSpec(files, images, margin, gain, offset);
      r.Ok? ==>
        |r.value.min| == |decoded| &&
        forall k :: 0 <= k < |decoded| ==>
          StatOf(images[decoded[k]], margin, gain, offset) ==
            Ok(PatchStat(r.value.min[k], r.value.max[k], r.value.mean[k], r.value.median[k]))
  {
    var decoded := PyList.Filter(files, Decodes(images));
    var f := FileStat(images, margin, gain, offset);
    DecodedFiles(files, images);
    assert forall k :: 0 <= k < |decoded| ==> f(decoded[k]) == StatOf(images[decoded[k]], margin, gain, offset);
    MapResultOk(decoded, f);
    if MapResult(decoded, f).Ok? {
      var stats := MapResult(decoded, f).value;
      assert PatchTempsSpec(files, images, margin, gain, offset) == Ok(Unzip(stats));
    } else {
      var i := MapResultErrorOfStep(decoded, f);
    }
  }

  /** With a non-negative gain, every patch's minimum is at most its mean and its
      median, which are at most its maximum. */
  lemma PatchTempsOrdered(files: seq<string>, images: map<string, Raster>, margin: real, gain: real, offset: real)
    requires gain >= 0.0 && PatchTempsSpec(files, images, margin, gain, offset).Ok?
    ensures var t := PatchTempsSpec(files, images, margin, gain, offset).value;
      |t.min| == |t.max| == |t.mean| == |t.median| &&
      forall k :: 0 <= k < |t.min| ==>
        t.min[k] <= t.mean[k] <= t.max[k] && t.min[k] <= t.median[k] <= t.max[k]
  {
    PatchTempsShape(files, images, margin, gain, offset);
    var decoded := PyList.Filter(files, Decodes(images));
    forall k | 0 <= k < |decoded|
      ensures var s := StatOf(images[decoded[k]], margin, gain, offset).value;
        s.min <= s.mean <= s.max && s.min <= s.median <= s.max
    {
      SummaryOrdered(Pixels(TruncatePatch(images[decoded[k]], margin)), gain, offset);
    }
  }
}
