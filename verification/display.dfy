/** Conversions from raw radiometric values: the fixed linear conversion to
    degrees Celsius, its calibrated variant with a gain and an offset, and the
    clamp-and-scale that turns an image into 8-bit grey levels for display.
    Images are flattened in row-major order. */
module Display {
  import opened Wrappers
  import Stats

  /** `to_celsius` of src/common.py: raw value times 0.04 minus 273.15. */
  function ToCelsius(raw: real): real {
    raw * 0.04 - 273.15
  }

  /** `to_celsius(image, gain, offset)` of the dataset settings: raw times gain plus offset. */
  function Calibrated(raw: real, gain: real, offset: real): real {
    raw * gain + offset
  }

  /** The fixed conversion is the calibrated one with gain 0.04 and offset -273.15. */
  lemma FixedIsCalibrated(raw: real)
    ensures ToCelsius(raw) == Calibrated(raw, 0.04, -273.15)
  {
  }

  /** The elementwise conversion of an image, as numpy applies it. */
  function CalibratedAll(raws: seq<real>, gain: real, offset: real): (r: seq<real>)
    ensures |r| == |raws|
    ensures forall i :: 0 <= i < |raws| ==> r[i] == Calibrated(raws[i], gain, offset)
  {
    seq(|raws|, i requires 0 <= i < |raws| => Calibrated(raws[i], gain, offset))
  }

  /** With a non-negative gain, converting the minimum gives the minimum of the
      converted values. */
  lemma CalibratedMin(raws: seq<real>, gain: real, offset: real)
    requires |raws| > 0 && gain >= 0.0
    ensures Calibrated(Stats.Min(raws), gain, offset) == Stats.Min(CalibratedAll(raws, gain, offset))
  {
    var lo := Stats.Min(raws);
    var a :| 0 <= a < |raws| && raws[a] == lo;
    CalibratedExtreme(raws, gain, offset, a);
    MinUnique(CalibratedAll(raws, gain, offset), Calibrated(lo, gain, offset));
  }

  /** With a non-negative gain, converting the maximum gives the maximum of the
      converted values. */
  lemma CalibratedMax(raws: seq<real>, gain: real, offset: real)
    requires |raws| > 0 && gain >= 0.0
    ensures Calibrated(Stats.Max(raws), gain, offset) == Stats.Max(CalibratedAll(raws, gain, offset))
  {
    var hi := Stats.Max(raws);
    var b :| 0 <= b < |raws| && raws[b] == hi;
    CalibratedExtreme(raws, gain, offset, b);
    MaxUnique(CalibratedAll(raws, gain, offset), Calibrated(hi, gain, offset));
  }

  /** A non-negative gain keeps the converted value of element `k` below (above)
      every converted value when element `k` is below (above) every value. */
  lemma CalibratedExtreme(raws: seq<real>, gain: real, offset: real, k: nat)
    requires k < |raws| && gain >= 0.0
    ensures CalibratedAll(raws, gain, offset)[k] in CalibratedAll(raws, gain, offset)
    ensures (forall i :: 0 <= i < |raws| ==> raws[k] <= raws[i]) ==>
      forall i :: 0 <= i < |raws| ==> Calibrated(raws[k], gain, offset) <= CalibratedAll(raws, gain, offset)[i]
    ensures (forall i :: 0 <= i < |raws| ==> raws[i] <= raws[k]) ==>
      forall i :: 0 <= i < |raws| ==> CalibratedAll(raws, gain, offset)[i] <= Calibrated(raws[k], gain, offset)
  {
    forall i | 0 <= i < |raws| && raws[k] <= raws[i] ensures Calibrated(raws[k], gain, offset) <= Calibrated(raws[i], gain, offset) {
      MulMonotone(raws[k], raws[i], gain);
    }
    forall i | 0 <= i < |raws| && raws[i] <= raws[k] ensures Calibrated(raws[i], gain, offset) <= Calibrated(raws[k], gain, offset) {
      MulMonotone(raws[i], raws[k], gain);
    }
  }

  /** Converting the mean gives the mean of the converted values. */
  lemma CalibratedMean(raws: seq<real>, gain: real, offset: real)
    requires |raws| > 0
    ensures Calibrated(Stats.Mean(raws), gain, offset) == Stats.Mean(CalibratedAll(raws, gain, offset))
  {
    var cs := CalibratedAll(raws, gain, offset);
    SumCalibrated(raws, gain, offset);
    var n := |raws| as real;
    assert Stats.Mean(cs) == Stats.Sum(cs) / n;
    assert Stats.Mean(raws) == Stats.Sum(raws) / n;
    DivDistributes(Stats.Sum(raws), gain, offset, n);
  }

  lemma MulMonotone(a: real, b: real, gain: real)
    requires a <= b && gain >= 0.0
    ensures a * gain <= b * gain
  {
  }

  lemma DivDistributes(s: real, gain: real, offset: real, n: real)
    requires n > 0.0
    ensures (s * gain + n * offset) / n == (s / n) * gain + offset
  {
  }

  /** A value of the list that bounds it from below is its minimum. */
  lemma MinUnique(xs: seq<real>, m: real)
    requires |xs| > 0 && m in xs
    requires forall i :: 0 <= i < |xs| ==> m <= xs[i]
    ensures Stats.Min(xs) == m
  {
    var k :| 0 <= k < |xs| && xs[k] == m;
    assert Stats.Min(xs) <= xs[k];
  }

  /** A value of the list that bounds it from above is its maximum. */
  lemma MaxUnique(xs: seq<real>, m: real)
    requires |xs| > 0 && m in xs
    requires forall i :: 0 <= i < |xs| ==> xs[i] <= m
    ensures Stats.Max(xs) == m
  {
    var k :| 0 <= k < |xs| && xs[k] == m;
    assert xs[k] <= Stats.Max(xs);
  }

  lemma {:induction false} SumCalibrated(raws: seq<real>, gain: real, offset: real)
    ensures Stats.Sum(CalibratedAll(raws, gain, offset)) == Stats.Sum(raws) * gain + (|raws| as real) * offset
  {
    if |raws| > 0 {
      SumCalibrated(raws[1..], gain, offset);
      assert CalibratedAll(raws, gain, offset)[1..] == CalibratedAll(raws[1..], gain, offset);
    }
  }

  // ---------------------------------------------------------------------------
  // normalize

  /** The value the two in-place masks of `normalize` leave: raised to `vmin`,
      then lowered to `vmax`. */
  function Clamp(x: real, vmin: real, vmax: real): real {
    var y := if x < vmin then vmin else x;
    if y > vmax then vmax else y
  }

  /** The grey level of a clamped value: `(255 * (x - vmin) / (vmax - vmin))` cast
      to an 8-bit integer, which truncates towards zero. */
  function Level(x: real, vmin: real, vmax: real): int
    requires vmin != vmax
  {
    (255.0 * ((x - vmin) / (vmax - vmin))).Floor
  }

  /** The image after `normalize` returns: every value clamped. */
  function Clamped(image: seq<real>, vmin: real, vmax: real): (r: seq<real>)
    ensures |r| == |image|
  {
    seq(|image|, i requires 0 <= i < |image| => Clamp(image[i], vmin, vmax))
  }

  /** The grey levels of a clamped image. */
  function Levels(image: seq<real>, vmin: real, vmax: real): (r: seq<int>)
    requires vmin != vmax
    ensures |r| == |image|
  {
    seq(|image|, i requires 0 <= i < |image| => Level(image[i], vmin, vmax))
  }

  /** `normalize`: clamps the caller's image in place, first from below and then
      from above, and returns the grey levels; with `vmin == vmax` the scaling
      divides zero by zero and no levels are defined (None). */
  method Normalize(image: array<real>, vmin: real, vmax: real) returns (r: Option<seq<int>>)
    modifies image
    ensures image[..] == Clamped(old(image[..]), vmin, vmax)
    ensures vmin == vmax <==> r.None?
    ensures vmin != vmax ==> r == Some(Levels(image[..], vmin, vmax))
  {
    var i := 0;
    while i < image.Length
      invariant 0 <= i <= image.Length
      invariant forall j :: 0 <= j < i ==> image[j] == (if old(image[j]) < vmin then vmin else old(image[j]))
      invariant forall j :: i <= j < image.Length ==> image[j] == old(image[j])
    {
      if image[i] < vmin {
        image[i] := vmin;
      }
      i := i + 1;
    }
    i := 0;
    while i < image.Length
      invariant 0 <= i <= image.Length
      invariant forall j :: 0 <= j < i ==> image[j] == Clamp(old(image[j]), vmin, vmax)
      invariant forall j :: i <= j < image.Length ==> image[j] == (if old(image[j]) < vmin then vmin else old(image[j]))
    {
      if image[i] > vmax {
        image[i] := vmax;
      }
      i := i + 1;
    }
    if vmin == vmax {
      return None;
    }
    var levels: seq<int> := [];
    i := 0;
    while i < image.Length
      invariant 0 <= i <= image.Length && |levels| == i
      invariant forall j :: 0 <= j < i ==> levels[j] == Level(image[j], vmin, vmax)
    {
      levels := levels + [Level(image[i], vmin, vmax)];
      i := i + 1;
    }
    assert levels == Levels(image[..], vmin, vmax);
    return Some(levels);
  }

  /** With `vmin <= vmax` no clamped value lies outside `[vmin, vmax]`, and values
      already inside are left unchanged. */
  lemma ClampSpec(x: real, vmin: real, vmax: real)
    requires vmin <= vmax
    ensures vmin <= Clamp(x, vmin, vmax) <= vmax
    ensures vmin <= x <= vmax ==> Clamp(x, vmin, vmax) == x
    ensures x < vmin ==> Clamp(x, vmin, vmax) == vmin
    ensures x > vmax ==> Clamp(x, vmin, vmax) == vmax
  {
  }

  /** With `vmin > vmax` both masks fire in turn and every value becomes `vmax`. */
  lemma ClampInverted(x: real, vmin: real, vmax: real)
    requires vmin > vmax
    ensures Clamp(x, vmin, vmax) == vmax
    ensures Level(Clamp(x, vmin, vmax), vmin, vmax) == 255
  {
    assert (vmax - vmin) / (vmax - vmin) == 1.0;
  }

  /** For `vmin < vmax` every grey level of a clamped value lies in 0..255, `vmin`
      maps to 0 and `vmax` to 255, and the mapping never decreases. */
  lemma LevelSpec(x: real, y: real, vmin: real, vmax: real)
    requires vmin < vmax
    ensures 0 <= Level(Clamp(x, vmin, vmax), vmin, vmax) <= 255
    ensures Level(vmin, vmin, vmax) == 0 && Level(vmax, vmin, vmax) == 255
    ensures x <= y ==> Level(Clamp(x, vmin, vmax), vmin, vmax) <= Level(Clamp(y, vmin, vmax), vmin, vmax)
  {
    var d := vmax - vmin;
    assert (vmax - vmin) / d == 1.0;
    var cx := Clamp(x, vmin, vmax);
    var cy := Clamp(y, vmin, vmax);
    FractionBounds(cx - vmin, d);
    if x <= y {
      FractionMonotone(cx - vmin, cy - vmin, d);
    }
  }

  lemma FractionBounds(a: real, d: real)
    requires d > 0.0 && 0.0 <= a <= d
    ensures 0.0 <= 255.0 * (a / d) <= 255.0
  {
    assert a / d <= 1.0;
  }

  lemma FractionMonotone(a: real, b: real, d: real)
    requires d > 0.0 && a <= b
    ensures 255.0 * (a / d) <= 255.0 * (b / d)
  {
    assert a / d <= b / d;
  }
}
