/** The neighbour correction of the module-temperature analysis: for every module
    center, the median of a temperature column over the other centers within a
    radius. The KD-tree radius query is specified by brute force: a center is
    returned when its squared distance is at most the squared radius. */
module Neighbourhood {
  import opened Wrappers
  import PyList
  import Stats
  import Display

  /** A module center in the projected (metric) coordinates. */
  datatype Point = Point(x: real, y: real)

  function SquaredDistance(p: Point, q: Point): real {
    (p.x - q.x) * (p.x - q.x) + (p.y - q.y) * (p.y - q.y)
  }

  /** `query_radius` returns the points at distance at most `r`; no point is at a
      negative distance. */
  predicate Within(p: Point, q: Point, r: real) {
    r >= 0.0 && SquaredDistance(p, q) <= r * r
  }

  /** `tree.query_radius(centers, r)[i]`: the indices of all centers within `r` of
      center `i`, including `i` itself, listed here in increasing order. */
  function QueryRadius(centers: seq<Point>, i: nat, r: real): (idx: seq<nat>)
    requires i < |centers|
    ensures forall k :: 0 <= k < |idx| ==> idx[k] < |centers|
  {
    PyList.KeptIndices(centers, q => Within(centers[i], q, r))
  }

  /** The index list after `np.delete` of the entries equal to `i`. */
  function Neighbours(centers: seq<Point>, i: nat, r: real): (idx: seq<nat>)
    requires i < |centers|
    ensures forall k :: 0 <= k < |idx| ==> idx[k] < |centers|
  {
    var q := QueryRadius(centers, i, r);
    var idx := PyList.Filter<nat>(q, (j: nat) => j != i);
    forall k | 0 <= k < |idx| ensures idx[k] < |centers| {
      PyList.FilterMembership<nat>(q, (j: nat) => j != i, idx[k]);
    }
    idx
  }

  /** The radius query returns exactly the centers within the radius, so center
      `i` itself whenever the radius is non-negative. */
  lemma QueryRadiusSpec(centers: seq<Point>, i: nat, r: real, j: nat)
    requires i < |centers|
    ensures j in QueryRadius(centers, i, r) <==> j < |centers| && Within(centers[i], centers[j], r)
    ensures i in QueryRadius(centers, i, r) <==> r >= 0.0
  {
    PyList.FilterSpec(centers, q => Within(centers[i], q, r));
    assert SquaredDistance(centers[i], centers[i]) == 0.0;
    if r >= 0.0 {
      assert 0.0 <= r * r;
    }
  }

  /** A center is a neighbour of center `i` exactly when it is another center
      within the radius; `i` itself, which the radius query returns, is removed. */
  lemma NeighboursSpec(centers: seq<Point>, i: nat, r: real, j: nat)
    requires i < |centers|
    ensures j in Neighbours(centers, i, r) <==> j < |centers| && j != i && Within(centers[i], centers[j], r)
    ensures i !in Neighbours(centers, i, r)
  {
    QueryRadiusSpec(centers, i, r, j);
    var q := QueryRadius(centers, i, r);
    PyList.FilterMembership<nat>(q, (k: nat) => k != i, j);
    PyList.FilterMembership<nat>(q, (k: nat) => k != i, i);
  }

  /** Neighbourhood is symmetric: `j` is a neighbour of `i` exactly when `i` is a
      neighbour of `j`. */
  lemma NeighboursSymmetric(centers: seq<Point>, i: nat, j: nat, r: real)
    requires i < |centers| && j < |centers|
    ensures j in Neighbours(centers, i, r) <==> i in Neighbours(centers, j, r)
  {
    NeighboursSpec(centers, i, r, j);
    NeighboursSpec(centers, j, r, i);
    assert SquaredDistance(centers[i], centers[j]) == SquaredDistance(centers[j], centers[i]);
  }

  /** A larger radius keeps every neighbour. */
  lemma NeighboursMonotone(centers: seq<Point>, i: nat, j: nat, r1: real, r2: real)
    requires i < |centers| && 0.0 <= r1 <= r2
    ensures j in Neighbours(centers, i, r1) ==> j in Neighbours(centers, i, r2)
  {
    NeighboursSpec(centers, i, r1, j);
    NeighboursSpec(centers, i, r2, j);
    SquareMonotone(r1, r2);
  }

  lemma SquareMonotone(a: real, b: real)
    requires 0.0 <= a <= b
    ensures a * a <= b * b
  {
    Display.MulMonotone(a, b, a);
    Display.MulMonotone(a, b, b);
  }

  // ---------------------------------------------------------------------------
  // Median of a column over the neighbours

  /** Every listed row is a row of the column. */
  predicate ValidRows(column: seq<Option<real>>, idx: seq<nat>) {
    forall k :: 0 <= k < |idx| ==> idx[k] < |column|
  }

  /** The values of `column` at the given rows, skipping missing (NaN) cells as
      pandas does. */
  function Present(column: seq<Option<real>>, idx: seq<nat>): (xs: seq<real>)
    requires ValidRows(column, idx)
    ensures |xs| <= |idx|
  {
    if |idx| == 0 then []
    else
      var last := column[idx[|idx| - 1]];
      Present(column, idx[..|idx| - 1]) + (if last.Some? then [last.value] else [])
  }

  /** `df_centers.iloc[neighbours][column].median()`: None stands for NaN, which
      pandas returns when no neighbour has a value. */
  function NeighbourMedian(centers: seq<Point>, column: seq<Option<real>>, i: nat, r: real): Option<real>
    requires i < |centers| && |column| == |centers|
  {
    Stats.MedianOpt(Present(column, Neighbours(centers, i, r)))
  }

  /** One neighbour median per center, in row order. */
  function NeighbourMedians(centers: seq<Point>, column: seq<Option<real>>, r: real): (ms: seq<Option<real>>)
    requires |column| == |centers|
    ensures |ms| == |centers|
    ensures forall i :: 0 <= i < |centers| ==> ms[i] == NeighbourMedian(centers, column, i, r)
  {
    seq(|centers|, i requires 0 <= i < |centers| => NeighbourMedian(centers, column, i, r))
  }

  /** A value is present exactly when one of the listed rows holds it. */
  lemma {:induction false} PresentSpec(column: seq<Option<real>>, idx: seq<nat>, x: real)
    requires ValidRows(column, idx)
    ensures x in Present(column, idx) <==> exists k :: 0 <= k < |idx| && column[idx[k]] == Some(x)
  {
    if |idx| > 0 {
      var init := idx[..|idx| - 1];
      PresentSpec(column, init, x);
      if exists k :: 0 <= k < |idx| && column[idx[k]] == Some(x) {
        var k :| 0 <= k < |idx| && column[idx[k]] == Some(x);
        if k < |init| {
          assert init[k] == idx[k];
        }
      }
      if exists k :: 0 <= k < |init| && column[init[k]] == Some(x) {
        var k :| 0 <= k < |init| && column[init[k]] == Some(x);
        assert idx[k] == init[k];
      }
    }
  }

  lemma {:induction false} PresentAppend(column: seq<Option<real>>, a: seq<nat>, b: seq<nat>)
    requires ValidRows(column, a)
    requires ValidRows(column, b)
    ensures ValidRows(column, a + b)
    ensures Present(column, a + b) == Present(column, a) + Present(column, b)
    decreases |b|
  {
    if |b| == 0 {
      assert a + b == a;
    } else {
      var ab := a + b;
      assert ab[..|ab| - 1] == a + b[..|b| - 1];
      PresentAppend(column, a, b[..|b| - 1]);
    }
  }

  /** The values present at a list of rows depend only on which rows are listed,
      not on their order. */
  lemma {:induction false} PresentPerm(column: seq<Option<real>>, a: seq<nat>, b: seq<nat>)
    requires ValidRows(column, a)
    requires ValidRows(column, b)
    requires multiset(a) == multiset(b)
    ensures multiset(Present(column, a)) == multiset(Present(column, b))
    decreases |a|
  {
    if |a| > 0 {
      var x := a[|a| - 1];
      var init := a[..|a| - 1];
      assert a == init + [x];
      assert x in multiset(b);
      var k :| 0 <= k < |b| && b[k] == x;
      var rest := b[..k] + b[k + 1..];
      PyList.MultisetRemove(b, k);
      assert multiset(a) == multiset{x} + multiset(init);
      PyList.MultisetCancel(x, multiset(init), multiset(rest));
      PresentRemove(column, b, k);
      PresentPerm(column, init, rest);
      PresentAppend(column, init, [x]);
    }
  }

  /** Taking one row out of a list takes its value, if any, out of the present
      values. */
  lemma PresentRemove(column: seq<Option<real>>, b: seq<nat>, k: nat)
    requires ValidRows(column, b)
    requires k < |b|
    ensures ValidRows(column, b[..k] + b[k + 1..])
    ensures multiset(Present(column, b)) ==
      multiset(Present(column, b[..k] + b[k + 1..])) + multiset(Present(column, [b[k]]))
  {
    var x := b[k];
    assert b == (b[..k] + [x]) + b[k + 1..];
    PresentAppend(column, b[..k], b[k + 1..]);
    PresentAppend(column, b[..k], [x]);
    PresentAppend(column, b[..k] + [x], b[k + 1..]);
  }

  /** The median over the neighbours does not depend on the order in which the
      radius query lists them, so any listing of the same rows gives the same
      value. */
  lemma NeighbourOrderIrrelevant(centers: seq<Point>, column: seq<Option<real>>, i: nat, r: real, idx: seq<nat>)
    requires i < |centers| && |column| == |centers|
    requires multiset(idx) == multiset(Neighbours(centers, i, r))
    ensures ValidRows(column, idx)
    ensures Stats.MedianOpt(Present(column, idx)) == NeighbourMedian(centers, column, i, r)
  {
    var n := Neighbours(centers, i, r);
    forall k | 0 <= k < |idx| ensures idx[k] < |column| {
      assert idx[k] in multiset(n);
    }
    PresentPerm(column, idx, n);
    var a, b := Present(column, idx), Present(column, n);
    if |a| > 0 {
      Stats.MedianPerm(a, b);
    }
  }

  /** The neighbour median is missing exactly when no neighbour has a value. */
  lemma NeighbourMedianMissing(centers: seq<Point>, column: seq<Option<real>>, i: nat, r: real)
    requires i < |centers| && |column| == |centers|
    ensures NeighbourMedian(centers, column, i, r).None? <==>
      forall j :: 0 <= j < |centers| && j != i && Within(centers[i], centers[j], r) ==> column[j].None?
  {
    var n := Neighbours(centers, i, r);
    var xs := Present(column, n);
    if |xs| > 0 {
      PresentSpec(column, n, xs[0]);
      var k :| 0 <= k < |n| && column[n[k]] == Some(xs[0]);
      NeighboursSpec(centers, i, r, n[k]);
    } else {
      forall j | 0 <= j < |centers| && j != i && Within(centers[i], centers[j], r) ensures column[j].None? {
        NeighboursSpec(centers, i, r, j);
        if column[j].Some? {
          var k :| 0 <= k < |n| && n[k] == j;
          PresentSpec(column, n, column[j].value);
        }
      }
    }
  }

  /** When every neighbour's value lies in `[lo, hi]`, so does their median. */
  lemma NeighbourMedianWithin(centers: seq<Point>, column: seq<Option<real>>, i: nat, r: real, lo: real, hi: real)
    requires i < |centers| && |column| == |centers|
    requires forall j :: 0 <= j < |centers| && j != i && Within(centers[i], centers[j], r) && column[j].Some? ==>
      lo <= column[j].value <= hi
    ensures NeighbourMedian(centers, column, i, r).Some? ==> lo <= NeighbourMedian(centers, column, i, r).value <= hi
  {
    var n := Neighbours(centers, i, r);
    var xs := Present(column, n);
    if |xs| > 0 {
      forall t | 0 <= t < |xs| ensures lo <= xs[t] <= hi {
        PresentSpec(column, n, xs[t]);
        var k :| 0 <= k < |n| && column[n[k]] == Some(xs[t]);
        NeighboursSpec(centers, i, r, n[k]);
      }
      Stats.MedianBetween(xs);
    }
  }
}
