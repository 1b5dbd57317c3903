/** The numpy/pandas reductions used by the temperature analysis, on reals:
    sum, mean, minimum, maximum and median (the average of the two middle values
    for an even count). An empty selection has no mean or median (numpy and
    pandas give NaN), which the `Opt` variants return as None. */
module Stats {
  import opened Wrappers
  import PyList

  function Sum(xs: seq<real>): real {
    if |xs| == 0 then 0.0 else xs[0] + Sum(xs[1..])
  }

  /** `np.mean` of a non-empty list. */
  function Mean(xs: seq<real>): real
    requires |xs| > 0
  {
    Sum(xs) / (|xs| as real)
  }

  /** `np.min` of a non-empty list. */
  function Min(xs: seq<real>): (r: real)
    requires |xs| > 0
    ensures r in xs
    ensures forall i :: 0 <= i < |xs| ==> r <= xs[i]
  {
    if |xs| == 1 then xs[0]
    else
      var m := Min(xs[1..]);
      assert forall i :: 1 <= i < |xs| ==> xs[i] == xs[1..][i - 1];
      if xs[0] <= m then xs[0] else m
  }

  /** `np.max` of a non-empty list. */
  function Max(xs: seq<real>): (r: real)
    requires |xs| > 0
    ensures r in xs
    ensures forall i :: 0 <= i < |xs| ==> xs[i] <= r
  {
    if |xs| == 1 then xs[0]
    else
      var m := Max(xs[1..]);
      assert forall i :: 1 <= i < |xs| ==> xs[i] == xs[1..][i - 1];
      if xs[0] >= m then xs[0] else m
  }

  predicate SortedReals(s: seq<real>) {
    forall i, j :: 0 <= i < j < |s| ==> s[i] <= s[j]
  }

  function InsertReal(x: real, s: seq<real>): (r: seq<real>)
    ensures |r| == |s| + 1
  {
    if |s| == 0 || x <= s[0] then [x] + s else [s[0]] + InsertReal(x, s[1..])
  }

  /** The ascending order that `np.median` works on. */
  function SortReals(s: seq<real>): (r: seq<real>)
    ensures |r| == |s|
  {
    if |s| == 0 then [] else InsertReal(s[0], SortReals(s[1..]))
  }

  /** Inserting into an ascending list keeps it ascending and adds exactly `x`. */
  lemma InsertRealSpec(x: real, s: seq<real>)
    requires SortedReals(s)
    ensures SortedReals(InsertReal(x, s))
    ensures multiset(InsertReal(x, s)) == multiset(s) + multiset{x}
  {
    InsertRealSorted(x, s);
    InsertRealMultiset(x, s);
  }

  lemma {:induction false} InsertRealMultiset(x: real, s: seq<real>)
    ensures multiset(InsertReal(x, s)) == multiset(s) + multiset{x}
  {
    if |s| > 0 && x > s[0] {
      InsertRealMultiset(x, s[1..]);
      assert s == [s[0]] + s[1..];
      assert InsertReal(x, s) == [s[0]] + InsertReal(x, s[1..]);
    }
  }

  lemma {:induction false} InsertRealMembers(x: real, s: seq<real>)
    ensures forall y :: y in InsertReal(x, s) ==> y == x || y in s
  {
    if |s| > 0 && x > s[0] {
      InsertRealMembers(x, s[1..]);
      assert InsertReal(x, s) == [s[0]] + InsertReal(x, s[1..]);
    }
  }

  lemma {:induction false} InsertRealSorted(x: real, s: seq<real>)
    requires SortedReals(s)
    ensures SortedReals(InsertReal(x, s))
  {
    if |s| == 0 || x <= s[0] {
      SortedRealsCons(x, s);
    } else {
      var tail := s[1..];
      assert SortedReals(tail) by {
        forall i, j | 0 <= i < j < |tail| ensures tail[i] <= tail[j] {
          assert tail[i] == s[i + 1] && tail[j] == s[j + 1];
        }
      }
      InsertRealSorted(x, tail);
      InsertRealMembers(x, tail);
      var t := InsertReal(x, tail);
      forall j | 0 <= j < |t| ensures s[0] <= t[j] {
        assert t[j] in t;
        if t[j] != x {
          var k :| 0 <= k < |tail| && tail[k] == t[j];
          assert tail[k] == s[k + 1];
        }
      }
      SortedRealsCons(s[0], t);
    }
  }

  /** A head no greater than the first element of an ascending list. */
  lemma SortedRealsCons(h: real, t: seq<real>)
    requires SortedReals(t) && forall j :: 0 <= j < |t| ==> h <= t[j]
    ensures SortedReals([h] + t)
  {
    var c := [h] + t;
    forall i, j | 0 <= i < j < |c| ensures c[i] <= c[j] {
      assert c[j] == t[j - 1];
      if i > 0 {
        assert c[i] == t[i - 1];
      }
    }
  }

  lemma {:induction false} SortRealsSpec(s: seq<real>)
    ensures SortedReals(SortReals(s))
    ensures multiset(SortReals(s)) == multiset(s)
  {
    if |s| > 0 {
      SortRealsSpec(s[1..]);
      InsertRealSpec(s[0], SortReals(s[1..]));
      assert s == [s[0]] + s[1..];
    }
    assert |multiset(SortReals(s))| == |multiset(s)|;
  }

  /** `np.median` / pandas `median` of a non-empty list. */
  function Median(xs: seq<real>): real
    requires |xs| > 0
  {
    var s := SortReals(xs);
    var n := |s|;
    if n % 2 == 1 then s[n / 2] else (s[n / 2 - 1] + s[n / 2]) / 2.0
  }

  /** Mean of a possibly empty selection: None stands for NaN. */
  function MeanOpt(xs: seq<real>): (r: Option<real>)
    ensures r.None? <==> |xs| == 0
  {
    if |xs| == 0 then None else Some(Mean(xs))
  }

  /** Median of a possibly empty selection: None stands for NaN. */
  function MedianOpt(xs: seq<real>): (r: Option<real>)
    ensures r.None? <==> |xs| == 0
  {
    if |xs| == 0 then None else Some(Median(xs))
  }

  lemma {:induction false} SumBounds(xs: seq<real>, lo: real, hi: real)
    requires forall i :: 0 <= i < |xs| ==> lo <= xs[i] <= hi
    ensures (|xs| as real) * lo <= Sum(xs) <= (|xs| as real) * hi
  {
    if |xs| > 0 {
      assert forall i :: 1 <= i < |xs| ==> xs[1..][i - 1] == xs[i];
      SumBounds(xs[1..], lo, hi);
      var m := (|xs| - 1) as real;
      assert (|xs| as real) * lo == lo + m * lo;
      assert (|xs| as real) * hi == hi + m * hi;
    }
  }

  /** The mean lies between the minimum and the maximum. */
  lemma MeanBetween(xs: seq<real>)
    requires |xs| > 0
    ensures Min(xs) <= Mean(xs) <= Max(xs)
  {
    MeanWithin(xs, Min(xs), Max(xs));
  }

  /** The mean lies within any bounds that hold for every value. */
  lemma MeanWithin(xs: seq<real>, lo: real, hi: real)
    requires |xs| > 0
    requires forall i :: 0 <= i < |xs| ==> lo <= xs[i] <= hi
    ensures lo <= Mean(xs) <= hi
  {
    SumBounds(xs, lo, hi);
    DivBetween(Sum(xs), |xs| as real, lo, hi);
  }

  lemma DivBetween(s: real, n: real, lo: real, hi: real)
    requires n > 0.0 && n * lo <= s <= n * hi
    ensures lo <= s / n <= hi
  {
  }

  /** Every element of the sorted list lies between the minimum and the maximum. */
  lemma SortedBetween(xs: seq<real>)
    requires |xs| > 0
    ensures |SortReals(xs)| == |xs|
    ensures forall k :: 0 <= k < |xs| ==> Min(xs) <= SortReals(xs)[k] <= Max(xs)
  {
    var s := SortReals(xs);
    SortRealsSpec(xs);
    forall k | 0 <= k < |s| ensures Min(xs) <= s[k] <= Max(xs) {
      assert s[k] in multiset(xs);
    }
  }

  /** The median lies between the minimum and the maximum. */
  lemma MedianBetween(xs: seq<real>)
    requires |xs| > 0
    ensures Min(xs) <= Median(xs) <= Max(xs)
  {
    SortedBetween(xs);
  }

  /** A single value is its own mean and median. */
  lemma Singleton(x: real)
    ensures Mean([x]) == x && Median([x]) == x
  {
    assert Sum([x]) == x + Sum([]);
    assert SortReals([x]) == InsertReal(x, []);
  }

  /** Two values have their average as mean and median. */
  lemma Pair(x: real, y: real)
    ensures Mean([x, y]) == (x + y) / 2.0 && Median([x, y]) == (x + y) / 2.0
  {
    assert [x, y][1..] == [y] && [y][1..] == [];
    assert Sum([y]) == y;
    assert Sum([x, y]) == x + y;
    assert SortReals([y]) == [y];
    assert SortReals([x, y]) == InsertReal(x, [y]);
    if x <= y {
      assert SortReals([x, y]) == [x, y];
    } else {
      assert InsertReal(x, [y]) == [y] + InsertReal(x, []);
      assert SortReals([x, y]) == [y, x];
    }
  }

  /** Sum, and so the mean, does not depend on the order of the values. */
  lemma {:induction false} SumPerm(xs: seq<real>, ys: seq<real>)
    requires multiset(xs) == multiset(ys)
    ensures Sum(xs) == Sum(ys)
    decreases |xs|
  {
    assert |xs| == |multiset(xs)| && |ys| == |multiset(ys)|;
    if |xs| > 0 {
      assert xs[0] in multiset(ys);
      var k :| 0 <= k < |ys| && ys[k] == xs[0];
      var rest := ys[..k] + ys[k + 1..];
      SumRemove(ys, k);
      PyList.MultisetRemove(ys, k);
      assert xs == [xs[0]] + xs[1..];
      assert multiset(xs) == multiset{xs[0]} + multiset(xs[1..]);
      PyList.MultisetCancel(xs[0], multiset(xs[1..]), multiset(rest));
      SumPerm(xs[1..], rest);
    }
  }

  /** Taking out the element at `k`. */
  lemma SumRemove(ys: seq<real>, k: nat)
    requires k < |ys|
    ensures Sum(ys) == ys[k] + Sum(ys[..k] + ys[k + 1..])
  {
    var pre, post := ys[..k], ys[k + 1..];
    var mid := [ys[k]] + post;
    assert ys == pre + mid;
    SumSplit(pre, mid);
    SumCons(ys[k], post);
    SumSplit(pre, post);
  }

  lemma SumCons(x: real, t: seq<real>)
    ensures Sum([x] + t) == x + Sum(t)
  {
    assert ([x] + t)[1..] == t;
  }

  lemma {:induction false} SumSplit(a: seq<real>, b: seq<real>)
    ensures Sum(a + b) == Sum(a) + Sum(b)
  {
    if |a| > 0 {
      assert (a + b)[1..] == a[1..] + b;
      SumSplit(a[1..], b);
    } else {
      assert a + b == b;
    }
  }

  /** Two ascending lists with the same elements are equal. */
  lemma {:induction false} SortedRealsUnique(a: seq<real>, b: seq<real>)
    requires SortedReals(a) && SortedReals(b) && multiset(a) == multiset(b)
    ensures a == b
  {
    assert |a| == |multiset(a)| && |b| == |multiset(b)|;
    if |a| > 0 {
      assert a[0] in multiset(b) && b[0] in multiset(a);
      assert a[0] == b[0];
      assert a == [a[0]] + a[1..] && b == [b[0]] + b[1..];
      PyList.MultisetCancel(a[0], multiset(a[1..]), multiset(b[1..]));
      SortedRealsUnique(a[1..], b[1..]);
    }
  }

  /** The median does not depend on the order of the values. */
  lemma MedianPerm(xs: seq<real>, ys: seq<real>)
    requires |xs| > 0 && multiset(xs) == multiset(ys)
    ensures |ys| > 0 && Median(xs) == Median(ys)
  {
    assert |xs| == |multiset(xs)| && |ys| == |multiset(ys)|;
    SortRealsSpec(xs);
    SortRealsSpec(ys);
    SortedRealsUnique(SortReals(xs), SortReals(ys));
  }
}
