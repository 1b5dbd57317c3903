/** Python list and slice semantics on Dafny sequences: negative indices count from
    the end, slice bounds are clamped, and `list.remove` drops the first occurrence. */
module PyList {
  import opened Wrappers

  /** Normalises one slice bound of `s[start:stop]` for a sequence of length `n`. */
  function SliceBound(i: int, n: nat): (r: nat)
    ensures r <= n
  {
    if i < 0 then (if n + i < 0 then 0 else n + i) else if i > n then n else i
  }

  /** `s[start:stop]`, with Python's treatment of negative and out-of-range bounds. */
  function Slice<T>(s: seq<T>, start: int, stop: int): seq<T> {
    var a := SliceBound(start, |s|);
    var b := SliceBound(stop, |s|);
    if a <= b then s[a..b] else []
  }

  /** The position that `s[i]` reads, or None where Python raises IndexError. */
  function Index(n: nat, i: int): (r: Option<nat>)
    ensures r.Some? <==> 0 <= i + n && i < n
    ensures r.Some? ==> r.value < n && (r.value == i || r.value == n + i)
  {
    if 0 <= i < n then Some(i) else if 0 <= i + n && i < 0 then Some(n + i) else None
  }

  /** `s[m:-m]`: for 0 < m with 2m <= |s| it is the middle part, for m == 0 it is empty. */
  lemma SymmetricSlice<T>(s: seq<T>, m: int)
    requires 0 <= m && 2 * m <= |s|
    ensures m == 0 ==> Slice(s, m, -m) == []
    ensures m > 0 ==> Slice(s, m, -m) == s[m..|s| - m]
  {
  }

  /** `xs.remove(x)` when it does not raise: the first occurrence is dropped. */
  function RemoveFirst<T(==)>(xs: seq<T>, x: T): (r: seq<T>)
    ensures x in xs ==> |r| == |xs| - 1
    ensures x !in xs ==> r == xs
    ensures multiset(r) == multiset(xs) - multiset{x}
  {
    if |xs| == 0 then []
    else
      assert xs == [xs[0]] + xs[1..];
      if xs[0] == x then xs[1..] else [xs[0]] + RemoveFirst(xs[1..], x)
  }
  /** Every element left by `RemoveFirst` is an element of the original list. */
  lemma {:induction false} RemoveFirstSubset<T>(xs: seq<T>, x: T)
    ensures forall y :: y in RemoveFirst(xs, x) ==> y in xs
  {
    if |xs| > 0 && xs[0] != x {
      RemoveFirstSubset(xs[1..], x);
      assert RemoveFirst(xs, x) == [xs[0]] + RemoveFirst(xs[1..], x);
    }
  }

  predicate NoDup<T(==)>(xs: seq<T>) {
    forall i, j :: 0 <= i < j < |xs| ==> xs[i] != xs[j]
  }

  /** Removing the first occurrence from a list without duplicates removes the element. */
  lemma {:induction false} RemoveFirstNoDup<T>(xs: seq<T>, x: T)
    requires NoDup(xs)
    ensures x !in RemoveFirst(xs, x)
    ensures NoDup(RemoveFirst(xs, x))
    ensures forall y :: y != x ==> (y in RemoveFirst(xs, x) <==> y in xs)
  {
    if |xs| > 0 {
      assert xs == [xs[0]] + xs[1..];
      assert NoDup(xs[1..]);
      assert xs[0] !in xs[1..];
      if xs[0] != x {
        var t := RemoveFirst(xs[1..], x);
        RemoveFirstNoDup(xs[1..], x);
        var r := [xs[0]] + t;
        forall i, j | 0 <= i < j < |r| ensures r[i] != r[j] {
          if i == 0 {
            assert r[j] == t[j - 1] && t[j - 1] in t;
          } else {
            assert r[i] == t[i - 1] && r[j] == t[j - 1];
          }
        }
      }
    }
  }

  /** Removing the same element from two equal multisets leaves equal multisets. */
  lemma MultisetCancel<T>(x: T, p: multiset<T>, q: multiset<T>)
    requires multiset{x} + p == multiset{x} + q
    ensures p == q
  {
    assert forall y :: p[y] == (multiset{x} + p)[y] - multiset{x}[y];
    assert forall y :: q[y] == (multiset{x} + q)[y] - multiset{x}[y];
  }

  /** Taking out the element at `k` takes it out of the multiset. */
  lemma MultisetRemove<T>(ys: seq<T>, k: nat)
    requires k < |ys|
    ensures multiset(ys) == multiset{ys[k]} + multiset(ys[..k] + ys[k + 1..])
  {
    assert ys == ys[..k] + [ys[k]] + ys[k + 1..];
  }

  /** A list without duplicates holds each element at most once. */
  lemma {:induction false} NoDupCount<T>(xs: seq<T>, x: T)
    requires NoDup(xs)
    ensures multiset(xs)[x] <= 1
  {
    if |xs| > 0 {
      assert xs == [xs[0]] + xs[1..];
      assert NoDup(xs[1..]);
      NoDupCount(xs[1..], x);
      if xs[0] == x {
        assert x !in xs[1..];
      }
    }
  }

  /** A reordering of a list without duplicates has none either. */
  lemma NoDupPerm<T>(a: seq<T>, b: seq<T>)
    requires NoDup(a) && multiset(a) == multiset(b)
    ensures NoDup(b)
  {
    forall i, j | 0 <= i < j < |b| ensures b[i] != b[j] {
      if b[i] == b[j] {
        assert b == b[..j] + b[j..];
        assert b[i] in b[..j] && b[j] in b[j..];
        assert multiset(b)[b[i]] == multiset(b[..j])[b[i]] + multiset(b[j..])[b[i]];
        NoDupCount(a, b[i]);
      }
    }
  }

  /** `[x for x in xs if p(x)]`. */
  function Filter<T>(xs: seq<T>, p: T -> bool): (r: seq<T>)
    ensures |r| <= |xs|
  {
    if |xs| == 0 then []
    else Filter(xs[..|xs| - 1], p) + (if p(xs[|xs| - 1]) then [xs[|xs| - 1]] else [])
  }

  /** The positions of `xs` whose element satisfies `p`, in increasing order. */
  function KeptIndices<T>(xs: seq<T>, p: T -> bool): (r: seq<nat>)
    ensures forall k :: 0 <= k < |r| ==> r[k] < |xs|
  {
    if |xs| == 0 then []
    else KeptIndices(xs[..|xs| - 1], p) + (if p(xs[|xs| - 1]) then [|xs| - 1] else [])
  }

  /** The filtered list consists of the elements at the kept positions, and those
      positions are increasing and are exactly the ones whose element satisfies `p`:
      the filter keeps input order and drops nothing else. */
  lemma {:induction false} FilterSpec<T>(xs: seq<T>, p: T -> bool)
    ensures |Filter(xs, p)| == |KeptIndices(xs, p)|
    ensures forall k :: 0 <= k < |Filter(xs, p)| ==> Filter(xs, p)[k] == xs[KeptIndices(xs, p)[k]]
    ensures forall k, l :: 0 <= k < l < |KeptIndices(xs, p)| ==> KeptIndices(xs, p)[k] < KeptIndices(xs, p)[l]
    ensures forall i :: 0 <= i < |xs| ==> (i in KeptIndices(xs, p) <==> p(xs[i]))
  {
    FilterAtKept(xs, p);
    KeptIncreasing(xs, p);
    KeptExactly(xs, p);
  }

  lemma {:induction false} FilterAtKept<T>(xs: seq<T>, p: T -> bool)
    ensures |Filter(xs, p)| == |KeptIndices(xs, p)|
    ensures forall k :: 0 <= k < |Filter(xs, p)| ==> Filter(xs, p)[k] == xs[KeptIndices(xs, p)[k]]
  {
    if |xs| > 0 {
      var init := xs[..|xs| - 1];
      FilterAtKept(init, p);
      assert forall i :: 0 <= i < |init| ==> init[i] == xs[i];
    }
  }

  lemma {:induction false} KeptIncreasing<T>(xs: seq<T>, p: T -> bool)
    ensures forall k, l :: 0 <= k < l < |KeptIndices(xs, p)| ==> KeptIndices(xs, p)[k] < KeptIndices(xs, p)[l]
  {
    if |xs| > 0 {
      KeptIncreasing(xs[..|xs| - 1], p);
    }
  }

  lemma {:induction false} KeptExactly<T>(xs: seq<T>, p: T -> bool)
    ensures forall i :: 0 <= i < |xs| ==> (i in KeptIndices(xs, p) <==> p(xs[i]))
  {
    if |xs| > 0 {
      var init := xs[..|xs| - 1];
      KeptExactly(init, p);
      assert forall i :: 0 <= i < |init| ==> init[i] == xs[i];
    }
  }

  /** An element is kept exactly when it occurs and satisfies `p`. */
  lemma {:induction false} FilterMembership<T>(xs: seq<T>, p: T -> bool, x: T)
    ensures x in Filter(xs, p) <==> x in xs && p(x)
  {
    if |xs| > 0 {
      var init := xs[..|xs| - 1];
      FilterMembership(init, p, x);
      assert xs == init + [xs[|xs| - 1]];
    }
  }

  /** Filtering twice with the same predicate is filtering once. */
  lemma {:induction false} FilterIdempotent<T>(xs: seq<T>, p: T -> bool)
    ensures Filter(Filter(xs, p), p) == Filter(xs, p)
  {
    if |xs| > 0 {
      var init := xs[..|xs| - 1];
      FilterIdempotent(init, p);
      var f := Filter(init, p);
      if p(xs[|xs| - 1]) {
        var g := f + [xs[|xs| - 1]];
        assert g[..|g| - 1] == f;
        assert Filter(xs, p) == g;
        assert Filter(g, p) == Filter(f, p) + [xs[|xs| - 1]];
      } else {
        assert Filter(xs, p) == f + [] == f;
      }
    }
  }

  /** Filtering a list extended by one element. */
  lemma FilterSnoc<T>(xs: seq<T>, x: T, p: T -> bool)
    ensures Filter(xs + [x], p) == Filter(xs, p) + (if p(x) then [x] else [])
  {
    assert (xs + [x])[..|xs|] == xs;
  }

  /** Filtering one more element of a list. */
  lemma FilterPrefixStep<T>(xs: seq<T>, i: nat, p: T -> bool)
    requires i < |xs|
    ensures Filter(xs[..i + 1], p) == Filter(xs[..i], p) + (if p(xs[i]) then [xs[i]] else [])
  {
    assert xs[..i + 1] == xs[..i] + [xs[i]];
    FilterSnoc(xs[..i], xs[i], p);
  }

  /** Filtering a concatenation filters each part. */
  lemma {:induction false} FilterAppend<T>(xs: seq<T>, ys: seq<T>, p: T -> bool)
    ensures Filter(xs + ys, p) == Filter(xs, p) + Filter(ys, p)
    decreases |ys|
  {
    if |ys| == 0 {
      assert xs + ys == xs;
    } else {
      var zs := xs + ys;
      assert zs[..|zs| - 1] == xs + ys[..|ys| - 1];
      FilterAppend(xs, ys[..|ys| - 1], p);
    }
  }
}
