/** Failure-carrying values shared by the whole model.

    Python's `None` becomes `Option.None`, and an exception that the source lets
    propagate becomes `Result.Raise` with the exception's class, so that the error
    paths of the source are modelled rather than excluded by preconditions. */
module Wrappers {

  datatype Option<T> = None | Some(value: T)

  /** The Python exception classes that the modelled code can raise. */
  datatype PyError =
    | KeyError
    | IndexError
    | ValueError
    | TypeError
    | AttributeError
    | FileNotFoundError
    | UnboundLocalError

  datatype Result<T> = Ok(value: T) | Raise(error: PyError)

  /** Applies `f` to each element in order, stopping at the first error, as a
      Python loop that builds a list does when a step raises. */
  function MapResult<A, B>(xs: seq<A>, f: A -> Result<B>): Result<seq<B>> {
    if |xs| == 0 then Ok([])
    else
      match f(xs[0])
      case Raise(e) => Raise(e)
      case Ok(y) =>
        match MapResult(xs[1..], f)
        case Raise(e) => Raise(e)
        case Ok(ys) => Ok([y] + ys)
  }

  /** The traversal succeeds exactly when every step does, and then holds the step
      results in order. */
  lemma {:induction false} MapResultOk<A, B>(xs: seq<A>, f: A -> Result<B>)
    ensures MapResult(xs, f).Ok? <==> forall i :: 0 <= i < |xs| ==> f(xs[i]).Ok?
    ensures MapResult(xs, f).Ok? ==>
      |MapResult(xs, f).value| == |xs| &&
      forall i :: 0 <= i < |xs| ==> f(xs[i]) == Ok(MapResult(xs, f).value[i])
  {
    if |xs| > 0 {
      MapResultOk(xs[1..], f);
      assert forall i :: 1 <= i < |xs| ==> xs[i] == xs[1..][i - 1];
    }
  }

  /** The traversal fails with the error of the first failing step. */
  lemma {:induction false} MapResultFirstError<A, B>(xs: seq<A>, f: A -> Result<B>, i: nat)
    requires i < |xs| && f(xs[i]).Raise?
    requires forall j :: 0 <= j < i ==> f(xs[j]).Ok?
    ensures MapResult(xs, f) == Raise(f(xs[i]).error)
  {
    if i > 0 {
      assert forall j :: 0 <= j < i - 1 ==> xs[1..][j] == xs[j + 1];
      MapResultFirstError(xs[1..], f, i - 1);
    }
  }

  /** A list of step results, one per element, is the traversal's result. */
  lemma {:induction false} MapResultAll<A, B>(xs: seq<A>, f: A -> Result<B>, ys: seq<B>)
    requires |ys| == |xs|
    requires forall j :: 0 <= j < |xs| ==> f(xs[j]) == Ok(ys[j])
    ensures MapResult(xs, f) == Ok(ys)
  {
    if |xs| > 0 {
      assert forall j :: 1 <= j < |xs| ==> xs[j] == xs[1..][j - 1] && ys[j] == ys[1..][j - 1];
      MapResultAll(xs[1..], f, ys[1..]);
      assert ys == [ys[0]] + ys[1..];
    }
  }

  /** Traversing a concatenation traverses the first part and then, if that
      succeeded, the second. */
  lemma {:induction false} MapResultAppend<A, B>(xs: seq<A>, ys: seq<A>, f: A -> Result<B>)
    ensures MapResult(xs + ys, f) ==
      match MapResult(xs, f)
      case Raise(e) => Raise(e)
      case Ok(a) =>
        match MapResult(ys, f)
        case Raise(e) => Raise(e)
        case Ok(b) => Ok(a + b)
  {
    if |xs| == 0 {
      assert xs + ys == ys;
      if MapResult(ys, f).Ok? {
        assert [] + MapResult(ys, f).value == MapResult(ys, f).value;
      }
    } else {
      assert (xs + ys)[1..] == xs[1..] + ys;
      MapResultAppend(xs[1..], ys, f);
      if f(xs[0]).Ok? && MapResult(xs[1..], f).Ok? && MapResult(ys, f).Ok? {
        var y, a, b := f(xs[0]).value, MapResult(xs[1..], f).value, MapResult(ys, f).value;
        assert [y] + (a + b) == ([y] + a) + b;
      }
    }
  }

  /** Traversing a list extended by one element. */
  lemma MapResultSnoc<A, B>(xs: seq<A>, x: A, f: A -> Result<B>)
    ensures MapResult(xs + [x], f) ==
      match MapResult(xs, f)
      case Raise(e) => Raise(e)
      case Ok(a) =>
        match f(x)
        case Raise(e) => Raise(e)
        case Ok(b) => Ok(a + [b])
  {
    MapResultAppend(xs, [x], f);
    assert [x][1..] == [];
    assert MapResult([x][1..], f) == Ok([]);
    if f(x).Ok? {
      assert [f(x).value] + [] == [f(x).value];
    }
  }

  /** A failed traversal reports the error of one of its steps. */
  lemma {:induction false} MapResultErrorOfStep<A, B>(xs: seq<A>, f: A -> Result<B>) returns (i: nat)
    requires MapResult(xs, f).Raise?
    ensures i < |xs| && f(xs[i]).Raise? && f(xs[i]).error == MapResult(xs, f).error
  {
    if f(xs[0]).Raise? {
      i := 0;
    } else {
      var j := MapResultErrorOfStep(xs[1..], f);
      i := j + 1;
    }
  }
}
