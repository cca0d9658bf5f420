/** Failure-carrying values, and the "convert each element in order, stop at the first failure" walk
    that the serializer uses for expression lists and for filter lists. */
module Wrappers {

  /** A value that may be absent: the model of a Go pointer that may be nil. */
  datatype Option<+T> = None | Some(value: T)

  /** A value or the error that prevented it: the model of Go's `(value, error)` return pair. */
  datatype Result<+R, +E> = Success(value: R) | Failure(error: E)

  /** Applies `f` to the elements of `xs` from first to last. The first failure is the result and
      nothing converted before it is kept; when every element converts, the results in input order. */
  function MapUntilFailure<A, B, E>(xs: seq<A>, f: A -> Result<B, E>): (r: Result<seq<B>, E>)
    ensures r.Success? ==>
      |r.value| == |xs| && forall i :: 0 <= i < |xs| ==> f(xs[i]) == Success(r.value[i])
    ensures r.Failure? ==>
      exists i :: 0 <= i < |xs| && f(xs[i]) == Failure(r.error) &&
        forall j :: 0 <= j < i ==> f(xs[j]).Success?
    decreases |xs|
  {
    if |xs| == 0 then Success([])
    else
      var init := xs[..|xs| - 1];
      match MapUntilFailure(init, f)
      case Failure(e) => Failure(e)
      case Success(ys) =>
        match f(xs[|xs| - 1])
        case Failure(e) => Failure(e)
        case Success(y) => Success(ys + [y])
  }

  /** Once a prefix of the input fails, the whole input fails with the same error: the walk returns
      at the first failure and never looks at the rest. */
  lemma {:induction false} FailureIsFinal<A, B, E>(xs: seq<A>, k: nat, f: A -> Result<B, E>)
    requires k <= |xs| && MapUntilFailure(xs[..k], f).Failure?
    ensures MapUntilFailure(xs, f) == MapUntilFailure(xs[..k], f)
    decreases |xs| - k
  {
    if k == |xs| {
      assert xs[..k] == xs;
    } else {
      var init := xs[..|xs| - 1];
      assert init[..k] == xs[..k];
      FailureIsFinal(init, k, f);
    }
  }
}
