/** `AbsError` and `RelError` of n-dimensional arrays (`ArrayBase`): the
    number of axes must agree, then every axis extent, and then the element
    results are combined by this file's own copy of `max`. */
module NdArray {
  import opened ApproEq
  import opened Integers

  /** An n-dimensional array: its extent along each axis, and its elements in
      the array's logical (row-major) iteration order. */
  datatype Array<T> = Array(shape: seq<nat>, data: seq<T>)

  /** The number of elements of an array of the given shape. */
  function Size(shape: seq<nat>): nat {
    if |shape| == 0 then 1 else shape[0] * Size(shape[1..])
  }

  /** An array holds exactly as many elements as its shape says. */
  predicate Valid<T>(a: Array<T>) {
    |a.data| == Size(a.shape)
  }

  /** The `fold` of the local `max`, with the running value as accumulator. */
  function Fold<D>(le: (D, D) -> bool, acc: ApproEqResult<D>, rs: seq<ApproEqResult<D>>): ApproEqResult<D>
    decreases |rs|
  {
    if |rs| == 0 then acc else Fold(le, MaxStep(le, acc, rs[0]), rs[1..])
  }

  /** The local `max`: `fold` from `NoDistance`. */
  function LocalMax<D>(le: (D, D) -> bool, rs: seq<ApproEqResult<D>>): ApproEqResult<D> {
    Fold(le, NoDistance, rs)
  }

  lemma {:induction false} FoldSnoc<D>(le: (D, D) -> bool, acc: ApproEqResult<D>, rs: seq<ApproEqResult<D>>, x: ApproEqResult<D>)
    ensures Fold(le, acc, rs + [x]) == MaxStep(le, Fold(le, acc, rs), x)
    decreases |rs|
  {
    if |rs| > 0 {
      assert (rs + [x])[1..] == rs[1..] + [x];
      FoldSnoc(le, MaxStep(le, acc, rs[0]), rs[1..], x);
    }
  }

  /** The local copy of `max` computes exactly the library's `max`. */
  lemma {:induction false} LocalMaxIsMax<D>(le: (D, D) -> bool, rs: seq<ApproEqResult<D>>)
    ensures LocalMax(le, rs) == Max(le, rs)
    decreases |rs|
  {
    if |rs| > 0 {
      var n := |rs| - 1;
      LocalMaxIsMax(le, rs[..n]);
      assert rs == rs[..n] + [rs[n]];
      FoldSnoc(le, NoDistance, rs[..n], rs[n]);
    }
  }

  /** `abs_error` and `rel_error` of two arrays, with `elemError` the
      element type's `abs_error` or `rel_error`. Any difference in the number
      of axes or in an axis extent is a `LengthMismatch`, whatever the
      elements; otherwise the result is `max` over the element results. */
  method NdError<A, B, D>(elemError: (A, B) -> ApproEqResult<D>, le: (D, D) -> bool,
                          actual: Array<A>, expected: Array<B>) returns (r: ApproEqResult<D>)
    requires Valid(actual) && Valid(expected)
    ensures actual.shape != expected.shape ==> r == Failure(LengthMismatch)
    ensures actual.shape == expected.shape ==> r == Max(le, ElementErrors(elemError, actual.data, expected.data))
  {
    if |actual.shape| != |expected.shape| {
      return Failure(LengthMismatch);
    }
    for n := 0 to |actual.shape|
      invariant forall m :: 0 <= m < n ==> actual.shape[m] == expected.shape[m]
    {
      if actual.shape[n] != expected.shape[n] {
        return Failure(LengthMismatch);
      }
    }
    assert actual.shape == expected.shape;
    var rs := ElementErrors(elemError, actual.data, expected.data);
    r := LocalMax(le, rs);
    LocalMaxIsMax(le, rs);
  }

  /** An array compared with itself: when every element compared with itself
      is `z` apart or has no distance, the combined result is `z` apart (or
      has no distance), and passes every tolerance that `z` passes. */
  lemma SelfComparisonPasses<T, D>(elemError: (T, T) -> ApproEqResult<D>, le: (D, D) -> bool,
                                   x: Array<T>, z: D, tol: D)
    requires forall i :: 0 <= i < |x.data| ==> elemError(x.data[i], x.data[i]) in {Distance(z), NoDistance}
    ensures var r := Max(le, ElementErrors(elemError, x.data, x.data));
      && (r == Distance(z) || r == NoDistance)
      && (le(z, tol) ==> WithinTol(le, r, tol))
  {
    MaxOfSelfComparisons(le, ElementErrors(elemError, x.data, x.data), z);
  }

  /** The unsigned instance: an array of unsigned integers is 0 apart from
      itself, or has no distance when empty, and passes the default. */
  lemma UnsignedSelfComparisonPasses(x: Array<nat>)
    ensures var r := Max(NatLe, ElementErrors(UnsignedAbsError, x.data, x.data));
      && (r == Distance(0) || r == NoDistance)
      && WithinTol(NatLe, r, UnsignedTolerances.abs)
  {
    SelfComparisonPasses(UnsignedAbsError, NatLe, x, 0, UnsignedTolerances.abs);
  }
}
