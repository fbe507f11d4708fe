/** How an error computation is lifted through containers and wrappers:
    slices and vectors (length check, then `max`), fixed-size arrays (`max`
    only), `Option` (the presence rule), `Weak` (upgrade, then the `Option`
    rule) and the transparent wrappers `&`, `Rc`, `Arc`, `Cell`, `RefCell`. */
module Containers {
  import opened ApproEq
  import opened Integers

  // ---------------------------------------------------------------------
  // Slices, vectors and fixed-size arrays
  // ---------------------------------------------------------------------

  /** `abs_error`/`rel_error` of `[B]` against `[A]`, and of `Vec<B>` against
      `Vec<A>`: the element error `e` is `abs_error` or `rel_error` of the
      element type. */
  function SliceError<A, B, D>(e: (A, B) -> ApproEqResult<D>, le: (D, D) -> bool,
                               actual: seq<A>, expected: seq<B>): (r: ApproEqResult<D>)
    ensures |actual| != |expected| ==> r == Failure(LengthMismatch)
    ensures |actual| == |expected| ==> r == Max(le, ElementErrors(e, actual, expected))
    ensures r.NoDistance? <==> |actual| == |expected| && forall i :: 0 <= i < |actual| ==> e(actual[i], expected[i]).NoDistance?
  {
    if |actual| != |expected| then Failure(LengthMismatch)
    else Max(le, ElementErrors(e, actual, expected))
  }

  /** A sequence comparison passes a tolerance exactly when the lengths agree
      and every element pair passes it. */
  lemma SliceWithinTolIffEveryElement<A, B, D(!new)>(e: (A, B) -> ApproEqResult<D>, le: (D, D) -> bool,
                                                    actual: seq<A>, expected: seq<B>, tol: D)
    requires TotalPreorder(le)
    ensures WithinTol(le, SliceError(e, le, actual, expected), tol)
        <==> |actual| == |expected| && forall i :: 0 <= i < |actual| ==> WithinTol(le, e(actual[i], expected[i]), tol)
  {
    if |actual| == |expected| {
      MaxWithinTolIffAll(le, ElementErrors(e, actual, expected), tol);
    }
  }

  /** A slice compared with itself: when every element compared with itself
      is `z` apart or has no distance, so is the slice. */
  lemma SliceSelfComparison<A, D>(e: (A, A) -> ApproEqResult<D>, le: (D, D) -> bool, xs: seq<A>, z: D)
    requires forall i :: 0 <= i < |xs| ==> e(xs[i], xs[i]) in {Distance(z), NoDistance}
    ensures SliceError(e, le, xs, xs) in {Distance(z), NoDistance}
  {
    MaxOfSelfComparisons(le, ElementErrors(e, xs, xs), z);
  }

  /** With the corrected signed `abs_error` (`SignedAbsError`) and the
      default tolerance 0, two signed slices compare equal exactly when they
      are equal. As written, the element error wraps and unequal slices can
      pass: see `SignedAbsWrappingPassesZeroDefault`. */
  lemma SignedSliceDefaultIsExactEquality(t: SignedType, xs: seq<int>, ys: seq<int>)
    ensures AbsApproEq((a: seq<int>, b: seq<int>) => SliceError(SignedAbsOf(t), IntLe, a, b), IntLe, SignedTolerances, xs, ys)
        <==> xs == ys
  {
    IntLeIsTotal();
    SliceWithinTolIffEveryElement(SignedAbsOf(t), IntLe, xs, ys, 0);
    forall i | 0 <= i < |xs| && i < |ys|
      ensures WithinTol(IntLe, SignedAbsOf(t)(xs[i], ys[i]), 0) <==> xs[i] == ys[i]
    {
      SignedDefaultIsExactEquality(t, xs[i], ys[i]);
    }
  }

  /** `[1, 2, 3, 100]` against `[1, 2, 3, 0]` fails a tolerance of 1 because
      of its worst element alone, and `[1, 2, 3]` against `[1, 2]` fails
      every tolerance. */
  lemma SliceExamples(tol: nat)
    ensures var xs: seq<nat>, ys: seq<nat> := [1, 2, 3, 100], [1, 2, 3, 0];
      !AbsApproEqWithTol((a: seq<nat>, b: seq<nat>) => SliceError(UnsignedAbsError, NatLe, a, b), NatLe, xs, ys, 1)
    ensures var xs: seq<nat>, ys: seq<nat> := [1, 2, 3], [1, 2];
      !AbsApproEqWithTol((a: seq<nat>, b: seq<nat>) => SliceError(UnsignedAbsError, NatLe, a, b), NatLe, xs, ys, tol)
  {
    NatLeIsTotal();
    var xs: seq<nat>, ys: seq<nat> := [1, 2, 3, 100], [1, 2, 3, 0];
    SliceWithinTolIffEveryElement(UnsignedAbsError, NatLe, xs, ys, 1);
    assert !WithinTol(NatLe, UnsignedAbsError(xs[3], ys[3]), 1);
  }

  /** `abs_error`/`rel_error` of `[B; N]` against `[A; N]`: both arrays have
      the same length `N` by their type, and no length check is made. */
  function ArrayError<A, B, D>(e: (A, B) -> ApproEqResult<D>, le: (D, D) -> bool,
                               actual: seq<A>, expected: seq<B>): (r: ApproEqResult<D>)
    requires |actual| == |expected|
    ensures r == SliceError(e, le, actual, expected)
    ensures |actual| == 0 ==> r == NoDistance
  {
    Max(le, ElementErrors(e, actual, expected))
  }

  // ---------------------------------------------------------------------
  // Option and Weak
  // ---------------------------------------------------------------------

  datatype Option<+T> = None | Some(value: T)

  function OptionError<A, B, D>(e: (A, B) -> ApproEqResult<D>, actual: Option<A>, expected: Option<B>): (r: ApproEqResult<D>)
    ensures actual.None? && expected.None? ==> r == NoDistance
    ensures actual.None? != expected.None? ==> r == Failure(NonNumDifference)
    ensures actual.Some? && expected.Some? ==> r == e(actual.value, expected.value)
  {
    match (actual, expected)
    case (None, None) => NoDistance
    case (Some(x), Some(y)) => e(x, y)
    case _ => Failure(NonNumDifference)
  }

  /** A weak reference: the value it points to, or `None` once that value has
      been dropped. */
  datatype Weak<+T> = Weak(referent: Option<T>)

  function Upgrade<T>(w: Weak<T>): Option<T> {
    w.referent
  }

  function WeakError<A, B, D>(e: (A, B) -> ApproEqResult<D>, actual: Weak<A>, expected: Weak<B>): (r: ApproEqResult<D>)
    ensures r == OptionError(e, Upgrade(actual), Upgrade(expected))
    ensures Upgrade(actual).Some? && Upgrade(expected).Some? ==> r == e(Upgrade(actual).value, Upgrade(expected).value)
    ensures Upgrade(actual).None? != Upgrade(expected).None? ==> r == Failure(NonNumDifference)
  {
    OptionError(e, Upgrade(actual), Upgrade(expected))
  }

  // ---------------------------------------------------------------------
  // Transparent wrappers
  // ---------------------------------------------------------------------

  /** A value seen through `&`, `Rc`, `Arc`, `Cell` (copied out) or `RefCell`
      (borrowed). */
  datatype Wrapper<+T> = Ref(inner: T) | Rc(inner: T) | Arc(inner: T) | Cell(inner: T) | RefCell(inner: T)

  predicate SameWrapper<A, B>(x: Wrapper<A>, y: Wrapper<B>) {
    (x.Ref? && y.Ref?) || (x.Rc? && y.Rc?) || (x.Arc? && y.Arc?) || (x.Cell? && y.Cell?) || (x.RefCell? && y.RefCell?)
  }

  /** Both operands are the same wrapper type, as Rust's typing demands. */
  function WrapperError<A, B, D>(e: (A, B) -> ApproEqResult<D>, actual: Wrapper<A>, expected: Wrapper<B>): (r: ApproEqResult<D>)
    requires SameWrapper(actual, expected)
    ensures r == e(actual.inner, expected.inner)
  {
    match actual
    case Ref(x) => e(x, expected.inner)
    case Rc(x) => e(x, expected.inner)
    case Arc(x) => e(x, expected.inner)
    case Cell(x) => e(x, expected.inner)
    case RefCell(x) => e(x, expected.inner)
  }
}
