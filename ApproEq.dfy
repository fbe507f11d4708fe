/** The comparison engine: the tri-state result of an error computation, the
    default tolerances, the "with tolerance" and default-tolerance predicates
    with their negations, and the `max` reducer that every container uses.

    The distance type `D` is left generic; its `<=` (Rust's `PartialOrd`) is
    passed around as the function `le`. */
module ApproEq {

  /** Why two values could not be compared. */
  datatype ApproEqError =
    | LengthMismatch
    | NonNumDifference
    | DividedByZero
    | Overflow
      /** A failure of a sub-computation, kept only as an opaque cause. */
    | ComponentError(cause: string)

  /** The three outcomes of `abs_error`/`rel_error`:
      `Ok(Some(d))`, `Ok(None)` and `Err(e)`. */
  datatype ApproEqResult<+D> =
    | Distance(value: D)
    | NoDistance
    | Failure(error: ApproEqError)

  /** The default absolute and relative tolerances of a distance type
      (`AbsTolerance::abs_tolerance`, `RelTolerance::rel_tolerance`). */
  datatype Tolerances<D> = Tolerances(abs: D, rel: D)

  /** A type with a single `Tolerance` gets both defaults from it. */
  function FromTolerance<D>(t: D): (tols: Tolerances<D>)
    ensures tols.abs == t && tols.rel == t
  {
    Tolerances(t, t)
  }

  // ---------------------------------------------------------------------
  // Predicate layers
  // ---------------------------------------------------------------------

  /** How both "with tolerance" predicates read an error result. */
  predicate WithinTol<D>(le: (D, D) -> bool, r: ApproEqResult<D>, tol: D) {
    match r
    case Distance(d) => le(d, tol)
    case NoDistance => true
    case Failure(_) => false
  }

  function AbsApproEqWithTol<A, B, D>(absError: (A, B) -> ApproEqResult<D>, le: (D, D) -> bool,
                                      actual: A, expected: B, tol: D): (ok: bool)
    ensures absError(actual, expected).Failure? ==> !ok
    ensures absError(actual, expected).NoDistance? ==> ok
    ensures absError(actual, expected).Distance? ==> (ok <==> le(absError(actual, expected).value, tol))
  {
    WithinTol(le, absError(actual, expected), tol)
  }

  function AbsApproNeWithTol<A, B, D>(absError: (A, B) -> ApproEqResult<D>, le: (D, D) -> bool,
                                      actual: A, expected: B, tol: D): (ne: bool)
    ensures ne <==> !AbsApproEqWithTol(absError, le, actual, expected, tol)
  {
    !AbsApproEqWithTol(absError, le, actual, expected, tol)
  }

  function AbsApproEq<A, B, D>(absError: (A, B) -> ApproEqResult<D>, le: (D, D) -> bool,
                               tols: Tolerances<D>, actual: A, expected: B): (ok: bool)
    ensures ok <==> AbsApproEqWithTol(absError, le, actual, expected, tols.abs)
  {
    AbsApproEqWithTol(absError, le, actual, expected, tols.abs)
  }

  function ApproNeAbs<A, B, D>(absError: (A, B) -> ApproEqResult<D>, le: (D, D) -> bool,
                               tols: Tolerances<D>, actual: A, expected: B): (ne: bool)
    ensures ne <==> !AbsApproEq(absError, le, tols, actual, expected)
  {
    !AbsApproEq(absError, le, tols, actual, expected)
  }

  function RelApproEqWithTol<A, B, D>(relError: (A, B) -> ApproEqResult<D>, le: (D, D) -> bool,
                                      actual: A, expected: B, tol: D): (ok: bool)
    ensures relError(actual, expected).Failure? ==> !ok
    ensures relError(actual, expected).NoDistance? ==> ok
    ensures relError(actual, expected).Distance? ==> (ok <==> le(relError(actual, expected).value, tol))
  {
    WithinTol(le, relError(actual, expected), tol)
  }

  function ApproNeRelWithTol<A, B, D>(relError: (A, B) -> ApproEqResult<D>, le: (D, D) -> bool,
                                      actual: A, expected: B, tol: D): (ne: bool)
    ensures ne <==> !RelApproEqWithTol(relError, le, actual, expected, tol)
  {
    !RelApproEqWithTol(relError, le, actual, expected, tol)
  }

  function RelApproEq<A, B, D>(relError: (A, B) -> ApproEqResult<D>, le: (D, D) -> bool,
                               tols: Tolerances<D>, actual: A, expected: B): (ok: bool)
    ensures ok <==> RelApproEqWithTol(relError, le, actual, expected, tols.rel)
  {
    RelApproEqWithTol(relError, le, actual, expected, tols.rel)
  }

  function RelApproNe<A, B, D>(relError: (A, B) -> ApproEqResult<D>, le: (D, D) -> bool,
                               tols: Tolerances<D>, actual: A, expected: B): (ne: bool)
    ensures ne <==> !RelApproEq(relError, le, tols, actual, expected)
  {
    !RelApproEq(relError, le, tols, actual, expected)
  }

  /** A looser tolerance never turns a pass into a failure; only
      transitivity is needed, so this holds for a partial order as well. */
  lemma WithinTolMonotone<D(!new)>(le: (D, D) -> bool, r: ApproEqResult<D>, tol: D, looser: D)
    requires forall a, b, c :: le(a, b) && le(b, c) ==> le(a, c)
    requires WithinTol(le, r, tol) && le(tol, looser)
    ensures WithinTol(le, r, looser)
  {
  }

  // ---------------------------------------------------------------------
  // Orders on distances
  // ---------------------------------------------------------------------

  /** `le` is total and transitive: every two distances are comparable. */
  ghost predicate TotalPreorder<D(!new)>(le: (D, D) -> bool) {
    && (forall a, b :: le(a, b) || le(b, a))
    && (forall a, b, c :: le(a, b) && le(b, c) ==> le(a, c))
  }

  /** `i > m`, the strict part of `le`. */
  predicate Greater<D>(le: (D, D) -> bool, i: D, m: D) {
    le(m, i) && !le(i, m)
  }

  // ---------------------------------------------------------------------
  // The max reducer
  // ---------------------------------------------------------------------

  /** Whether the fold replaces its running value `m` by the element `i`:
      a held error is kept, an incoming error wins, "no distance" ranks below
      every distance, and only a strictly larger distance replaces. */
  predicate Replaces<D>(le: (D, D) -> bool, m: ApproEqResult<D>, i: ApproEqResult<D>) {
    if m.Failure? then false
    else if i.Failure? then true
    else if m.NoDistance? then true
    else if i.NoDistance? then false
    else Greater(le, i.value, m.value)
  }

  function MaxStep<D>(le: (D, D) -> bool, m: ApproEqResult<D>, i: ApproEqResult<D>): ApproEqResult<D> {
    if Replaces(le, m, i) then i else m
  }

  /** `max`: the left fold of `MaxStep` from `NoDistance`, written as the
      fold of all but the last element, stepped with the last. */
  function Max<D>(le: (D, D) -> bool, rs: seq<ApproEqResult<D>>): (r: ApproEqResult<D>)
    ensures r.NoDistance? <==> forall i :: 0 <= i < |rs| ==> rs[i].NoDistance?
    ensures r.Failure? <==> exists i :: 0 <= i < |rs| && rs[i].Failure?
    ensures r.NoDistance? || exists i :: 0 <= i < |rs| && rs[i] == r
    decreases |rs|
  {
    if |rs| == 0 then NoDistance
    else
      var init := rs[..|rs| - 1];
      assert forall i :: 0 <= i < |init| ==> init[i] == rs[i];
      MaxStep(le, Max(le, init), rs[|rs| - 1])
  }

  /** The result is the first error in iteration order, if there is one. */
  lemma {:induction false} MaxIsFirstFailure<D>(le: (D, D) -> bool, rs: seq<ApproEqResult<D>>, k: nat)
    requires k < |rs| && rs[k].Failure?
    requires forall j :: 0 <= j < k ==> !rs[j].Failure?
    ensures Max(le, rs) == rs[k]
    decreases |rs|
  {
    var n := |rs| - 1;
    var init := rs[..n];
    if k < n {
      MaxIsFirstFailure(le, init, k);
    } else {
      assert forall j :: 0 <= j < n ==> !init[j].Failure?;
    }
  }

  /** `rs[k]` is the largest distance of `rs`, and no earlier distance ties with it. */
  ghost predicate EarliestLargestAt<D>(le: (D, D) -> bool, rs: seq<ApproEqResult<D>>, k: int) {
    && 0 <= k < |rs|
    && rs[k].Distance?
    && (forall j :: 0 <= j < |rs| && rs[j].Distance? ==> le(rs[j].value, rs[k].value))
    && (forall j :: 0 <= j < k && rs[j].Distance? ==> !le(rs[k].value, rs[j].value))
  }

  /** At most one position is the earliest largest one. */
  lemma EarliestLargestUnique<D>(le: (D, D) -> bool, rs: seq<ApproEqResult<D>>, k1: int, k2: int)
    requires EarliestLargestAt(le, rs, k1) && EarliestLargestAt(le, rs, k2)
    ensures k1 == k2
  {
  }

  /** Without errors and with at least one distance, the result is the
      largest distance, and of equal largest ones the earliest. */
  lemma {:induction false} MaxIsEarliestLargest<D(!new)>(le: (D, D) -> bool, rs: seq<ApproEqResult<D>>)
    requires TotalPreorder(le)
    requires forall i :: 0 <= i < |rs| ==> !rs[i].Failure?
    requires exists i :: 0 <= i < |rs| && rs[i].Distance?
    ensures Max(le, rs).Distance?
    ensures exists k :: EarliestLargestAt(le, rs, k) && Max(le, rs) == rs[k]
    decreases |rs|
  {
    var n := |rs| - 1;
    var init := rs[..n];
    var last := rs[n];
    assert forall j :: 0 <= j < n ==> init[j] == rs[j];
    if exists i :: 0 <= i < n && init[i].Distance? {
      MaxIsEarliestLargest(le, init);
      var k :| EarliestLargestAt(le, init, k) && Max(le, init) == init[k];
      if last.Distance? && Greater(le, last.value, rs[k].value) {
        assert EarliestLargestAt(le, rs, n);
      } else {
        assert EarliestLargestAt(le, rs, k);
      }
    } else {
      assert Max(le, init) == NoDistance;
      assert EarliestLargestAt(le, rs, n);
    }
  }

  /** Under a total order, the earliest largest position is unique, so
      `max` is the element at any position that is the earliest largest. */
  lemma MaxAtEarliestLargest<D(!new)>(le: (D, D) -> bool, rs: seq<ApproEqResult<D>>, k: int)
    requires TotalPreorder(le)
    requires forall i :: 0 <= i < |rs| ==> !rs[i].Failure?
    requires EarliestLargestAt(le, rs, k)
    ensures Max(le, rs) == rs[k]
  {
    MaxIsEarliestLargest(le, rs);
    var k' :| EarliestLargestAt(le, rs, k') && Max(le, rs) == rs[k'];
    EarliestLargestUnique(le, rs, k, k');
  }

  /** Self-comparison lifts through `max`: when every result is the distance
      `z` or "no distance", so is the maximum. */
  lemma MaxOfSelfComparisons<D>(le: (D, D) -> bool, rs: seq<ApproEqResult<D>>, z: D)
    requires forall i :: 0 <= i < |rs| ==> rs[i] in {Distance(z), NoDistance}
    ensures Max(le, rs) in {Distance(z), NoDistance}
  {
  }

  /** Worst-case combination: the maximum is within a tolerance exactly when
      every combined result is. */
  lemma MaxWithinTolIffAll<D(!new)>(le: (D, D) -> bool, rs: seq<ApproEqResult<D>>, tol: D)
    requires TotalPreorder(le)
    ensures WithinTol(le, Max(le, rs), tol) <==> forall i :: 0 <= i < |rs| ==> WithinTol(le, rs[i], tol)
  {
    var r := Max(le, rs);
    if WithinTol(le, r, tol) && r.Distance? {
      MaxIsEarliestLargest(le, rs);
      var k :| EarliestLargestAt(le, rs, k) && r == rs[k];
      assert forall i :: 0 <= i < |rs| && rs[i].Distance? ==> le(rs[i].value, r.value);
    }
  }

  /** The element-wise results of comparing `xs` with `ys`, in order. */
  function ElementErrors<A, B, D>(e: (A, B) -> ApproEqResult<D>, xs: seq<A>, ys: seq<B>): (rs: seq<ApproEqResult<D>>)
    requires |xs| == |ys|
    ensures |rs| == |xs|
    ensures forall i :: 0 <= i < |rs| ==> rs[i] == e(xs[i], ys[i])
  {
    seq(|xs|, i requires 0 <= i < |xs| => e(xs[i], ys[i]))
  }
}
