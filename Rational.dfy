/** `Tolerance`, `AbsError` and `RelError` of `Ratio<A>`. A ratio is an exact
    rational number, so it is modelled as a `real`. */
module Rational {
  import opened ApproEq

  predicate RealLe(a: real, b: real) {
    a <= b
  }

  /** The `Tolerance` of a ratio is zero, for both defaults. */
  const RatioTolerances: Tolerances<real> := FromTolerance(0.0)

  /** Larger minus smaller, computed exactly. */
  function RatioAbsError(actual: real, expected: real): (r: ApproEqResult<real>)
    ensures r.Distance? && r.value >= 0.0
    ensures r.value == actual - expected || r.value == expected - actual
    ensures r.value == 0.0 <==> actual == expected
  {
    Distance(if actual > expected then actual - expected else expected - actual)
  }

  /** The exact difference divided by `expected` itself, not by its
      magnitude: a negative `expected` gives a distance of at most 0. */
  function RatioRelError(actual: real, expected: real): (r: ApproEqResult<real>)
    ensures r.Failure? <==> expected == 0.0
    ensures expected != 0.0 ==> r.Distance?
    ensures r.Failure? ==> r.error == DividedByZero
    ensures r.Distance? ==> r.value * expected == RatioAbsError(actual, expected).value
    ensures r.Distance? && expected > 0.0 ==> r.value >= 0.0
    ensures r.Distance? && expected < 0.0 ==> r.value <= 0.0
  {
    if expected == 0.0 then Failure(DividedByZero)
    else Distance((if actual > expected then actual - expected else expected - actual) / expected)
  }

  lemma AbsErrorIsOrderIndependent(x: real, y: real)
    ensures RatioAbsError(x, y) == RatioAbsError(y, x)
  {
  }

  /** With the default tolerance 0, ratios compare by exact equality. */
  lemma RatioDefaultIsExactEquality(actual: real, expected: real)
    ensures AbsApproEq(RatioAbsError, RealLe, RatioTolerances, actual, expected) <==> actual == expected
  {
  }

  /** A non-zero ratio is relatively 0 away from itself. */
  lemma RatioRelReflexive(x: real)
    requires x != 0.0
    ensures RatioRelError(x, x) == Distance(0.0)
    ensures RelApproEq(RatioRelError, RealLe, RatioTolerances, x, x)
  {
  }

  /** Against a negative `expected`, the default relative comparison passes
      for every `actual`. */
  lemma RatioRelNegativeExpectedPasses(actual: real, expected: real)
    requires expected < 0.0
    ensures RelApproEq(RatioRelError, RealLe, RatioTolerances, actual, expected)
  {
  }

  /** 1/1000 against 1/1001: 1/1001000 apart, so within 1/10000 but not
      within 1/10^9; relatively 1/1000 apart, so within 1 but not 1/10^9. */
  lemma RatioMinDiff()
    ensures RatioAbsError(1.0 / 1000.0, 1.0 / 1001.0) == Distance(1.0 / 1001000.0)
    ensures AbsApproEqWithTol(RatioAbsError, RealLe, 1.0 / 1000.0, 1.0 / 1001.0, 1.0 / 10000.0)
    ensures !AbsApproEqWithTol(RatioAbsError, RealLe, 1.0 / 1000.0, 1.0 / 1001.0, 1.0 / 1000000000.0)
    ensures RatioRelError(1.0 / 1000.0, 1.0 / 1001.0) == Distance(1.0 / 1000.0)
    ensures RelApproEqWithTol(RatioRelError, RealLe, 1.0 / 1000.0, 1.0 / 1001.0, 1.0)
    ensures !RelApproEqWithTol(RatioRelError, RealLe, 1.0 / 1000.0, 1.0 / 1001.0, 1.0 / 1000000000.0)
  {
  }
}
