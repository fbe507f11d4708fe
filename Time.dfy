/** `AbsError`, `RelError` and the default tolerances of `Duration` and
    `Instant`. A `Duration` is a whole number of nanoseconds; an `Instant` is
    a reading of the monotonic clock, also in nanoseconds. */
module Time {
  import opened ApproEq
  import opened Integers

  type Duration = nat
  type Instant = int

  const NanosPerSec: nat := 1_000_000_000
  const U32Max: nat := 0xffff_ffff

  /** `Duration::as_secs`: the whole seconds, the sub-second part dropped. */
  function AsSecs(d: Duration): nat {
    d / NanosPerSec
  }

  /** 1 s absolute and 1 ms (1/1000) relative: `Duration` chooses its two
      defaults separately instead of from one `Tolerance`. */
  const DurationTolerances: Tolerances<Duration> := Tolerances(NanosPerSec, 1_000_000)

  function DurationAbsError(actual: Duration, expected: Duration): (r: ApproEqResult<Duration>)
    ensures r.Distance?
    ensures actual <= expected ==> actual + r.value == expected
    ensures expected <= actual ==> expected + r.value == actual
  {
    Distance(if actual > expected then actual - expected else expected - actual)
  }

  /** The distance between two instants is a `Duration`, whichever is later. */
  function InstantAbsError(actual: Instant, expected: Instant): (r: ApproEqResult<Duration>)
    ensures r.Distance?
    ensures actual <= expected ==> actual + r.value == expected
    ensures expected <= actual ==> expected + r.value == actual
  {
    Distance(if actual > expected then actual - expected else expected - actual)
  }

  lemma AbsErrorIsOrderIndependent(x: Duration, y: Duration, p: Instant, q: Instant)
    ensures DurationAbsError(x, y) == DurationAbsError(y, x)
    ensures InstantAbsError(p, q) == InstantAbsError(q, p)
  {
  }

  /** The default absolute comparison of durations and of instants passes
      exactly when they are at most one second apart. */
  lemma TimeDefaultAbs(x: Duration, y: Duration, p: Instant, q: Instant)
    ensures AbsApproEq(DurationAbsError, NatLe, DurationTolerances, x, y) <==> Abs(x - y) <= NanosPerSec
    ensures AbsApproEq(InstantAbsError, NatLe, DurationTolerances, p, q) <==> Abs(p - q) <= NanosPerSec
  {
  }

  /** The result of a computation that may abort the program. */
  datatype Outcome<+T> = Returns(value: T) | Panics

  /** `Duration / u32`, which panics when dividing by zero; the quotient is
      rounded down to a whole nanosecond. */
  function DivDuration(d: Duration, k: nat): (o: Outcome<Duration>)
    ensures o.Panics? <==> k == 0
    ensures o.Returns? ==> o.value * k <= d < (o.value + 1) * k
  {
    if k == 0 then Panics
    else
      DivRoundsDown(d, k);
      Returns(d / k)
  }

  /** `rel_error` as written: the guard rejects only a zero `expected` and
      one over `u32::MAX` seconds, then divides the difference by the whole
      seconds of `expected`, which are 0 whenever `expected` is under 1 s. */
  function DurationRelErrorAsWritten(actual: Duration, expected: Duration): (o: Outcome<ApproEqResult<Duration>>)
    ensures o.Panics? <==> 0 < expected < NanosPerSec
    ensures o.Returns? ==> o.value == DurationRelError(actual, expected)
  {
    if expected == 0 || AsSecs(expected) > U32Max then Returns(Failure(DividedByZero))
    else
      match DivDuration(Abs(actual - expected), AsSecs(expected))
      case Returns(q) => Returns(Distance(q))
      case Panics => Panics
  }

  /** Half a second compared with itself aborts instead of passing. */
  lemma DurationRelPanicsOnEqualHalfSeconds()
    ensures DurationRelErrorAsWritten(500_000_000, 500_000_000) == Panics
    ensures DurationRelError(500_000_000, 500_000_000) == Failure(DividedByZero)
  {
  }

  /** `rel_error` with the guard extended to every `expected` whose whole
      seconds are 0, so that the division is never by zero. */
  function DurationRelError(actual: Duration, expected: Duration): (r: ApproEqResult<Duration>)
    ensures r.Failure? <==> AsSecs(expected) == 0 || AsSecs(expected) > U32Max
    ensures expected == 0 ==> r.Failure?
    ensures !r.NoDistance?
    ensures r.Failure? ==> r.error == DividedByZero
    ensures r.Distance? ==> r.value * AsSecs(expected) <= Abs(actual - expected) < (r.value + 1) * AsSecs(expected)
  {
    var secs := AsSecs(expected);
    if secs == 0 || secs > U32Max then Failure(DividedByZero)
    else
      DivRoundsDown(Abs(actual - expected), secs);
      Distance(Abs(actual - expected) / secs)
  }

  /** The default relative comparison passes exactly when `expected` has
      between 1 and `u32::MAX` whole seconds and the difference is below
      1000001 ns per whole second of `expected`. */
  lemma DurationDefaultRel(actual: Duration, expected: Duration)
    ensures RelApproEq(DurationRelError, NatLe, DurationTolerances, actual, expected)
        <==> 1 <= AsSecs(expected) <= U32Max && Abs(actual - expected) < 1_000_001 * AsSecs(expected)
  {
    var secs := AsSecs(expected);
    var r := DurationRelError(actual, expected);
    if r.Distance? {
      QuotientAtMost(Abs(actual - expected), secs, r.value, 1_000_000);
    }
  }

  /** For the rounded-down quotient `q` of `n` by `k`: `q <= m` exactly when
      `n < (m + 1) * k`. */
  lemma QuotientAtMost(n: nat, k: nat, q: nat, m: nat)
    requires q * k <= n < (q + 1) * k
    ensures q <= m <==> n < (m + 1) * k
  {
    if q <= m {
      MulMonotone(q + 1, m + 1, k);
    } else {
      MulMonotone(m + 1, q, k);
    }
  }

  lemma MulMonotone(a: nat, b: nat, k: nat)
    requires a <= b
    ensures a * k <= b * k
  {
  }
}
