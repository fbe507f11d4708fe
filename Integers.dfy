/** `AbsError`, `RelError` and `Tolerance` of the primitive integer types.
    Unsigned values are `nat` (their arithmetic here can neither underflow
    nor overflow); signed values are `int` together with the width of their
    type, so that the overflow of `(self - expected).abs()` can be stated. */
module Integers {
  import opened ApproEq

  function Abs(x: int): nat {
    if x < 0 then -x else x
  }

  predicate IntLe(a: int, b: int) {
    a <= b
  }

  predicate NatLe(a: nat, b: nat) {
    a <= b
  }

  lemma IntLeIsTotal()
    ensures TotalPreorder(IntLe)
  {
  }

  lemma NatLeIsTotal()
    ensures TotalPreorder(NatLe)
  {
  }

  /** `n / d` on naturals is rounded down. */
  lemma DivRoundsDown(n: nat, d: nat)
    requires d > 0
    ensures (n / d) * d <= n < (n / d + 1) * d
  {
    assert n == (n / d) * d + n % d;
  }

  /** Rust's integer `/`: the quotient rounded toward zero. */
  function TruncDiv(a: int, b: int): (q: int)
    requires b != 0
    ensures Abs(q) == Abs(a) / Abs(b)
    ensures q > 0 ==> (a > 0) == (b > 0)
    ensures q < 0 ==> (a > 0) != (b > 0)
  {
    var m := Abs(a) / Abs(b);
    assert a == 0 ==> m == 0;
    if (a < 0) == (b < 0) then m else -m
  }

  /** The magnitude of the truncated quotient is the largest multiple of
      `|b|` that does not exceed `|a|`. */
  lemma TruncDivBounds(a: int, b: int)
    requires b != 0
    ensures Abs(TruncDiv(a, b)) * Abs(b) <= Abs(a) < (Abs(TruncDiv(a, b)) + 1) * Abs(b)
  {
    DivRoundsDown(Abs(a), Abs(b));
  }

  // ---------------------------------------------------------------------
  // Unsigned integers: u8 u16 u32 u64 u128
  // ---------------------------------------------------------------------

  /** Every integer type's `Tolerance` is 0, for both defaults. */
  const UnsignedTolerances: Tolerances<nat> := FromTolerance(0)
  const SignedTolerances: Tolerances<int> := FromTolerance(0)

  /** Larger minus smaller, so the subtraction never goes below zero. */
  function UnsignedAbsError(actual: nat, expected: nat): (r: ApproEqResult<nat>)
    ensures r.Distance?
    ensures actual <= expected ==> actual + r.value == expected
    ensures expected <= actual ==> expected + r.value == actual
    ensures r.value <= actual || r.value <= expected
  {
    Distance(if actual > expected then actual - expected else expected - actual)
  }

  function UnsignedRelError(actual: nat, expected: nat): (r: ApproEqResult<nat>)
    ensures r.Failure? <==> expected == 0
    ensures expected != 0 ==> r.Distance?
    ensures r.Failure? ==> r.error == DividedByZero
    ensures r.Distance? ==> r.value * expected <= Abs(actual - expected) < (r.value + 1) * expected
  {
    if expected == 0 then Failure(DividedByZero)
    else Distance((if actual > expected then actual - expected else expected - actual) / expected)
  }

  /** With the default tolerance 0, unsigned comparison is exact equality. */
  lemma UnsignedDefaultIsExactEquality(actual: nat, expected: nat)
    ensures AbsApproEq(UnsignedAbsError, NatLe, UnsignedTolerances, actual, expected) <==> actual == expected
  {
  }

  /** The default relative comparison passes when the difference is smaller
      than `expected` itself, because the quotient is rounded down. */
  lemma UnsignedRelDefault(actual: nat, expected: nat)
    ensures RelApproEq(UnsignedRelError, NatLe, UnsignedTolerances, actual, expected)
        <==> expected > 0 && Abs(actual - expected) < expected
  {
    if expected > 0 {
      var r := UnsignedRelError(actual, expected);
      assert r.value == 0 <==> Abs(actual - expected) < expected;
    }
  }

  // ---------------------------------------------------------------------
  // Signed integers: i8 i16 i32 i64 i128
  // ---------------------------------------------------------------------

  datatype SignedType = I8 | I16 | I32 | I64 | I128

  function MaxOf(t: SignedType): nat {
    match t
    case I8 => 0x7f
    case I16 => 0x7fff
    case I32 => 0x7fff_ffff
    case I64 => 0x7fff_ffff_ffff_ffff
    case I128 => 0x7fff_ffff_ffff_ffff_ffff_ffff_ffff_ffff
  }

  function MinOf(t: SignedType): int {
    -(MaxOf(t) as int) - 1
  }

  /** Two's-complement wrap-around into the range of `t`. */
  function Wrap(t: SignedType, x: int): (w: int)
    ensures MinOf(t) <= w <= MaxOf(t)
    ensures MinOf(t) <= x <= MaxOf(t) ==> w == x
  {
    var m := 2 * (MaxOf(t) + 1);
    (x - MinOf(t)) % m + MinOf(t)
  }

  /** `(self - expected).abs()` as built without overflow checks: both the
      subtraction and `abs` wrap around. */
  function SignedAbsErrorWrapping(t: SignedType, actual: int, expected: int): (r: ApproEqResult<int>)
    ensures r.Distance? && MinOf(t) <= r.value <= MaxOf(t)
    ensures Abs(actual - expected) <= MaxOf(t) ==> r.value == Abs(actual - expected)
  {
    Distance(Wrap(t, Abs(Wrap(t, actual - expected))))
  }

  /** For i8, 100 against -100 is reported 56 apart, and so passes a
      tolerance of 100. */
  lemma SignedAbsWrappingMisreports()
    ensures SignedAbsErrorWrapping(I8, 100, -100) == Distance(56)
    ensures AbsApproEqWithTol((a, b) => SignedAbsErrorWrapping(I8, a, b), IntLe, 100, -100, 100)
    ensures Abs(100 - -100) > 100
    ensures SignedAbsError(I8, 100, -100) == Failure(Overflow)
  {
  }

  /** Even the default tolerance 0 lets unequal values through: for i8, 127
      against -1 wraps to -128, and for i64, 0 against `i64::MIN` wraps to
      `i64::MIN`; both are below 0. The corrected form rejects both. */
  lemma SignedAbsWrappingPassesZeroDefault()
    ensures SignedAbsErrorWrapping(I8, 127, -1) == Distance(-128)
    ensures AbsApproEq((a, b) => SignedAbsErrorWrapping(I8, a, b), IntLe, SignedTolerances, 127, -1)
    ensures SignedAbsErrorWrapping(I64, 0, MinOf(I64)) == Distance(MinOf(I64))
    ensures AbsApproEq((a, b) => SignedAbsErrorWrapping(I64, a, b), IntLe, SignedTolerances, 0, MinOf(I64))
    ensures SignedAbsError(I8, 127, -1) == Failure(Overflow)
    ensures SignedAbsError(I64, 0, MinOf(I64)) == Failure(Overflow)
  {
    assert Wrap(I8, 128) == -128;
    assert Wrap(I64, -MinOf(I64)) == MinOf(I64);
  }

  /** `(self - expected).abs()`, reporting `Overflow` where the distance does
      not fit in `t`. */
  function SignedAbsError(t: SignedType, actual: int, expected: int): (r: ApproEqResult<int>)
    ensures r.Failure? <==> Abs(actual - expected) > MaxOf(t)
    ensures !r.NoDistance?
    ensures r.Failure? ==> r.error == Overflow
    ensures r.Distance? ==> r.value >= 0 && (r.value == actual - expected || r.value == expected - actual)
    ensures r.Distance? ==> r == SignedAbsErrorWrapping(t, actual, expected)
  {
    var d := Abs(actual - expected);
    if d > MaxOf(t) then Failure(Overflow) else Distance(d)
  }

  /** `(self - expected).abs() / expected`: the divisor keeps its sign, so a
      negative `expected` gives a distance of at most 0. */
  function SignedRelError(t: SignedType, actual: int, expected: int): (r: ApproEqResult<int>)
    ensures expected == 0 <==> r == Failure(DividedByZero)
    ensures expected != 0 ==> (r.Failure? <==> Abs(actual - expected) > MaxOf(t))
    ensures expected != 0 && Abs(actual - expected) <= MaxOf(t) ==> r.Distance?
    ensures r.Failure? ==> r.error == DividedByZero || r.error == Overflow
    ensures r.Distance? ==> Abs(r.value) * Abs(expected) <= Abs(actual - expected) < (Abs(r.value) + 1) * Abs(expected)
    ensures r.Distance? && expected > 0 ==> r.value >= 0
    ensures r.Distance? && expected < 0 ==> r.value <= 0
  {
    if expected == 0 then Failure(DividedByZero)
    else
      match SignedAbsError(t, actual, expected)
      case Distance(d) =>
        TruncDivBounds(d, expected);
        Distance(TruncDiv(d, expected))
      case Failure(err) => Failure(err)
      case NoDistance => NoDistance
  }

  function SignedAbsOf(t: SignedType): (int, int) -> ApproEqResult<int> {
    (a, b) => SignedAbsError(t, a, b)
  }

  function SignedRelOf(t: SignedType): (int, int) -> ApproEqResult<int> {
    (a, b) => SignedRelError(t, a, b)
  }

  /** With the default tolerance 0, the corrected signed comparison is exact
      equality (the as-written one is not: `SignedAbsWrappingPassesZeroDefault`). */
  lemma SignedDefaultIsExactEquality(t: SignedType, actual: int, expected: int)
    ensures AbsApproEq(SignedAbsOf(t), IntLe, SignedTolerances, actual, expected) <==> actual == expected
  {
  }

  /** A value compared with itself is 0 apart, and relatively 0 apart when
      it is not 0. */
  lemma SignedReflexive(t: SignedType, x: int)
    ensures SignedAbsError(t, x, x) == Distance(0)
    ensures x != 0 ==> SignedRelError(t, x, x) == Distance(0)
    ensures AbsApproEq(SignedAbsOf(t), IntLe, SignedTolerances, x, x)
  {
  }

  /** Against a negative `expected`, the default relative comparison passes
      for every `actual` whose distance fits the type. */
  lemma SignedRelNegativeExpectedPasses(t: SignedType, actual: int, expected: int)
    requires expected < 0 && Abs(actual - expected) <= MaxOf(t)
    ensures RelApproEq(SignedRelOf(t), IntLe, SignedTolerances, actual, expected)
  {
  }
}
