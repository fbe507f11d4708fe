# appro-eq: a Dafny model of the approximate-equality engine

This project models the engine of the Rust crate `appro_eq`. The crate computes an
*absolute* or *relative* error between an actual and an expected value. The result has
three outcomes: a distance (`Ok(Some(d))`), "no distance" (`Ok(None)`) or an error
(`Err(ApproEqError)`). A predicate layer turns that result into pass or fail against a
tolerance, which is either explicit or the distance type's default.

Modules:

- `ApproEq` (ApproEq.dfy): the error kinds and the tri-state `ApproEqResult` (`Distance`,
  `NoDistance`, `Failure`). It also holds the default tolerances, the four predicates and
  their negations, and the `max` reducer with its properties. The distance order
  (`PartialOrd`) is a parameter `le`. The `>` of `max` is its strict part,
  `le(m, i) && !le(i, m)`.
- `Containers` (Containers.dfy): slices and `Vec`, fixed-size arrays, `Option`, `Weak`, and
  the transparent wrappers `&`, `Rc`, `Arc`, `Cell` and `RefCell`. Each takes the element
  type's `abs_error` or `rel_error` as a function parameter, so one definition covers both.
- `Integers` (Integers.dfy): unsigned integers as `nat`, and signed integers as `int` with
  their type's width. Rust's truncating `/` is written out as `TruncDiv`.
- `Time` (Time.dfy): `Duration` as nanoseconds (`nat`) and `Instant` as a nanosecond
  reading (`int`).
- `Rational` (Rational.dfy): `Ratio<A>` as an exact `real`.
- `NdArray` (NdArray.dfy): an n-dimensional array as `(shape, data)`, with `data` in
  logical row-major order. The shape check is a method with a loop over the axes, as in
  the source. The file's local copy of `max` is an accumulator `fold`, proved equal to the
  library's `max`.

The properties about "the largest distance" need the distance order to be total and
transitive (`TotalPreorder`). That holds for the integer, duration and rational instances.

The integer `rel_error` uses Rust's integer `/`, which truncates toward zero; the model
follows it (`TruncDiv`). For unsigned integers this means the default relative comparison
passes whenever `|actual - expected| < expected` (`UnsignedRelDefault`).

## Model

| member | source | states |
|---|---|---|
| `ApproEq.FromTolerance` | src/lib.rs:130-142 | a type with one `Tolerance` gets it as both its absolute and its relative default |
| `ApproEq.AbsApproEqWithTol` | src/lib.rs:159-171 | a distance passes iff it is `<=` the tolerance; "no distance" always passes; an error always fails, whatever the tolerance |
| `ApproEq.AbsApproNeWithTol` | src/lib.rs:151-156 | is the exact negation of the absolute with-tolerance predicate |
| `ApproEq.AbsApproEq` | src/lib.rs:188-196 | is the absolute with-tolerance predicate at the type's default absolute tolerance |
| `ApproEq.ApproNeAbs` | src/lib.rs:180-185 | is the exact negation of the default absolute predicate |
| `ApproEq.RelApproEqWithTol` | src/lib.rs:213-225 | same three-way reading as the absolute one, applied to `rel_error` |
| `ApproEq.ApproNeRelWithTol` | src/lib.rs:205-210 | is the exact negation of the relative with-tolerance predicate |
| `ApproEq.RelApproEq` | src/lib.rs:242-250 | is the relative with-tolerance predicate at the type's default relative tolerance |
| `ApproEq.RelApproNe` | src/lib.rs:234-239 | is the exact negation of the default relative predicate |
| `ApproEq.WithinTolMonotone` | src/lib.rs:162-170 | a result that passes a tolerance also passes any looser one; only transitivity of the order is needed, so partial orders are covered |
| `ApproEq.Max` | src/lib.rs:411-427 | "no distance" iff every element is "no distance" (so empty gives `Ok(None)`); an error iff some element is an error; the result is always one of the elements or "no distance" |
| `ApproEq.MaxIsFirstFailure` | src/lib.rs:412-415 | when any element is an error, the result is the first error in iteration order |
| `ApproEq.MaxIsEarliestLargest` | src/lib.rs:416-425 | with no error and some distance, the result is the largest distance, and among equal largest ones the earliest |
| `ApproEq.MaxAtEarliestLargest` | src/lib.rs:416-425 | with no error, the result is the element at the earliest largest position, which is unique under a total order |
| `ApproEq.MaxOfSelfComparisons` | src/lib.rs:411-427 | when every combined result is the same distance `z` or "no distance", so is the maximum (reflexivity survives combination) |
| `ApproEq.MaxWithinTolIffAll` | src/lib.rs:411-427 | worst-case combination: the maximum passes a tolerance iff every element passes it |
| `Containers.SliceError` | src/lib.rs:429-471 | slices and `Vec`: different lengths give `LengthMismatch` whatever the elements; otherwise the result is `max` of the index-wise element errors; "no distance" iff every pair has none |
| `Containers.SliceWithinTolIffEveryElement` | src/lib.rs:430-471 | a sequence comparison passes iff the lengths agree and every element pair passes |
| `Containers.SliceSelfComparison` | src/lib.rs:430-471 | a slice compared with itself is `z` apart or has no distance whenever each element compared with itself is |
| `Containers.SignedSliceDefaultIsExactEquality` | src/lib.rs:430-471 | with the corrected signed `abs_error` (`SignedAbsError`), signed slices pass the default absolute comparison iff they are equal; as written, i8 `[127]` against `[-1]` passes (`SignedAbsWrappingPassesZeroDefault`) |
| `Containers.SliceExamples` | src/lib.rs:452-460 | `[1,2,3,100]` against `[1,2,3,0]` fails tolerance 1 because of one element; `[1,2,3]` against `[1,2]` fails every tolerance |
| `Containers.ArrayError` | src/lib.rs:487-512 | a fixed-size array is a slice whose length check cannot fail: same result as `SliceError`; empty gives `Ok(None)` |
| `Containers.OptionError` | src/lib.rs:514-534 | `None`/`None` gives `Ok(None)`; exactly one `None` gives `NonNumDifference`; `Some`/`Some` gives the inner result unchanged |
| `Containers.WeakError` | src/lib.rs:564-576 | a `Weak` behaves exactly as its upgraded `Option`: live/live gives the inner result, one dropped gives `NonNumDifference` |
| `Containers.WrapperError` | src/lib.rs:473-608 | `&`, `Rc`, `Arc`, `Cell` and `RefCell` give exactly the inner values' result |
| `Integers.TruncDiv` | src/lib.rs:368 | Rust's integer `/`: the quotient's magnitude is `abs(a) / abs(b)`, with a positive sign iff the operands have the same sign |
| `Integers.TruncDivBounds` | src/lib.rs:368 | the truncated quotient's magnitude `q` satisfies `q*abs(b) <= abs(a) < (q+1)*abs(b)` |
| `Integers.UnsignedAbsError` | src/lib.rs:388-393 | larger minus smaller is the exact distance in either order; it never underflows and never exceeds the larger input |
| `Integers.UnsignedRelError` | src/lib.rs:395-404 | `DividedByZero` iff `expected == 0`; otherwise always `Ok(Some(q))` with `q` the distance divided by `expected`, rounded down |
| `Integers.UnsignedDefaultIsExactEquality` | src/lib.rs:381-393 | with the default tolerance 0, unsigned absolute comparison is exact equality |
| `Integers.UnsignedRelDefault` | src/lib.rs:395-404 | the default unsigned relative comparison passes iff `expected > 0` and `abs(actual - expected) < expected` |
| `Integers.SignedAbsErrorWrapping` | src/lib.rs:355-360 | as built without overflow checks, the result stays in the type's range and equals the true distance whenever that distance fits |
| `Integers.SignedAbsWrappingMisreports` | src/lib.rs:357-359 | for i8, 100 against -100 is reported 56 apart and passes tolerance 100, though the true distance is 200 |
| `Integers.SignedAbsWrappingPassesZeroDefault` | src/lib.rs:347-360 | as written, the default tolerance 0 accepts unequal values: i8 127 against -1 wraps to -128, and i64 0 against `i64::MIN` wraps to `i64::MIN`; the corrected form gives `Overflow` for both |
| `Integers.SignedAbsError` | src/lib.rs:355-360 | `Overflow` iff the distance does not fit the type; otherwise always `Ok(Some(d))` with `d` the non-negative exact distance, equal to the as-written result |
| `Integers.SignedRelError` | src/lib.rs:362-371 | `DividedByZero` iff `expected == 0`; `Overflow` iff the distance does not fit; otherwise always `Ok(Some(q))` with `q` the distance divided by the signed `expected`, truncated toward zero, so its sign follows `expected` |
| `Integers.SignedDefaultIsExactEquality` | src/lib.rs:347-360 | with the default tolerance 0, the corrected signed absolute comparison (`SignedAbsError`) is exact equality; the as-written one is not (`SignedAbsWrappingPassesZeroDefault`) |
| `Integers.SignedReflexive` | src/lib.rs:355-371 | `abs_error(x, x)` is `Ok(Some(0))`, and so is `rel_error(x, x)` for non-zero `x` |
| `Integers.SignedRelNegativeExpectedPasses` | src/lib.rs:364-370 | against a negative `expected`, the default relative comparison passes for every `actual` whose distance fits |
| `Time.DurationAbsError` | src/lib.rs:653-662 | the exact distance between two durations, in either order |
| `Time.InstantAbsError` | src/lib.rs:626-635 | the exact distance between two instants as a non-negative duration, in either order |
| `Time.AbsErrorIsOrderIndependent` | src/lib.rs:626-662 | swapping the operands of the duration or instant `abs_error` does not change it |
| `Time.TimeDefaultAbs` | src/lib.rs:610-616 | the default absolute comparison of durations and of instants passes iff they are at most 1 s apart |
| `Time.DivDuration` | src/lib.rs:675 | `Duration / u32` panics iff the divisor is 0; otherwise it rounds down to whole nanoseconds |
| `Time.DurationRelErrorAsWritten` | src/lib.rs:664-679 | as written, it panics iff `0 < expected < 1 s`; otherwise it agrees with the corrected `rel_error` |
| `Time.DurationRelPanicsOnEqualHalfSeconds` | src/lib.rs:667-676 | 500 ms compared with itself panics as written, and gives `DividedByZero` when corrected |
| `Time.DurationRelError` | src/lib.rs:664-679 | `DividedByZero` iff `expected` has 0 or more than `u32::MAX` whole seconds (a zero `expected` included); otherwise always `Ok(Some(q))` with `q` the distance divided by those seconds, rounded down |
| `Time.DurationDefaultRel` | src/lib.rs:618-624 | the default relative comparison (1 ms) passes iff `expected` has 1 to `u32::MAX` whole seconds and the distance is below 1000001 ns per whole second |
| `Rational.RatioAbsError` | src/rational_impl.rs:22-31 | the exact, non-negative distance, in either order; 0 iff the values are equal |
| `Rational.RatioRelError` | src/rational_impl.rs:33-48 | `DividedByZero` iff `expected` is 0; otherwise always `Ok(Some(q))` with `q` the exact distance divided by `expected`, so its sign follows `expected` |
| `Rational.AbsErrorIsOrderIndependent` | src/rational_impl.rs:24-30 | swapping the operands does not change `abs_error` |
| `Rational.RatioDefaultIsExactEquality` | src/rational_impl.rs:15-31 | with the zero default tolerance, ratios compare by exact equality |
| `Rational.RatioRelReflexive` | src/rational_impl.rs:34-47 | a non-zero ratio is relatively `Ok(Some(0))` from itself and passes the default relative predicate |
| `Rational.RatioRelNegativeExpectedPasses` | src/rational_impl.rs:38-46 | against a negative `expected`, the default relative comparison passes for every `actual` |
| `Rational.RatioMinDiff` | tests/lib.rs:507-587 | 1/1000 against 1/1001 passes absolute tolerance 1/10000 but not 1/10^9, and passes relative tolerance 1 but not 1/10^9 |
| `NdArray.LocalMaxIsMax` | src/ndarray_impl.rs:12-31 | the file's local `max` fold computes exactly the library's `max` |
| `NdArray.NdError` | src/ndarray_impl.rs:33-69 | a different number of axes or any different axis extent gives `LengthMismatch` whatever the elements; equal shapes give `max` of the element errors in iteration order |
| `NdArray.SelfComparisonPasses` | src/ndarray_impl.rs:38-49 | for any element type, an array compared with itself is `z` apart or has no distance whenever each element compared with itself is, and then passes every tolerance `z` passes |
| `NdArray.UnsignedSelfComparisonPasses` | src/ndarray_impl.rs:38-49 | an array of unsigned integers compared with itself gives `Ok(Some(0))` (or `Ok(None)` when empty) and passes the default predicate |

## Findings

| source | as written | input that shows it | evidently intended | confidence | as-written member | corrected member |
|---|---|---|---|---|---|---|
| src/lib.rs:357-359 | signed `abs_error` computes `(self - expected).abs()` in the operand type and never returns `Overflow`; without overflow checks both operations wrap around | i8 `abs_error(127, -1)` gives `Ok(Some(-128))`, so it passes the default tolerance 0 although the values differ; likewise i8 `abs_error(100, -100)` gives `Ok(Some(56))` and passes tolerance 100 (with overflow checks, both panic) | return `Err(Overflow)` when the distance does not fit the type | medium, not executed | `Integers.SignedAbsWrappingPassesZeroDefault` | `Integers.SignedAbsError` |
| src/lib.rs:667-676 | `Duration::rel_error` rejects only a zero `expected` and one over `u32::MAX` seconds, then divides by `expected.as_secs() as u32` | `rel_error(500 ms, 500 ms)`: `as_secs()` is 0 and `Duration / 0` panics | return `Err(DividedByZero)` whenever `as_secs()` is 0 | high, not executed | `Time.DurationRelErrorAsWritten` | `Time.DurationRelError` |

## Left out

- The `f32`/`f64` impls and the cross-precision `f32`/`f64` pairs (src/lib.rs:252-342) are not modelled. They are floating-point arithmetic with rounding and `as f32` narrowing.
- Complex numbers (src/complex_impl.rs) are not modelled: `sqrt` and `norm` are floating-point.
- `SystemTime::abs_error` (src/lib.rs:637-651) is not modelled, because it calls the system clock. `ComponentError` is kept as a constructor whose cause is an opaque string.
- The assertion macros (src/assert.rs) are not modelled. They format panic messages and switch off in release builds.
- The `Display`/`description` strings of `ApproEqError` (src/lib.rs:74-96) are not modelled.
- Reference counting, liveness behind `Rc`/`Arc`/`Weak`, and `RefCell` borrow panics are not modelled. A `Weak` is just its upgraded `Option`, and a `Cell` read is a plain value, so concurrent mutation between the two reads is outside the model.
- Integer widths of unsigned types are not modelled. Larger-minus-smaller and the division never leave the type's range.
- `Integers.SignedAbsError`: the signed members take any `int`, not only values of the type `t`. Their contracts hold for every integer, so in particular for the type's real values; nothing narrows the operands to the range of `t`.
- `Integers.SignedRelError`: uses the corrected overflow check of `Integers.SignedAbsError`. The as-written wrap-around before the division is modelled only for `abs_error`.
- `Time.DivDuration`: rounds the total nanoseconds down in one step. The standard library divides seconds and sub-second nanoseconds separately, which can give 1 ns less.
- `Duration` is unbounded here. The real type's `u64` seconds limit is not modelled; the distance never exceeds the larger operand.
- `Ratio<A>` is an exact `real`. Overflow of the integer type `A` inside the rational arithmetic is not modelled.
- `NdArray.NdError`: `data` is the logical iteration order. Strides and memory layout are not modelled, and neither is the static dimension type, which makes the axis-count check unreachable for fixed-dimension arrays.
- `ApproEq.MaxIsEarliestLargest`: stated only for a total, transitive distance order. For a partial order such as floats with NaN, `max` still returns one of its inputs (`ApproEq.Max`), but "the largest" is not defined.
