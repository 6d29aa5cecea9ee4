/** Floating-point values as the pipeline sees them: either a real number or NaN.

    Every column cell of the data frame is a `Float`. NaN enters through missing
    inputs and through divisions by zero, and it propagates through arithmetic the
    way IEEE 754 arithmetic does. Comparisons follow Python: any comparison with
    NaN is false. Rounding, overflow and infinities are not modelled.
 */
module Floats {

  datatype Float = NaN | Num(val: real)

  function Add(x: Float, y: Float): Float {
    if x.Num? && y.Num? then Num(x.val + y.val) else NaN
  }

  function Sub(x: Float, y: Float): Float {
    if x.Num? && y.Num? then Num(x.val - y.val) else NaN
  }

  function Mul(x: Float, y: Float): Float {
    if x.Num? && y.Num? then Num(x.val * y.val) else NaN
  }

  /** Division by zero is undefined (numpy scalars yield NaN or an infinity;
      both are collapsed into NaN here). */
  function Div(x: Float, y: Float): Float {
    if x.Num? && y.Num? && y.val != 0.0 then Num(x.val / y.val) else NaN
  }

  /** The absolute value of a real. */
  function Magnitude(x: real): real {
    if x < 0.0 then -x else x
  }

  function Abs(x: Float): Float {
    if x.NaN? then NaN else if x.val < 0.0 then Num(-x.val) else x
  }

  /** Applies a real function to a defined value; NaN goes through unchanged. */
  function Apply(f: real -> real, x: Float): Float {
    if x.Num? then Num(f(x.val)) else NaN
  }

  /** Python's `x <= y`: false as soon as one side is NaN. */
  predicate Le(x: Float, y: Float) {
    x.Num? && y.Num? && x.val <= y.val
  }

  /** Python's `x > y`: false as soon as one side is NaN. */
  predicate Gt(x: Float, y: Float) {
    x.Num? && y.Num? && x.val > y.val
  }

  /** Python's `x == y` on floats: NaN equals nothing, itself included. */
  predicate Eq(x: Float, y: Float) {
    x.Num? && y.Num? && x.val == y.val
  }

  /** Python's built-in `max(x, y)`: the second argument wins only when it is
      strictly greater, so `max(NaN, 0)` is NaN while `max(0, NaN)` is 0. */
  function Max(x: Float, y: Float): (r: Float)
    ensures r == x || r == y
    ensures x.Num? && y.Num? ==> r.val >= x.val && r.val >= y.val
    ensures x.NaN? ==> r.NaN?
  {
    if Gt(y, x) then y else x
  }

  /** Scaling a non-negative quantity by a factor in [0, 1] keeps it in [0, a]. */
  lemma ScaleByFraction(a: real, f: real)
    requires a >= 0.0 && 0.0 <= f <= 1.0
    ensures 0.0 <= a * f <= a
  {
    assert a * (1.0 - f) >= 0.0;
  }

  /** Scaling a non-negative quantity by a factor in [-1, 1] keeps it in [-a, a]. */
  lemma ScaleBySignedFraction(a: real, f: real)
    requires a >= 0.0 && -1.0 <= f <= 1.0
    ensures -a <= a * f <= a
  {
    assert a * (1.0 - f) >= 0.0;
    assert a * (1.0 + f) >= 0.0;
  }

  /** Scaling by a factor in [-1, 1] never increases the magnitude. */
  lemma AbsOfScaledAtMost(a: real, f: real)
    requires -1.0 <= f <= 1.0
    ensures Abs(Num(a * f)).Num? && Abs(Num(a * f)).val <= Magnitude(a)
  {
    var p := a * f;
    var b := Magnitude(a);
    ScaleBySignedFraction(b, f);
    assert p == b * f || p == -(b * f);
  }

  /** Multiplying by a non-negative number keeps a weak order. */
  lemma MultiplyByNonNegative(p: real, x: real, y: real)
    requires p >= 0.0 && x <= y
    ensures p * x <= p * y
  {
    assert p * (y - x) >= 0.0;
  }

  /** Multiplying by a positive number keeps a strict order. */
  lemma MultiplyByPositive(p: real, x: real, y: real)
    requires p > 0.0 && x < y
    ensures p * x < p * y
  {
    assert p * (y - x) > 0.0;
  }

  /** A non-zero number divided by itself is 1. */
  lemma DivideBySelf(d: real)
    requires d != 0.0
    ensures d / d == 1.0
  {
  }

  /** Dividing by a positive number keeps a strict order. */
  lemma DivideByPositive(a: real, b: real, d: real)
    requires d > 0.0 && a < b
    ensures a / d < b / d
  {
    assert b / d - a / d == (b - a) / d;
  }
}
