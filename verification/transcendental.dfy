/** The floating-point library functions the pipeline calls (`math.e ** x`,
    `math.log`, `math.cos`, `math.sin`, `x ** y`, `math.pi`), left uninterpreted.

    They are fields of a record of function values; the only facts known about
    them are the ones collected in `Lawful`, all true of the real functions.
    Trigonometric functions take degrees: the source always converts with
    `numpy.radians` first, so `cosDeg(d)` stands for `math.cos(numpy.radians(d))`.
 */
module Transcendental {

  type Positive = x: real | x > 0.0 witness 1.0

  datatype Maths = Maths(
    exp: real -> real,
    ln: real -> real,
    cosDeg: real -> real,
    sinDeg: real -> real,
    pow: (real, real) -> real,
    pi: Positive)
  {
    /** The minimal facts used by the proofs. */
    ghost predicate Lawful() {
      // the exponential is positive, strictly increasing and exp(0) = 1
      && (forall x :: exp(x) > 0.0)
      && (forall x, y :: x < y ==> exp(x) < exp(y))
      && exp(0.0) == 1.0
      // ln(1) = 0
      && ln(1.0) == 0.0
      // cosine lies in [-1, 1] and falls strictly from 1 to -1 over [0, 180] degrees
      && (forall d :: -1.0 <= cosDeg(d) <= 1.0)
      && cosDeg(0.0) == 1.0
      && cosDeg(90.0) == 0.0
      && cosDeg(180.0) == -1.0
      && (forall d, e :: 0.0 <= d < e <= 180.0 ==> cosDeg(e) < cosDeg(d))
      && sinDeg(0.0) == 0.0
      // a power of a positive base is positive, and 1 to any power is 1
      && (forall x, y :: x > 0.0 ==> pow(x, y) > 0.0)
      && (forall y :: pow(1.0, y) == 1.0)
    }

    /** `numpy.radians` */
    function Radians(deg: real): real {
      deg * pi / 180.0
    }
  }

  /** A stand-in exponential: 1 + x above zero, 1 / (1 - x) below. */
  function WitnessExp(x: real): (r: real)
    ensures r > 0.0
  {
    if x >= 0.0 then 1.0 + x else 1.0 / (1.0 - x)
  }

  lemma WitnessExpIncreasing(x: real, y: real)
    requires x < y
    ensures WitnessExp(x) < WitnessExp(y)
  {
    if y < 0.0 {
      var a, b := 1.0 - x, 1.0 - y;
      assert a > b > 1.0;
      assert 1.0 / b - 1.0 / a == (a - b) / (a * b);
      assert (a - b) / (a * b) > 0.0;
    } else if x < 0.0 {
      assert 1.0 / (1.0 - x) < 1.0 by {
        assert (1.0 - x) * (1.0 / (1.0 - x)) == 1.0;
      }
    }
  }

  /** A stand-in cosine in degrees: linear from 1 at 0 to -1 at 180, constant outside. */
  function WitnessCos(d: real): real {
    if d <= 0.0 then 1.0 else if d >= 180.0 then -1.0 else 1.0 - d / 90.0
  }

  /** The facts in `Lawful` are consistent: some choice of functions meets all of them. */
  function Witness(): (m: Maths)
    ensures m.Lawful()
  {
    forall x, y | x < y ensures WitnessExp(x) < WitnessExp(y) {
      WitnessExpIncreasing(x, y);
    }
    Maths(WitnessExp, x => x - 1.0, WitnessCos, d => 0.0, (x, y) => 1.0, 3.0)
  }
}
