/**
 * The elementary functions and constants the evaluators call. Their numerics
 * are not modelled: each is an arbitrary function or constant supplied by the
 * caller, so every property proved about the evaluators holds whatever `erf`,
 * `erfc`, `exp` and `log` compute.
 */
module Elementary {

  datatype Libm = Libm(
    erf: real -> real,
    erfc: real -> real,
    exp: real -> real,
    log: real -> real,
    sqrt2: real,             // SQRT_2
    invSqrt2: real,          // INV_SQRT_2
    sqrtTwoOverPi: real,     // sqrt(2 / pi)
    negLogSqrtTwoPi: real)   // NEG_LOG_SQRT_TWO_PI
  {
    /** The only facts used about the constants: the square-root-of-two pair is positive. */
    predicate Valid()
    {
      sqrt2 > 0.0 && invSqrt2 > 0.0
    }
  }

  /** `pow(x, k)` for a whole exponent: the k-fold product of x. */
  function Pow(x: real, k: nat): (r: real)
    ensures x > 0.0 ==> r > 0.0
    ensures k == 1 ==> r == x
  {
    if k == 0 then 1.0 else x * Pow(x, k - 1)
  }
}
