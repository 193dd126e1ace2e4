/**
 * The tail-region policy shared by normal_cdf, normal_cdf_log and
 * normal_ccdf_log, and the per-element value and derivative terms of the three.
 *
 * All three classify the scaled difference x = (y - mu) / (sigma * sqrt 2)
 * against the same three thresholds, in the same order, and pick a saturated
 * constant, an `erfc` form or an `erf` form accordingly.
 */
module TailRegion {
  import opened Elementary
  import opened Accumulate

  datatype Region =
    | DeepLeft        // x < -37.5 / sqrt 2: the lower tail mass underflows
    | LeftTail        // x < -5 / sqrt 2: evaluated through erfc
    | RightSaturated  // x > 8.25 / sqrt 2: the upper tail mass underflows
    | Central         // otherwise: evaluated through erf

  /** The classifier: the thresholds are tested in this order. */
  function Classify(L: Libm, x: real): (r: Region)
    ensures r == DeepLeft <==> x < -37.5 * L.invSqrt2
    ensures r == LeftTail ==> -37.5 * L.invSqrt2 <= x < -5.0 * L.invSqrt2
    ensures r == RightSaturated ==> x > 8.25 * L.invSqrt2
    ensures r == Central ==> -5.0 * L.invSqrt2 <= x <= 8.25 * L.invSqrt2
  {
    if x < -37.5 * L.invSqrt2 then DeepLeft
    else if x < -5.0 * L.invSqrt2 then LeftTail
    else if x > 8.25 * L.invSqrt2 then RightSaturated
    else Central
  }

  /** The scaled difference every cdf variant classifies. */
  function ScaledDiff(L: Libm, y: real, mu: real, sigma: real): (x: real)
    requires L.Valid() && sigma > 0.0
    ensures x * L.sqrt2 * sigma == y - mu
  {
    (y - mu) / (sigma * L.sqrt2)
  }

  /** normal_cdf's per-element factor `cdf_`. */
  function CdfFactor(L: Libm, x: real): (r: real)
    ensures 2.0 * r == OnePlusErf(L, x)
    ensures x < -37.5 * L.invSqrt2 ==> r == 0.0
    ensures L.Valid() && x > 8.25 * L.invSqrt2 ==> r == 1.0
  {
    match Classify(L, x)
    case DeepLeft => 0.0
    case LeftTail => 0.5 * L.erfc(-x)
    case RightSaturated => 1.0
    case Central => 0.5 * (1.0 + L.erf(x))
  }

  /** normal_cdf_log's per-element `one_p_erf`, the quantity 1 + erf(x). */
  function OnePlusErf(L: Libm, x: real): (r: real)
    ensures r + OneMinusErf(L, x) == 2.0
    ensures x < -37.5 * L.invSqrt2 ==> r == 0.0
    ensures L.Valid() && x > 8.25 * L.invSqrt2 ==> r == 2.0
  {
    match Classify(L, x)
    case DeepLeft => 0.0
    case LeftTail => L.erfc(-x)
    case RightSaturated => 2.0
    case Central => 1.0 + L.erf(x)
  }

  /** normal_ccdf_log's per-element `one_m_erf`, the quantity 1 - erf(x). */
  function OneMinusErf(L: Libm, x: real): (r: real)
    ensures x < -37.5 * L.invSqrt2 ==> r == 2.0
    ensures -37.5 * L.invSqrt2 <= x < -5.0 * L.invSqrt2 ==> r == 2.0 - L.erfc(-x)
    ensures L.Valid() && -5.0 * L.invSqrt2 <= x <= 8.25 * L.invSqrt2 ==> r == 1.0 - L.erf(x)
    ensures L.Valid() && x > 8.25 * L.invSqrt2 ==> r == 0.0
  {
    match Classify(L, x)
    case DeepLeft => 2.0
    case LeftTail => 2.0 - L.erfc(-x)
    case RightSaturated => 0.0
    case Central => 1.0 - L.erf(x)
  }

  /** The Gaussian kernel sqrt(2 / pi) * exp(-x * x) every `rep_deriv` is built from. */
  function Kernel(L: Libm, x: real): real
  {
    L.sqrtTwoOverPi * L.exp(-x * x)
  }

  /**
   * The contributions of one element with scaled difference `x` and scale
   * `sigma`; each divides by its variant's tail quantity, which must not be 0.
   */
  predicate CdfDefinedAt(L: Libm, x: real, sigma: real)
  {
    L.Valid() && sigma > 0.0 && CdfFactor(L, x) != 0.0
  }

  predicate CcdfDefinedAt(L: Libm, x: real, sigma: real)
  {
    L.Valid() && sigma > 0.0 && OneMinusErf(L, x) != 0.0
  }

  /** normal_cdf's `rep_deriv`. */
  function CdfRepDeriv(L: Libm, x: real, sigma: real): (r: real)
    requires CdfDefinedAt(L, x, sigma)
    ensures r == CdfLogRepDeriv(L, x, sigma) / sigma
  {
    HalfCancels(Kernel(L, x), CdfFactor(L, x), OnePlusErf(L, x), sigma, x, L.sqrt2);
    0.5 * Kernel(L, x) / CdfFactor(L, x) / sigma
  }

  /** normal_cdf_log's `rep_deriv`. */
  function CdfLogRepDeriv(L: Libm, x: real, sigma: real): (r: real)
    requires CdfDefinedAt(L, x, sigma)
    ensures r * OnePlusErf(L, x) == Kernel(L, x)
  {
    Kernel(L, x) / OnePlusErf(L, x)
  }

  /** normal_ccdf_log's `rep_deriv`. */
  function CcdfLogRepDeriv(L: Libm, x: real, sigma: real): (r: real)
    requires CcdfDefinedAt(L, x, sigma)
    ensures r * OneMinusErf(L, x) == Kernel(L, x)
  {
    Kernel(L, x) / OneMinusErf(L, x)
  }

  /** normal_cdf's contributions before the product-rule post-pass. */
  function CdfContribution(L: Libm, x: real, sigma: real): (c: Contribution)
    requires CdfDefinedAt(L, x, sigma)
    ensures c.dmu == -c.dy && c.dsigma == -(c.dy * (x * L.sqrt2))
    ensures c == CdfLogContribution(L, x, sigma)
  {
    QuotientTimes(CdfLogRepDeriv(L, x, sigma), sigma, x, L.sqrt2);
    Contribution(
      CdfRepDeriv(L, x, sigma),
      -CdfRepDeriv(L, x, sigma),
      -(CdfRepDeriv(L, x, sigma) * x * L.sqrt2))
  }

  /** normal_cdf_log's contributions. */
  function CdfLogContribution(L: Libm, x: real, sigma: real): (c: Contribution)
    requires CdfDefinedAt(L, x, sigma)
    ensures c.dmu == -c.dy && c.dsigma == -(c.dy * (x * L.sqrt2))
  {
    QuotientTimes(CdfLogRepDeriv(L, x, sigma), sigma, x, L.sqrt2);
    Contribution(
      CdfLogRepDeriv(L, x, sigma) / sigma,
      -(CdfLogRepDeriv(L, x, sigma) / sigma),
      -(CdfLogRepDeriv(L, x, sigma) * x * L.sqrt2 / sigma))
  }

  /** normal_ccdf_log's contributions. */
  function CcdfLogContribution(L: Libm, x: real, sigma: real): (c: Contribution)
    requires CcdfDefinedAt(L, x, sigma)
    ensures c.dmu == -c.dy && c.dsigma == -(c.dy * (x * L.sqrt2))
  {
    QuotientTimes(CcdfLogRepDeriv(L, x, sigma), sigma, x, L.sqrt2);
    Contribution(
      -(CcdfLogRepDeriv(L, x, sigma) / sigma),
      CcdfLogRepDeriv(L, x, sigma) / sigma,
      CcdfLogRepDeriv(L, x, sigma) * x * L.sqrt2 / sigma)
  }

  /** normal_cdf_log's per-element summand `log_half + log(one_p_erf)`. */
  function CdfLogTerm(L: Libm, x: real): real
  {
    L.log(0.5) + L.log(OnePlusErf(L, x))
  }

  /** normal_ccdf_log's per-element summand `log_half + log(one_m_erf)`. */
  function CcdfLogTerm(L: Libm, x: real): real
  {
    L.log(0.5) + L.log(OneMinusErf(L, x))
  }

  // ---------------------------------------------------------------------------
  // Properties of the policy, for every x and whatever erf and erfc are.

  /** The four regions are the four intervals cut by the ordered thresholds -37.5c < -5c < 8.25c. */
  lemma ClassifyIntervals(L: Libm, x: real)
    requires L.Valid()
    ensures -37.5 * L.invSqrt2 < -5.0 * L.invSqrt2 < 8.25 * L.invSqrt2
    ensures Classify(L, x) == DeepLeft <==> x < -37.5 * L.invSqrt2
    ensures Classify(L, x) == LeftTail <==> -37.5 * L.invSqrt2 <= x < -5.0 * L.invSqrt2
    ensures Classify(L, x) == Central <==> -5.0 * L.invSqrt2 <= x <= 8.25 * L.invSqrt2
    ensures Classify(L, x) == RightSaturated <==> 8.25 * L.invSqrt2 < x
  {
  }

  /**
   * In every region normal_cdf's factor is half of normal_cdf_log's 1 + erf,
   * and 1 + erf and normal_ccdf_log's 1 - erf add up to 2.
   */
  lemma TailIdentities(L: Libm, x: real)
    ensures CdfFactor(L, x) == 0.5 * OnePlusErf(L, x)
    ensures OnePlusErf(L, x) + OneMinusErf(L, x) == 2.0
  {
  }

  /** The saturated regions give the saturated constants of all three quantities. */
  lemma SaturatedRegions(L: Libm, x: real)
    requires L.Valid()
    ensures x < -37.5 * L.invSqrt2 ==> CdfFactor(L, x) == 0.0 && OnePlusErf(L, x) == 0.0 && OneMinusErf(L, x) == 2.0
    ensures x > 8.25 * L.invSqrt2 ==> CdfFactor(L, x) == 1.0 && OnePlusErf(L, x) == 2.0 && OneMinusErf(L, x) == 0.0
  {
  }

  /**
   * Each variant's mu contribution is the exact negation of its y contribution,
   * and its sigma contribution is the y contribution times -(y - mu) / sigma.
   */
  lemma CdfContributionShape(L: Libm, y: real, mu: real, sigma: real, x: real)
    requires L.Valid() && sigma > 0.0 && x == ScaledDiff(L, y, mu, sigma)
    requires CdfDefinedAt(L, x, sigma)
    ensures var c := CdfContribution(L, x, sigma);
      c.dmu == -c.dy && c.dsigma == -(c.dy * (y - mu) / sigma)
  {
    var rep := CdfRepDeriv(L, x, sigma);
    calc {
      rep * x * L.sqrt2;
      rep * (x * L.sqrt2 * sigma) / sigma;
      rep * (y - mu) / sigma;
    }
  }

  lemma CdfLogContributionShape(L: Libm, y: real, mu: real, sigma: real, x: real)
    requires L.Valid() && sigma > 0.0 && x == ScaledDiff(L, y, mu, sigma)
    requires CdfDefinedAt(L, x, sigma)
    ensures var c := CdfLogContribution(L, x, sigma);
      c.dmu == -c.dy && c.dsigma == -(c.dy * (y - mu) / sigma)
  {
    var rep := CdfLogRepDeriv(L, x, sigma);
    calc {
      rep * x * L.sqrt2 / sigma;
      rep / sigma * (x * L.sqrt2 * sigma) / sigma;
      rep / sigma * (y - mu) / sigma;
    }
  }

  lemma CcdfLogContributionShape(L: Libm, y: real, mu: real, sigma: real, x: real)
    requires L.Valid() && sigma > 0.0 && x == ScaledDiff(L, y, mu, sigma)
    requires CcdfDefinedAt(L, x, sigma)
    ensures var c := CcdfLogContribution(L, x, sigma);
      c.dmu == -c.dy && c.dsigma == -(c.dy * (y - mu) / sigma)
  {
    var rep := CcdfLogRepDeriv(L, x, sigma);
    calc {
      rep * x * L.sqrt2 / sigma;
      rep / sigma * (x * L.sqrt2 * sigma) / sigma;
      rep / sigma * (y - mu) / sigma;
    }
  }

  /**
   * normal_cdf's contribution (before the post-pass) equals normal_cdf_log's:
   * dividing by cdf_ = (1 + erf) / 2 after halving is dividing by 1 + erf.
   */
  lemma CdfContributionIsCdfLogContribution(L: Libm, x: real, sigma: real)
    requires CdfDefinedAt(L, x, sigma)
    ensures CdfContribution(L, x, sigma) == CdfLogContribution(L, x, sigma)
  {
    TailIdentities(L, x);
    HalfCancels(Kernel(L, x), CdfFactor(L, x), OnePlusErf(L, x), sigma, x, L.sqrt2);
    assert CdfRepDeriv(L, x, sigma) == CdfLogRepDeriv(L, x, sigma) / sigma;
    assert CdfRepDeriv(L, x, sigma) * x * L.sqrt2 == CdfLogRepDeriv(L, x, sigma) * x * L.sqrt2 / sigma;
  }

  /** Dividing before or after the two further factors gives the same product. */
  lemma QuotientTimes(a: real, s: real, t: real, u: real)
    requires s != 0.0
    ensures a * t * u / s == a / s * (t * u)
  {
  }

  /** Halving the numerator and the denominator leaves the quotient unchanged. */
  lemma HalfCancels(g: real, c: real, f: real, s: real, t: real, u: real)
    requires c == 0.5 * f && f != 0.0 && s != 0.0
    ensures 0.5 * g / c / s == g / f / s
    ensures 0.5 * g / c / s * t * u == g / f * t * u / s
  {
    assert 0.5 * g / c == g / f;
  }

  /**
   * normal_cdf_log and normal_ccdf_log contribute exact negations of the same
   * term sqrt(2/pi) exp(-x^2) / sigma, divided by 1 + erf and 1 - erf respectively.
   */
  lemma CdfLogCcdfLogMirror(L: Libm, x: real, sigma: real)
    requires CdfDefinedAt(L, x, sigma) && CcdfDefinedAt(L, x, sigma)
    ensures var c := CdfLogContribution(L, x, sigma);
      var d := CcdfLogContribution(L, x, sigma);
      && c.dy * OnePlusErf(L, x) == -(d.dy * OneMinusErf(L, x))
      && c.dmu * OnePlusErf(L, x) == -(d.dmu * OneMinusErf(L, x))
      && c.dsigma * OnePlusErf(L, x) == -(d.dsigma * OneMinusErf(L, x))
  {
    TailIdentities(L, x);
    var e := Kernel(L, x);
    assert CdfLogRepDeriv(L, x, sigma) == e / OnePlusErf(L, x);
    assert CcdfLogRepDeriv(L, x, sigma) == e / OneMinusErf(L, x);
    var p := OnePlusErf(L, x);
    var m := OneMinusErf(L, x);
    var t := x * L.sqrt2;
    DivMul(e, p, sigma, t);
    DivMul(e, m, sigma, t);
  }

  /** (e / q / s) * q == e / s, and likewise with a further factor t. */
  lemma DivMul(e: real, q: real, s: real, t: real)
    requires q != 0.0 && s != 0.0
    ensures e / q / s * q == e / s
    ensures e / q * t / s * q == e * t / s
  {
    assert e / q * q == e;
  }
}
