/**
 * normal_cdf, normal_cdf_log and normal_ccdf_log: the normal cumulative
 * distribution function, its logarithm and the logarithm of its complement,
 * each over the broadcast elements of (y, mu, sigma), with the partial
 * derivatives with respect to the tracked operands.
 *
 * The three share one loop shape and differ in the per-element term (the
 * factor `cdf_`, or `log_half + log(one_p_erf)`, or `log_half +
 * log(one_m_erf)`), in how the terms are combined (product or sum), in the
 * per-element contributions, and in normal_cdf's product-rule post-pass.
 * A `Variant` names which one a shared definition is about.
 */
module NormalCdf {
  import opened Broadcast
  import opened Accumulate
  import opened Elementary
  import opened TailRegion

  datatype Variant = Cdf | CdfLog | CcdfLog

  // ---------------------------------------------------------------------------
  // One element

  /** The per-element term the loop combines into the result. */
  function Term(v: Variant, L: Libm, x: real): real
  {
    match v
    case Cdf => CdfFactor(L, x)
    case CdfLog => CdfLogTerm(L, x)
    case CcdfLog => CcdfLogTerm(L, x)
  }

  /** The element's derivative contributions are defined: its tail quantity is not 0. */
  predicate DefinedAt(v: Variant, L: Libm, x: real, sigma: real)
  {
    if v == CcdfLog then CcdfDefinedAt(L, x, sigma) else CdfDefinedAt(L, x, sigma)
  }

  function ContributionAt(v: Variant, L: Libm, x: real, sigma: real): Contribution
    requires DefinedAt(v, L, x, sigma)
  {
    match v
    case Cdf => CdfContribution(L, x, sigma)
    case CdfLog => CdfLogContribution(L, x, sigma)
    case CcdfLog => CcdfLogContribution(L, x, sigma)
  }

  // ---------------------------------------------------------------------------
  // The whole call

  predicate Readable3(y: Arg, mu: Arg, sigma: Arg, N: nat)
  {
    Covers(y, N) && Covers(mu, N) && Covers(sigma, N)
  }

  /** The scaled differences of the first `N` broadcast elements. */
  function ScaledDiffs(L: Libm, y: Arg, mu: Arg, sigma: Arg, N: nat): (xs: seq<real>)
    requires L.Valid() && Positive(sigma) && Readable3(y, mu, sigma, N)
    ensures |xs| == N
  {
    seq(N, n requires 0 <= n < N => ScaledDiff(L, At(y, n), At(mu, n), At(sigma, n)))
  }

  function Terms(v: Variant, L: Libm, xs: seq<real>): (ts: seq<real>)
    ensures |ts| == |xs|
  {
    seq(|xs|, n requires 0 <= n < |xs| => Term(v, L, xs[n]))
  }

  /** The result before the first element: 1 for the cdf, 0 for the logarithms. */
  function Unit(v: Variant): real
  {
    if v == Cdf then 1.0 else 0.0
  }

  /** The terms combined as the loop combines them: a product for the cdf, a sum otherwise. */
  function Combined(v: Variant, ts: seq<real>): real
  {
    if v == Cdf then Product(ts) else Sum(ts)
  }

  /** Every element's contributions are defined. */
  predicate AllDefined(v: Variant, L: Libm, xs: seq<real>, sigma: Arg)
  {
    Covers(sigma, |xs|) && forall n :: 0 <= n < |xs| ==> DefinedAt(v, L, xs[n], At(sigma, n))
  }

  function Contributions(v: Variant, L: Libm, xs: seq<real>, sigma: Arg): (cs: seq<Contribution>)
    requires AllDefined(v, L, xs, sigma)
    ensures |cs| == |xs|
  {
    seq(|xs|, n requires 0 <= n < |xs| => ContributionAt(v, L, xs[n], At(sigma, n)))
  }

  /** Every check of the three evaluators passes. */
  predicate Validated(y: Arg, mu: Arg, sigma: Arg)
  {
    !AnyEmpty([y, mu, sigma]) && Positive(sigma) && ConsistentSizes([y, mu, sigma])
  }

  /**
   * When the checks pass and some operand is tracked, every element's tail
   * quantity is non-zero, so the derivatives are finite.
   */
  predicate DerivativesDefined(v: Variant, L: Libm, y: Arg, mu: Arg, sigma: Arg)
  {
    L.Valid() &&
    (Validated(y, mu, sigma) && AnyTracked([y, mu, sigma]) ==>
      (Covers3(y, mu, sigma);
       AllDefined(v, L, ScaledDiffs(L, y, mu, sigma, MaxSize([y, mu, sigma])), sigma)))
  }

  /**
   * A derivative buffer `d` at the end of the call: normal_cdf's post-pass
   * multiplies a tracked operand's buffer by the final cdf; every other
   * buffer is returned as the loop left it.
   */
  function Finished(v: Variant, a: Arg, d: seq<real>, value: real): seq<real>
  {
    if v == Cdf && a.tracked then Scale(d, value) else d
  }

  /**
   * The outcome of normal_cdf, normal_cdf_log or normal_ccdf_log on (y, mu,
   * sigma): an empty argument returns the unit before any check; sigma must
   * be positive and the sizes consistent; otherwise the combined terms, with
   * one buffer per operand (all zero when nothing is tracked).
   */
  function Evaluate(v: Variant, L: Libm, y: Arg, mu: Arg, sigma: Arg): (r: Outcome)
    requires DerivativesDefined(v, L, y, mu, sigma)
    ensures r.DomainError? <==> !AnyEmpty([y, mu, sigma]) && !Positive(sigma)
    ensures r.InconsistentSizes?
        <==> !AnyEmpty([y, mu, sigma]) && Positive(sigma) && !ConsistentSizes([y, mu, sigma])
    ensures r.Ok? && r.partials == [] ==> r.value == Unit(v)
    ensures r.Ok? && r.partials != [] ==>
      |r.partials| == 3 && |r.partials[0]| == Length(y) && |r.partials[1]| == Length(mu)
      && |r.partials[2]| == Length(sigma)
  {
    if AnyEmpty([y, mu, sigma]) then Ok(Unit(v), [])
    else if !Positive(sigma) then DomainError("Scale parameter")
    else if !ConsistentSizes([y, mu, sigma]) then InconsistentSizes
    else
      Covers3(y, mu, sigma);
      var xs := ScaledDiffs(L, y, mu, sigma, MaxSize([y, mu, sigma]));
      var value := Combined(v, Terms(v, L, xs));
      if !AnyTracked([y, mu, sigma]) then
        Ok(value, [Zeros(Length(y)), Zeros(Length(mu)), Zeros(Length(sigma))])
      else
        var cs := Contributions(v, L, xs, sigma);
        Ok(value, [Finished(v, y, Buffer(y, Dys(cs)), value), Finished(v, mu, Buffer(mu, Dmus(cs)), value),
                   Finished(v, sigma, Buffer(sigma, Dsigmas(cs)), value)])
  }

  // ---------------------------------------------------------------------------
  // The loops

  /** Element `n` of the scaled differences, read through the broadcast views. */
  lemma ScaledDiffAt(L: Libm, y: Arg, mu: Arg, sigma: Arg, N: nat, n: nat)
    requires L.Valid() && Positive(sigma) && Readable3(y, mu, sigma, N) && n < N
    ensures At(sigma, n) > 0.0
    ensures ScaledDiffs(L, y, mu, sigma, N)[n] == ScaledDiff(L, At(y, n), At(mu, n), At(sigma, n))
  {
    assert At(sigma, n) == Values(sigma)[Slot(sigma, n)];
  }

  /** Element `n`'s term, read through the broadcast views. */
  lemma TermAt(v: Variant, L: Libm, y: Arg, mu: Arg, sigma: Arg, N: nat, n: nat)
    requires L.Valid() && Positive(sigma) && Readable3(y, mu, sigma, N) && n < N
    ensures At(sigma, n) > 0.0
    ensures Terms(v, L, ScaledDiffs(L, y, mu, sigma, N))[n] == Term(v, L, ScaledDiff(L, At(y, n), At(mu, n), At(sigma, n)))
  {
    ScaledDiffAt(L, y, mu, sigma, N, n);
  }

  /**
   * The loop body's term for one element, with `logHalf` = log(0.5) formed
   * once before the loop.
   */
  method ElementTerm(v: Variant, L: Libm, x: real, logHalf: real) returns (t: real)
    requires logHalf == L.log(0.5)
    ensures t == Term(v, L, x)
  {
    match v {
      case Cdf => t := CdfFactor(L, x);
      case CdfLog => t := logHalf + L.log(OnePlusErf(L, x));
      case CcdfLog => t := logHalf + L.log(OneMinusErf(L, x));
    }
  }

  /** The running result with one more term: multiplied in for the cdf, added for the logarithms. */
  function Fold(v: Variant, acc: real, t: real): real
  {
    if v == Cdf then acc * t else acc + t
  }

  /** One more element combined into the running result. */
  lemma CombinedStep(v: Variant, ts: seq<real>, n: nat)
    requires n < |ts|
    ensures Combined(v, ts[..n + 1]) == Fold(v, Combined(v, ts[..n]), ts[n])
  {
    if v == Cdf {
      ProductStep(ts, n);
    } else {
      SumStep(ts, n);
    }
  }

  /**
   * The loop when nothing is tracked: every derivative write is compiled
   * out, so the loop only combines the terms. `logHalf` is log(0.5), formed
   * once before the loop.
   */
  method ValueLoop(v: Variant, L: Libm, y: Arg, mu: Arg, sigma: Arg, N: nat) returns (acc: real)
    requires L.Valid() && Positive(sigma) && Readable3(y, mu, sigma, N)
    ensures acc == Combined(v, Terms(v, L, ScaledDiffs(L, y, mu, sigma, N)))
  {
    ghost var ts := Terms(v, L, ScaledDiffs(L, y, mu, sigma, N));
    var logHalf := L.log(0.5);
    acc := Unit(v);
    for n := 0 to N
      invariant acc == Combined(v, ts[..n])
    {
      TermAt(v, L, y, mu, sigma, N, n);
      var t := ElementTerm(v, L, ScaledDiff(L, At(y, n), At(mu, n), At(sigma, n)), logHalf);
      CombinedStep(v, ts, n);
      acc := Fold(v, acc, t);
    }
    WholePrefix(ts, N);
  }

  /**
   * One iteration of the loop when some operand is tracked: element `n`'s
   * term is combined into the result and each tracked operand's slot receives
   * its contribution.
   */
  method TailStep(v: Variant, L: Libm, y: Arg, mu: Arg, sigma: Arg, N: nat, n: nat, logHalf: real,
                  acc: real, dy: array<real>, dmu: array<real>, dsigma: array<real>)
    returns (acc': real)
    requires L.Valid() && Positive(sigma) && Readable3(y, mu, sigma, N) && n < N && logHalf == L.log(0.5)
    requires AllDefined(v, L, ScaledDiffs(L, y, mu, sigma, N), sigma)
    requires acc == Combined(v, Terms(v, L, ScaledDiffs(L, y, mu, sigma, N))[..n])
    requires dy != dmu && dy != dsigma && dmu != dsigma
    requires Filled3(y, mu, sigma, Contributions(v, L, ScaledDiffs(L, y, mu, sigma, N), sigma), n, dy, dmu, dsigma)
    modifies dy, dmu, dsigma
    ensures acc' == Combined(v, Terms(v, L, ScaledDiffs(L, y, mu, sigma, N))[..n + 1])
    ensures Filled3(y, mu, sigma, Contributions(v, L, ScaledDiffs(L, y, mu, sigma, N), sigma), n + 1, dy, dmu, dsigma)
  {
    ghost var xs := ScaledDiffs(L, y, mu, sigma, N);
    ghost var cs := Contributions(v, L, xs, sigma);
    TermAt(v, L, y, mu, sigma, N, n);
    ScaledDiffAt(L, y, mu, sigma, N, n);
    CombinedStep(v, Terms(v, L, xs), n);
    var sigmaV := At(sigma, n);
    var x := ScaledDiff(L, At(y, n), At(mu, n), sigmaV);
    var t := ElementTerm(v, L, x, logHalf);
    acc' := Fold(v, acc, t);
    var c := ContributionAt(v, L, x, sigmaV);
    AddContribution(dy, y, Dys(cs), n, c.dy);
    AddContribution(dmu, mu, Dmus(cs), n, c.dmu);
    AddContribution(dsigma, sigma, Dsigmas(cs), n, c.dsigma);
  }

  /** The loop when some operand is tracked, over `N` broadcast elements. */
  method TailLoop(v: Variant, L: Libm, y: Arg, mu: Arg, sigma: Arg, N: nat)
    returns (acc: real, dy: array<real>, dmu: array<real>, dsigma: array<real>)
    requires L.Valid() && Positive(sigma) && Readable3(y, mu, sigma, N)
    requires AllDefined(v, L, ScaledDiffs(L, y, mu, sigma, N), sigma)
    ensures fresh(dy) && fresh(dmu) && fresh(dsigma)
    ensures dy != dmu && dy != dsigma && dmu != dsigma
    ensures acc == Combined(v, Terms(v, L, ScaledDiffs(L, y, mu, sigma, N)))
    ensures Filled3(y, mu, sigma, Contributions(v, L, ScaledDiffs(L, y, mu, sigma, N), sigma), N, dy, dmu, dsigma)
  {
    ghost var xs := ScaledDiffs(L, y, mu, sigma, N);
    ghost var cs := Contributions(v, L, xs, sigma);
    dy, dmu, dsigma := ZeroBuffers3(y, mu, sigma, cs);
    var logHalf := L.log(0.5);
    acc := Unit(v);
    for n := 0 to N
      invariant acc == Combined(v, Terms(v, L, xs)[..n])
      invariant Filled3(y, mu, sigma, cs, n, dy, dmu, dsigma)
    {
      acc := TailStep(v, L, y, mu, sigma, N, n, logHalf, acc, dy, dmu, dsigma);
    }
    WholePrefix(Terms(v, L, xs), N);
  }

  /**
   * The shared part of the three evaluators, up to the point where
   * normal_cdf starts its post-pass: the buffers hold the outcome's partials,
   * except that normal_cdf has yet to multiply each tracked buffer by the
   * final cdf.
   */
  method Run(v: Variant, L: Libm, y: Arg, mu: Arg, sigma: Arg)
    returns (value: real, dy: array<real>, dmu: array<real>, dsigma: array<real>)
    requires Validated(y, mu, sigma) && DerivativesDefined(v, L, y, mu, sigma)
    ensures fresh(dy) && fresh(dmu) && fresh(dsigma)
    ensures dy != dmu && dy != dsigma && dmu != dsigma
    ensures Evaluate(v, L, y, mu, sigma).Ok?
    ensures value == Evaluate(v, L, y, mu, sigma).value
    ensures Evaluate(v, L, y, mu, sigma).partials ==
      [Finished(v, y, dy[..], value), Finished(v, mu, dmu[..], value), Finished(v, sigma, dsigma[..], value)]
  {
    Covers3(y, mu, sigma);
    var N := MaxSize([y, mu, sigma]);
    if !AnyTracked([y, mu, sigma]) {
      value := ValueLoop(v, L, y, mu, sigma, N);
      dy := new real[Length(y)](_ => 0.0);
      dmu := new real[Length(mu)](_ => 0.0);
      dsigma := new real[Length(sigma)](_ => 0.0);
      Flags3(y, mu, sigma);
      assert dy[..] == Zeros(Length(y)) && dmu[..] == Zeros(Length(mu)) && dsigma[..] == Zeros(Length(sigma));
    } else {
      value, dy, dmu, dsigma := TailLoop(v, L, y, mu, sigma, N);
      ghost var cs := Contributions(v, L, ScaledDiffs(L, y, mu, sigma, N), sigma);
      WholePrefix(Dys(cs), N);
      WholePrefix(Dmus(cs), N);
      WholePrefix(Dsigmas(cs), N);
    }
  }

  /** normal_cdf(y, mu, sigma). */
  method NormalCdfEval(L: Libm, y: Arg, mu: Arg, sigma: Arg) returns (r: Outcome)
    requires DerivativesDefined(Cdf, L, y, mu, sigma)
    ensures r == Evaluate(Cdf, L, y, mu, sigma)
  {
    if AnyEmpty([y, mu, sigma]) {
      return Ok(1.0, []);
    }
    if !Positive(sigma) {
      return DomainError("Scale parameter");
    }
    if !ConsistentSizes([y, mu, sigma]) {
      return InconsistentSizes;
    }
    var cdf, dy, dmu, dsigma := Run(Cdf, L, y, mu, sigma);
    if y.tracked {
      RescaleInPlace(dy, cdf);
    }
    if mu.tracked {
      RescaleInPlace(dmu, cdf);
    }
    if sigma.tracked {
      RescaleInPlace(dsigma, cdf);
    }
    r := Ok(cdf, [dy[..], dmu[..], dsigma[..]]);
  }

  /** normal_cdf_log(y, mu, sigma). */
  method NormalCdfLogEval(L: Libm, y: Arg, mu: Arg, sigma: Arg) returns (r: Outcome)
    requires DerivativesDefined(CdfLog, L, y, mu, sigma)
    ensures r == Evaluate(CdfLog, L, y, mu, sigma)
  {
    if AnyEmpty([y, mu, sigma]) {
      return Ok(0.0, []);
    }
    if !Positive(sigma) {
      return DomainError("Scale parameter");
    }
    if !ConsistentSizes([y, mu, sigma]) {
      return InconsistentSizes;
    }
    var cdfLog, dy, dmu, dsigma := Run(CdfLog, L, y, mu, sigma);
    r := Ok(cdfLog, [dy[..], dmu[..], dsigma[..]]);
  }

  /** normal_ccdf_log(y, mu, sigma). */
  method NormalCcdfLogEval(L: Libm, y: Arg, mu: Arg, sigma: Arg) returns (r: Outcome)
    requires DerivativesDefined(CcdfLog, L, y, mu, sigma)
    ensures r == Evaluate(CcdfLog, L, y, mu, sigma)
  {
    if AnyEmpty([y, mu, sigma]) {
      return Ok(0.0, []);
    }
    if !Positive(sigma) {
      return DomainError("Scale parameter");
    }
    if !ConsistentSizes([y, mu, sigma]) {
      return InconsistentSizes;
    }
    var ccdfLog, dy, dmu, dsigma := Run(CcdfLog, L, y, mu, sigma);
    r := Ok(ccdfLog, [dy[..], dmu[..], dsigma[..]]);
  }

  // ---------------------------------------------------------------------------
  // Properties of the three evaluators

  /** The outcome of a call whose checks pass, spelled out. */
  lemma EvaluateChecked(v: Variant, L: Libm, y: Arg, mu: Arg, sigma: Arg)
    requires Validated(y, mu, sigma) && DerivativesDefined(v, L, y, mu, sigma)
    ensures Readable3(y, mu, sigma, MaxSize([y, mu, sigma]))
    ensures var xs := ScaledDiffs(L, y, mu, sigma, MaxSize([y, mu, sigma]));
      var r := Evaluate(v, L, y, mu, sigma);
      && r.Ok? && r.value == Combined(v, Terms(v, L, xs))
      && (!AnyTracked([y, mu, sigma]) ==> r.partials == [Zeros(Length(y)), Zeros(Length(mu)), Zeros(Length(sigma))])
      && (AnyTracked([y, mu, sigma]) ==>
            && AllDefined(v, L, xs, sigma)
            && var cs := Contributions(v, L, xs, sigma);
               r.partials == [Finished(v, y, Buffer(y, Dys(cs)), r.value), Finished(v, mu, Buffer(mu, Dmus(cs)), r.value),
                              Finished(v, sigma, Buffer(sigma, Dsigmas(cs)), r.value)])
  {
    Covers3(y, mu, sigma);
  }

  /**
   * An empty argument returns the unit (1 for the cdf, 0 for the logarithms)
   * with no buffers, before sigma or the sizes are looked at.
   */
  lemma EmptyReturnsUnit(v: Variant, L: Libm, y: Arg, mu: Arg, sigma: Arg)
    requires DerivativesDefined(v, L, y, mu, sigma)
    requires Length(y) == 0 || Length(mu) == 0 || Length(sigma) == 0
    ensures Evaluate(v, L, y, mu, sigma) == Ok(if v == Cdf then 1.0 else 0.0, [])
  {
    Flags3(y, mu, sigma);
  }

  /**
   * With every argument non-empty, a non-positive scale is reported before
   * the sizes are compared.
   */
  lemma ScaleCheckedBeforeSizes(v: Variant, L: Libm, y: Arg, mu: Arg, sigma: Arg, i: nat)
    requires DerivativesDefined(v, L, y, mu, sigma)
    requires Length(y) > 0 && Length(mu) > 0 && Length(sigma) > 0
    requires i < Length(sigma) && Values(sigma)[i] <= 0.0
    ensures Evaluate(v, L, y, mu, sigma) == DomainError("Scale parameter")
  {
    Flags3(y, mu, sigma);
  }

  /**
   * One element in the deep left tail makes the cdf exactly 0. Such an
   * element's factor is 0, so its derivatives are defined only when nothing
   * is tracked.
   */
  lemma CdfDeepLeftIsZero(L: Libm, y: Arg, mu: Arg, sigma: Arg, n: nat)
    requires Validated(y, mu, sigma) && DerivativesDefined(Cdf, L, y, mu, sigma)
    requires Readable3(y, mu, sigma, MaxSize([y, mu, sigma])) && n < MaxSize([y, mu, sigma])
    requires ScaledDiffs(L, y, mu, sigma, MaxSize([y, mu, sigma]))[n] < -37.5 * L.invSqrt2
    ensures Evaluate(Cdf, L, y, mu, sigma).Ok? && Evaluate(Cdf, L, y, mu, sigma).value == 0.0
    ensures !AnyTracked([y, mu, sigma])
  {
    var xs := ScaledDiffs(L, y, mu, sigma, MaxSize([y, mu, sigma]));
    EvaluateChecked(Cdf, L, y, mu, sigma);
    SaturatedRegions(L, xs[n]);
    ProductZero(Terms(Cdf, L, xs), n);
  }

  /** When every element lies beyond the right threshold, the cdf is exactly 1. */
  lemma CdfRightSaturatedIsOne(L: Libm, y: Arg, mu: Arg, sigma: Arg)
    requires Validated(y, mu, sigma) && DerivativesDefined(Cdf, L, y, mu, sigma)
    requires Readable3(y, mu, sigma, MaxSize([y, mu, sigma]))
    requires forall n :: 0 <= n < MaxSize([y, mu, sigma]) ==>
      ScaledDiffs(L, y, mu, sigma, MaxSize([y, mu, sigma]))[n] > 8.25 * L.invSqrt2
    ensures Evaluate(Cdf, L, y, mu, sigma).Ok? && Evaluate(Cdf, L, y, mu, sigma).value == 1.0
  {
    var xs := ScaledDiffs(L, y, mu, sigma, MaxSize([y, mu, sigma]));
    EvaluateChecked(Cdf, L, y, mu, sigma);
    forall n | 0 <= n < |xs|
      ensures Terms(Cdf, L, xs)[n] == 1.0
    {
      SaturatedRegions(L, xs[n]);
    }
    ProductOnes(Terms(Cdf, L, xs));
  }

  /**
   * The product rule behind normal_cdf's post-pass: each of its buffers is
   * normal_cdf_log's buffer for the same operand times the cdf, since the
   * derivative of the cdf is the cdf times the derivative of its logarithm.
   */
  lemma CdfProductRule(L: Libm, y: Arg, mu: Arg, sigma: Arg)
    requires Validated(y, mu, sigma) && DerivativesDefined(Cdf, L, y, mu, sigma)
    ensures DerivativesDefined(CdfLog, L, y, mu, sigma)
    ensures var c := Evaluate(Cdf, L, y, mu, sigma);
      var l := Evaluate(CdfLog, L, y, mu, sigma);
      && c.Ok? && l.Ok? && |c.partials| == |l.partials| == 3
      && c.partials[0] == Scale(l.partials[0], c.value)
      && c.partials[1] == Scale(l.partials[1], c.value)
      && c.partials[2] == Scale(l.partials[2], c.value)
  {
    Covers3(y, mu, sigma);
    var xs := ScaledDiffs(L, y, mu, sigma, MaxSize([y, mu, sigma]));
    EvaluateChecked(Cdf, L, y, mu, sigma);
    var value := Evaluate(Cdf, L, y, mu, sigma).value;
    if AnyTracked([y, mu, sigma]) {
      CdfContributionsAreCdfLogContributions(L, xs, sigma);
      EvaluateChecked(CdfLog, L, y, mu, sigma);
      var cs := Contributions(Cdf, L, xs, sigma);
      PostPassScales(y, Buffer(y, Dys(cs)), value);
      PostPassScales(mu, Buffer(mu, Dmus(cs)), value);
      PostPassScales(sigma, Buffer(sigma, Dsigmas(cs)), value);
    } else {
      EvaluateChecked(CdfLog, L, y, mu, sigma);
      ScaleNeg(Zeros(Length(y)), value);
      ScaleNeg(Zeros(Length(mu)), value);
      ScaleNeg(Zeros(Length(sigma)), value);
    }
  }

  /** The post-pass scales every buffer, counting a constant operand's zero buffer as scaled. */
  lemma PostPassScales(a: Arg, d: seq<real>, value: real)
    requires !a.tracked ==> d == Zeros(Length(a))
    ensures Finished(Cdf, a, d, value) == Scale(d, value)
  {
    if !a.tracked {
      ScaleNeg(d, value);
    }
  }

  /** normal_cdf's contributions before the post-pass are normal_cdf_log's, element by element. */
  lemma CdfContributionsAreCdfLogContributions(L: Libm, xs: seq<real>, sigma: Arg)
    requires AllDefined(Cdf, L, xs, sigma)
    ensures AllDefined(CdfLog, L, xs, sigma)
    ensures Contributions(Cdf, L, xs, sigma) == Contributions(CdfLog, L, xs, sigma)
  {
    var cs := Contributions(Cdf, L, xs, sigma);
    forall n | 0 <= n < |xs|
      ensures cs[n] == Contributions(CdfLog, L, xs, sigma)[n]
    {
      CdfContributionIsCdfLogContribution(L, xs[n], At(sigma, n));
    }
  }

  /** Each element's mu contribution is the negation of its y contribution, in every variant. */
  lemma LocationContributionsNegate(v: Variant, L: Libm, xs: seq<real>, sigma: Arg)
    requires AllDefined(v, L, xs, sigma)
    ensures Dmus(Contributions(v, L, xs, sigma)) == Neg(Dys(Contributions(v, L, xs, sigma)))
  {
    var cs := Contributions(v, L, xs, sigma);
    forall n | 0 <= n < |xs|
      ensures Dmus(cs)[n] == Neg(Dys(cs))[n]
    {
      assert cs[n] == ContributionAt(v, L, xs[n], At(sigma, n));
    }
  }

  /**
   * When y and mu are both tracked and have the same shape, mu's buffer is
   * the exact negation of y's, in all three evaluators (the result depends
   * on y and mu only through y - mu).
   */
  lemma LocationPartialsNegate(v: Variant, L: Libm, y: Arg, mu: Arg, sigma: Arg)
    requires Validated(y, mu, sigma) && DerivativesDefined(v, L, y, mu, sigma)
    requires y.tracked && mu.tracked && y.Scalar? == mu.Scalar?
    ensures Evaluate(v, L, y, mu, sigma).Ok? && |Evaluate(v, L, y, mu, sigma).partials| == 3
    ensures Evaluate(v, L, y, mu, sigma).partials[1] == Neg(Evaluate(v, L, y, mu, sigma).partials[0])
  {
    Covers3(y, mu, sigma);
    Flags3(y, mu, sigma);
    var xs := ScaledDiffs(L, y, mu, sigma, MaxSize([y, mu, sigma]));
    EvaluateChecked(v, L, y, mu, sigma);
    var cs := Contributions(v, L, xs, sigma);
    LocationContributionsNegate(v, L, xs, sigma);
    var args := [y, mu, sigma];
    assert args[0] == y && args[1] == mu;
    SameShapeSameLength(args, 1, 0);
    ScatterNeg(mu, Dys(cs));
    ScatterSameShape(mu, y, Dys(cs));
    ScaleNeg(Scatter(y, Dys(cs)), Evaluate(v, L, y, mu, sigma).value);
  }

  /** A constant operand's buffer is all zeros: the loop never writes it and the post-pass skips it. */
  lemma ConstantBuffersStayZero(v: Variant, L: Libm, y: Arg, mu: Arg, sigma: Arg)
    requires Validated(y, mu, sigma) && DerivativesDefined(v, L, y, mu, sigma)
    ensures Evaluate(v, L, y, mu, sigma).Ok? && |Evaluate(v, L, y, mu, sigma).partials| == 3
    ensures !y.tracked ==> Evaluate(v, L, y, mu, sigma).partials[0] == Zeros(Length(y))
    ensures !mu.tracked ==> Evaluate(v, L, y, mu, sigma).partials[1] == Zeros(Length(mu))
    ensures !sigma.tracked ==> Evaluate(v, L, y, mu, sigma).partials[2] == Zeros(Length(sigma))
  {
    EvaluateChecked(v, L, y, mu, sigma);
  }
}
