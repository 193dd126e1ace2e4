/**
 * normal_ss_log: the normal log density written with the sufficient
 * statistics of a sample (its mean y_bar, the sum of squared deviations
 * s_squared and the number of observations n_obs), summed over the broadcast
 * elements, with the partial derivatives with respect to y_bar, s_squared, mu
 * and sigma. The number of observations is data: it has no buffer.
 */
module NormalSufficient {
  import opened Broadcast
  import opened Accumulate
  import opened Elementary
  import NormalDensity

  // ---------------------------------------------------------------------------
  // One element

  /** `cons_expr`: s_squared + n_obs (y_bar - mu)^2. */
  function Spread(yBar: real, sSquared: real, nObs: real, mu: real): real
  {
    sSquared + nObs * ((yBar - mu) * (yBar - mu))
  }

  /**
   * What one element adds to `logp`: n_obs times the normalising constant
   * unless `propto`, -n_obs log(sigma) when that summand is included, and
   * always -cons_expr / (2 sigma^2). One observation with no spread gives
   * normal_log's summand.
   */
  function SsSummand(L: Libm, propto: bool, withLogSigma: bool,
                     yBar: real, sSquared: real, nObs: real, mu: real, sigma: real): (r: real)
    requires sigma > 0.0
    ensures nObs == 1.0 && sSquared == 0.0 ==>
      r == NormalDensity.LogSummand(L, propto, withLogSigma, true, yBar, mu, 1.0 / sigma, L.log(sigma))
  {
    OneObservationSummand(L, propto, withLogSigma, yBar, mu, sigma);
    (if !propto then L.negLogSqrtTwoPi * nObs else 0.0)
    - (if withLogSigma then nObs * L.log(sigma) else 0.0)
    - Spread(yBar, sSquared, nObs, mu) / (2.0 * Pow(sigma, 2))
  }

  /** `common_derivative`: n_obs (mu - y_bar) / sigma^2. */
  function Common(yBar: real, nObs: real, mu: real, sigma: real): real
    requires sigma > 0.0
  {
    nObs * (mu - yBar) / Pow(sigma, 2)
  }

  /**
   * The algebra behind a single observation with no spread: the sufficient
   * statistics' quadratic term and derivatives are normal_log's, written with
   * 1 / sigma.
   */
  lemma OneObservation(yBar: real, mu: real, sigma: real)
    requires sigma > 0.0
    ensures Pow(sigma, 2) > 0.0
    ensures Spread(yBar, 0.0, 1.0, mu) / (2.0 * Pow(sigma, 2))
         == 0.5 * (NormalDensity.Standardized(yBar, mu, 1.0 / sigma) * NormalDensity.Standardized(yBar, mu, 1.0 / sigma))
    ensures 1.0 * (mu - yBar) / Pow(sigma, 2) == -(1.0 / sigma * NormalDensity.Standardized(yBar, mu, 1.0 / sigma))
    ensures Spread(yBar, 0.0, 1.0, mu) / Pow(sigma, 3)
         == 1.0 / sigma * (NormalDensity.Standardized(yBar, mu, 1.0 / sigma) * NormalDensity.Standardized(yBar, mu, 1.0 / sigma))
  {
    var d, k := yBar - mu, 1.0 / sigma;
    var z := NormalDensity.Standardized(yBar, mu, k);
    SmallPowers(sigma);
    assert Spread(yBar, 0.0, 1.0, mu) == d * d && z == d * k && 1.0 * (mu - yBar) == -d;
    QuadraticOverSquare(d, sigma, k, z);
    SlopeOverSquare(d, sigma, k, z);
    QuadraticOverCube(d, sigma, k, z);
  }

  /** The summand of one observation with no spread, as normal_log writes it. */
  lemma OneObservationSummand(L: Libm, propto: bool, withLogSigma: bool, yBar: real, mu: real, sigma: real)
    requires sigma > 0.0
    ensures Pow(sigma, 2) > 0.0
    ensures (if !propto then L.negLogSqrtTwoPi * 1.0 else 0.0)
          - (if withLogSigma then 1.0 * L.log(sigma) else 0.0)
          - Spread(yBar, 0.0, 1.0, mu) / (2.0 * Pow(sigma, 2))
         == NormalDensity.LogSummand(L, propto, withLogSigma, true, yBar, mu, 1.0 / sigma, L.log(sigma))
  {
    OneObservation(yBar, mu, sigma);
  }

  lemma SmallPowers(x: real)
    ensures Pow(x, 2) == x * x && Pow(x, 3) == x * (x * x)
  {
    assert Pow(x, 2) == x * Pow(x, 1);
    assert Pow(x, 3) == x * Pow(x, 2);
  }

  /** With k = 1 / s and z = d k: d^2 / (2 s^2) = z^2 / 2. */
  lemma QuadraticOverSquare(d: real, s: real, k: real, z: real)
    requires s > 0.0 && k == 1.0 / s && z == d * k
    ensures d * d / (2.0 * (s * s)) == 0.5 * (z * z)
  {
    assert k * s == 1.0;
    assert z * z * (s * s) == (d * d) * ((k * s) * (k * s));
  }

  /** With k = 1 / s and z = d k: -d / s^2 = -(k z). */
  lemma SlopeOverSquare(d: real, s: real, k: real, z: real)
    requires s > 0.0 && k == 1.0 / s && z == d * k
    ensures -d / (s * s) == -(k * z)
  {
    assert k * s == 1.0;
    assert k * z * (s * s) == d * ((k * s) * (k * s));
  }

  /** With k = 1 / s and z = d k: d^2 / s^3 = k z^2. */
  lemma QuadraticOverCube(d: real, s: real, k: real, z: real)
    requires s > 0.0 && k == 1.0 / s && z == d * k
    ensures d * d / (s * (s * s)) == k * (z * z)
  {
    assert k * s == 1.0;
    assert k * (z * z) * (s * (s * s)) == (d * d) * ((k * s) * ((k * s) * (k * s)));
  }

  /** What one element adds to the y_bar, s_squared, mu and sigma buffers. */
  datatype SsContribution = SsContribution(dyBar: real, dsSquared: real, dmu: real, dsigma: real)

  /**
   * One element's contributions: mu's negates y_bar's, s_squared's is always
   * negative, and one observation gives normal_log's y and sigma contributions.
   */
  function SsContributionAt(yBar: real, sSquared: real, nObs: real, mu: real, sigma: real): (c: SsContribution)
    requires sigma > 0.0
    ensures c.dmu == -c.dyBar
    ensures c.dsSquared < 0.0
    ensures nObs == 1.0 && sSquared == 0.0 ==>
      && c.dyBar == NormalDensity.LogContribution(yBar, mu, 1.0 / sigma).dy
      && c.dsigma == NormalDensity.LogContribution(yBar, mu, 1.0 / sigma).dsigma
  {
    OneObservation(yBar, mu, sigma);
    SsContribution(
      Common(yBar, nObs, mu, sigma),
      -(1.0 / (2.0 * Pow(sigma, 2))),
      -Common(yBar, nObs, mu, sigma),
      Spread(yBar, sSquared, nObs, mu) / Pow(sigma, 3) - nObs / sigma)
  }

  function YBarColumn(cs: seq<SsContribution>): (r: seq<real>)
    ensures |r| == |cs| && forall i :: 0 <= i < |cs| ==> r[i] == cs[i].dyBar
  {
    seq(|cs|, i requires 0 <= i < |cs| => cs[i].dyBar)
  }

  function SSquaredColumn(cs: seq<SsContribution>): (r: seq<real>)
    ensures |r| == |cs| && forall i :: 0 <= i < |cs| ==> r[i] == cs[i].dsSquared
  {
    seq(|cs|, i requires 0 <= i < |cs| => cs[i].dsSquared)
  }

  function MuColumn(cs: seq<SsContribution>): (r: seq<real>)
    ensures |r| == |cs| && forall i :: 0 <= i < |cs| ==> r[i] == cs[i].dmu
  {
    seq(|cs|, i requires 0 <= i < |cs| => cs[i].dmu)
  }

  function SigmaColumn(cs: seq<SsContribution>): (r: seq<real>)
    ensures |r| == |cs| && forall i :: 0 <= i < |cs| ==> r[i] == cs[i].dsigma
  {
    seq(|cs|, i requires 0 <= i < |cs| => cs[i].dsigma)
  }

  // ---------------------------------------------------------------------------
  // The whole call

  /** All five arguments can be read at every broadcast index below `N`. */
  predicate Readable(yBar: Arg, sSquared: Arg, nObs: Arg, mu: Arg, sigma: Arg, N: nat)
  {
    Covers(yBar, N) && Covers(sSquared, N) && Covers(nObs, N) && Covers(mu, N) && Covers(sigma, N)
  }

  function SsSummands(L: Libm, propto: bool, withLogSigma: bool,
                      yBar: Arg, sSquared: Arg, nObs: Arg, mu: Arg, sigma: Arg, N: nat): (s: seq<real>)
    requires Positive(sigma) && Readable(yBar, sSquared, nObs, mu, sigma, N)
    ensures |s| == N
  {
    seq(N, n requires 0 <= n < N =>
      SsSummand(L, propto, withLogSigma, At(yBar, n), At(sSquared, n), At(nObs, n), At(mu, n), At(sigma, n)))
  }

  function SsContributions(yBar: Arg, sSquared: Arg, nObs: Arg, mu: Arg, sigma: Arg, N: nat): (cs: seq<SsContribution>)
    requires Positive(sigma) && Readable(yBar, sSquared, nObs, mu, sigma, N)
    ensures |cs| == N
  {
    seq(N, n requires 0 <= n < N =>
      SsContributionAt(At(yBar, n), At(sSquared, n), At(nObs, n), At(mu, n), At(sigma, n)))
  }

  /**
   * The outcome of normal_ss_log<propto>(y_bar, s_squared, n_obs, mu, sigma):
   * an empty argument returns 0 before any check; n_obs and then sigma must be
   * positive and the five sizes consistent; under `propto` with none of y_bar,
   * s_squared, mu, sigma tracked the result is 0; otherwise the sum of the
   * summands with one buffer per operand (y_bar, s_squared, mu, sigma).
   */
  function SsLogDensity(L: Libm, propto: bool, yBar: Arg, sSquared: Arg, nObs: Arg, mu: Arg, sigma: Arg): (r: Outcome)
    ensures r.DomainError?
        <==> !AnyEmpty([yBar, sSquared, nObs, mu, sigma]) && (!Positive(nObs) || !Positive(sigma))
    ensures r.DomainError? ==> (r.role == "Number of observations" <==> !Positive(nObs))
    ensures r.InconsistentSizes?
        <==> && !AnyEmpty([yBar, sSquared, nObs, mu, sigma]) && Positive(nObs) && Positive(sigma)
             && !ConsistentSizes([yBar, sSquared, nObs, mu, sigma])
    ensures r.Ok? && r.partials == [] ==> r.value == 0.0
    ensures r.Ok? && r.partials != [] ==>
      && |r.partials| == 4 && |r.partials[0]| == Length(yBar) && |r.partials[1]| == Length(sSquared)
      && |r.partials[2]| == Length(mu) && |r.partials[3]| == Length(sigma)
  {
    if AnyEmpty([yBar, sSquared, nObs, mu, sigma]) then Ok(0.0, [])
    else if !Positive(nObs) then DomainError("Number of observations")
    else if !Positive(sigma) then DomainError("Scale parameter")
    else if !ConsistentSizes([yBar, sSquared, nObs, mu, sigma]) then InconsistentSizes
    else if !IncludeSummand(propto, [yBar, sSquared, mu, sigma]) then Ok(0.0, [])
    else
      Covers5(yBar, sSquared, nObs, mu, sigma);
      var N := MaxSize([yBar, sSquared, nObs, mu, sigma]);
      Ok(Sum(SsSummands(L, propto, IncludeSummand(propto, [sigma]), yBar, sSquared, nObs, mu, sigma, N)),
         [Buffer(yBar, YBarColumn(SsContributions(yBar, sSquared, nObs, mu, sigma, N))),
          Buffer(sSquared, SSquaredColumn(SsContributions(yBar, sSquared, nObs, mu, sigma, N))),
          Buffer(mu, MuColumn(SsContributions(yBar, sSquared, nObs, mu, sigma, N))),
          Buffer(sigma, SigmaColumn(SsContributions(yBar, sSquared, nObs, mu, sigma, N)))])
  }

  /** Element `n` of the summands and contributions. */
  lemma SsElementAt(L: Libm, propto: bool, withLogSigma: bool,
                    yBar: Arg, sSquared: Arg, nObs: Arg, mu: Arg, sigma: Arg, N: nat, n: nat)
    requires Positive(sigma) && Readable(yBar, sSquared, nObs, mu, sigma, N) && n < N
    ensures At(sigma, n) > 0.0
    ensures SsSummands(L, propto, withLogSigma, yBar, sSquared, nObs, mu, sigma, N)[n]
         == SsSummand(L, propto, withLogSigma, At(yBar, n), At(sSquared, n), At(nObs, n), At(mu, n), At(sigma, n))
    ensures SsContributions(yBar, sSquared, nObs, mu, sigma, N)[n]
         == SsContributionAt(At(yBar, n), At(sSquared, n), At(nObs, n), At(mu, n), At(sigma, n))
  {
    assert At(sigma, n) == Values(sigma)[Slot(sigma, n)];
  }

  /**
   * The loop's buffer state after `n` iterations: each of the four buffers
   * holds the contributions of the first `n` elements.
   */
  ghost predicate Filled(yBar: Arg, sSquared: Arg, nObs: Arg, mu: Arg, sigma: Arg, N: nat, n: nat,
                         dyBar: array<real>, dsSquared: array<real>, dmu: array<real>, dsigma: array<real>)
    requires Positive(sigma) && Readable(yBar, sSquared, nObs, mu, sigma, N) && n <= N
    reads dyBar, dsSquared, dmu, dsigma
  {
    var cs := SsContributions(yBar, sSquared, nObs, mu, sigma, N);
    dyBar.Length == Length(yBar) && dsSquared.Length == Length(sSquared)
    && dmu.Length == Length(mu) && dsigma.Length == Length(sigma)
    && dyBar[..] == Buffer(yBar, YBarColumn(cs)[..n])
    && dsSquared[..] == Buffer(sSquared, SSquaredColumn(cs)[..n])
    && dmu[..] == Buffer(mu, MuColumn(cs)[..n])
    && dsigma[..] == Buffer(sigma, SigmaColumn(cs)[..n])
  }

  /**
   * One iteration of the loop of normal_ss_log: element `n`'s summand is added
   * to `logp`; the common derivative is formed only when y_bar or mu is
   * tracked, and each tracked operand's slot receives its contribution.
   */
  method SsStep(L: Libm, propto: bool, withLogSigma: bool,
                yBar: Arg, sSquared: Arg, nObs: Arg, mu: Arg, sigma: Arg, N: nat, n: nat,
                logp: real, dyBar: array<real>, dsSquared: array<real>, dmu: array<real>, dsigma: array<real>)
    returns (logp': real)
    requires Positive(sigma) && Readable(yBar, sSquared, nObs, mu, sigma, N) && n < N
    requires logp == Sum(SsSummands(L, propto, withLogSigma, yBar, sSquared, nObs, mu, sigma, N)[..n])
    requires dyBar != dsSquared && dyBar != dmu && dyBar != dsigma
    requires dsSquared != dmu && dsSquared != dsigma && dmu != dsigma
    requires Filled(yBar, sSquared, nObs, mu, sigma, N, n, dyBar, dsSquared, dmu, dsigma)
    modifies dyBar, dsSquared, dmu, dsigma
    ensures logp' == Sum(SsSummands(L, propto, withLogSigma, yBar, sSquared, nObs, mu, sigma, N)[..n + 1])
    ensures Filled(yBar, sSquared, nObs, mu, sigma, N, n + 1, dyBar, dsSquared, dmu, dsigma)
  {
    ghost var cs := SsContributions(yBar, sSquared, nObs, mu, sigma, N);
    SsElementAt(L, propto, withLogSigma, yBar, sSquared, nObs, mu, sigma, N, n);
    SumStep(SsSummands(L, propto, withLogSigma, yBar, sSquared, nObs, mu, sigma, N), n);
    var yBarV, sSquaredV, nObsV, muV, sigmaV := At(yBar, n), At(sSquared, n), At(nObs, n), At(mu, n), At(sigma, n);
    logp' := logp + SsSummand(L, propto, withLogSigma, yBarV, sSquaredV, nObsV, muV, sigmaV);
    var c := SsContributionAt(yBarV, sSquaredV, nObsV, muV, sigmaV);
    if yBar.tracked || mu.tracked {
      var common := Common(yBarV, nObsV, muV, sigmaV);
      AddContribution(dyBar, yBar, YBarColumn(cs), n, common);
      AddContribution(dmu, mu, MuColumn(cs), n, -common);
    }
    AddContribution(dsSquared, sSquared, SSquaredColumn(cs), n, c.dsSquared);
    AddContribution(dsigma, sigma, SigmaColumn(cs), n, c.dsigma);
  }

  /** The four derivative buffers, zero-filled, one slot per stored element of their operand. */
  method SsZeroBuffers(yBar: Arg, sSquared: Arg, nObs: Arg, mu: Arg, sigma: Arg, N: nat)
    returns (dyBar: array<real>, dsSquared: array<real>, dmu: array<real>, dsigma: array<real>)
    requires Positive(sigma) && Readable(yBar, sSquared, nObs, mu, sigma, N)
    ensures fresh(dyBar) && fresh(dsSquared) && fresh(dmu) && fresh(dsigma)
    ensures dyBar != dsSquared && dyBar != dmu && dyBar != dsigma
    ensures dsSquared != dmu && dsSquared != dsigma && dmu != dsigma
    ensures Filled(yBar, sSquared, nObs, mu, sigma, N, 0, dyBar, dsSquared, dmu, dsigma)
  {
    dyBar := new real[Length(yBar)](_ => 0.0);
    dsSquared := new real[Length(sSquared)](_ => 0.0);
    dmu := new real[Length(mu)](_ => 0.0);
    dsigma := new real[Length(sigma)](_ => 0.0);
    ghost var cs := SsContributions(yBar, sSquared, nObs, mu, sigma, N);
    assert YBarColumn(cs)[..0] == SSquaredColumn(cs)[..0] == MuColumn(cs)[..0] == SigmaColumn(cs)[..0] == [];
  }

  /** The loop of normal_ss_log over `N` broadcast elements, once every check has passed. */
  method SsLoop(L: Libm, propto: bool, withLogSigma: bool,
                yBar: Arg, sSquared: Arg, nObs: Arg, mu: Arg, sigma: Arg, N: nat)
    returns (logp: real, partials: seq<seq<real>>)
    requires Positive(sigma) && Readable(yBar, sSquared, nObs, mu, sigma, N)
    ensures logp == Sum(SsSummands(L, propto, withLogSigma, yBar, sSquared, nObs, mu, sigma, N))
    ensures partials == [Buffer(yBar, YBarColumn(SsContributions(yBar, sSquared, nObs, mu, sigma, N))),
                         Buffer(sSquared, SSquaredColumn(SsContributions(yBar, sSquared, nObs, mu, sigma, N))),
                         Buffer(mu, MuColumn(SsContributions(yBar, sSquared, nObs, mu, sigma, N))),
                         Buffer(sigma, SigmaColumn(SsContributions(yBar, sSquared, nObs, mu, sigma, N)))]
  {
    var dyBar, dsSquared, dmu, dsigma := SsZeroBuffers(yBar, sSquared, nObs, mu, sigma, N);
    ghost var terms := SsSummands(L, propto, withLogSigma, yBar, sSquared, nObs, mu, sigma, N);
    ghost var cs := SsContributions(yBar, sSquared, nObs, mu, sigma, N);
    logp := 0.0;
    for n := 0 to N
      invariant logp == Sum(terms[..n])
      invariant Filled(yBar, sSquared, nObs, mu, sigma, N, n, dyBar, dsSquared, dmu, dsigma)
    {
      logp := SsStep(L, propto, withLogSigma, yBar, sSquared, nObs, mu, sigma, N, n,
                     logp, dyBar, dsSquared, dmu, dsigma);
    }
    WholePrefix(terms, N);
    WholePrefix(YBarColumn(cs), N);
    WholePrefix(SSquaredColumn(cs), N);
    WholePrefix(MuColumn(cs), N);
    WholePrefix(SigmaColumn(cs), N);
    partials := [dyBar[..], dsSquared[..], dmu[..], dsigma[..]];
  }

  /** normal_ss_log<propto>(y_bar, s_squared, n_obs, mu, sigma). */
  method NormalSsLog(L: Libm, propto: bool, yBar: Arg, sSquared: Arg, nObs: Arg, mu: Arg, sigma: Arg)
    returns (r: Outcome)
    ensures r == SsLogDensity(L, propto, yBar, sSquared, nObs, mu, sigma)
  {
    if AnyEmpty([yBar, sSquared, nObs, mu, sigma]) {
      return Ok(0.0, []);
    }
    if !Positive(nObs) {
      return DomainError("Number of observations");
    }
    if !Positive(sigma) {
      return DomainError("Scale parameter");
    }
    if !ConsistentSizes([yBar, sSquared, nObs, mu, sigma]) {
      return InconsistentSizes;
    }
    if !IncludeSummand(propto, [yBar, sSquared, mu, sigma]) {
      return Ok(0.0, []);
    }
    Covers5(yBar, sSquared, nObs, mu, sigma);
    var logp, partials := SsLoop(L, propto, IncludeSummand(propto, [sigma]),
                                 yBar, sSquared, nObs, mu, sigma, MaxSize([yBar, sSquared, nObs, mu, sigma]));
    r := Ok(logp, partials);
  }

  // ---------------------------------------------------------------------------
  // Properties

  /** Once every check passes and the call is not cut short by `propto`, the outcome is the loop's. */
  lemma SsLogDensityChecked(L: Libm, propto: bool, yBar: Arg, sSquared: Arg, nObs: Arg, mu: Arg, sigma: Arg)
    requires Length(yBar) > 0 && Length(sSquared) > 0 && Length(nObs) > 0 && Length(mu) > 0 && Length(sigma) > 0
    requires Positive(nObs) && Positive(sigma) && ConsistentSizes([yBar, sSquared, nObs, mu, sigma])
    requires !propto || yBar.tracked || sSquared.tracked || mu.tracked || sigma.tracked
    ensures Readable(yBar, sSquared, nObs, mu, sigma, MaxSize([yBar, sSquared, nObs, mu, sigma]))
    ensures var N := MaxSize([yBar, sSquared, nObs, mu, sigma]);
      SsLogDensity(L, propto, yBar, sSquared, nObs, mu, sigma)
      == Ok(Sum(SsSummands(L, propto, !propto || sigma.tracked, yBar, sSquared, nObs, mu, sigma, N)),
            [Buffer(yBar, YBarColumn(SsContributions(yBar, sSquared, nObs, mu, sigma, N))),
             Buffer(sSquared, SSquaredColumn(SsContributions(yBar, sSquared, nObs, mu, sigma, N))),
             Buffer(mu, MuColumn(SsContributions(yBar, sSquared, nObs, mu, sigma, N))),
             Buffer(sigma, SigmaColumn(SsContributions(yBar, sSquared, nObs, mu, sigma, N)))])
  {
    Flags5(yBar, sSquared, nObs, mu, sigma);
    Covers5(yBar, sSquared, nObs, mu, sigma);
  }

  /** An empty argument returns 0 with no buffers, before any argument is checked. */
  lemma SsEmptyReturnsZero(L: Libm, propto: bool, yBar: Arg, sSquared: Arg, nObs: Arg, mu: Arg, sigma: Arg)
    requires Length(yBar) == 0 || Length(sSquared) == 0 || Length(nObs) == 0 || Length(mu) == 0 || Length(sigma) == 0
    ensures SsLogDensity(L, propto, yBar, sSquared, nObs, mu, sigma) == Ok(0.0, [])
  {
    Flags5(yBar, sSquared, nObs, mu, sigma);
  }

  /**
   * The number of observations is checked before the scale: with both invalid
   * the error names the number of observations.
   */
  lemma SsCheckOrder(L: Libm, propto: bool, yBar: Arg, sSquared: Arg, nObs: Arg, mu: Arg, sigma: Arg)
    requires Length(yBar) > 0 && Length(sSquared) > 0 && Length(nObs) > 0 && Length(mu) > 0 && Length(sigma) > 0
    ensures !Positive(nObs) ==>
      SsLogDensity(L, propto, yBar, sSquared, nObs, mu, sigma) == DomainError("Number of observations")
    ensures Positive(nObs) && !Positive(sigma) ==>
      SsLogDensity(L, propto, yBar, sSquared, nObs, mu, sigma) == DomainError("Scale parameter")
  {
    Flags5(yBar, sSquared, nObs, mu, sigma);
  }

  /**
   * The number of observations is data: whether it is marked as tracked makes
   * no difference to the outcome.
   */
  lemma SsObservationCountIsData(L: Libm, propto: bool, yBar: Arg, sSquared: Arg, nObs: Arg, mu: Arg, sigma: Arg)
    ensures SsLogDensity(L, propto, yBar, sSquared, nObs, mu, sigma)
         == SsLogDensity(L, propto, yBar, sSquared, nObs.(tracked := !nObs.tracked), mu, sigma)
  {
    var flipped := nObs.(tracked := !nObs.tracked);
    var args := [yBar, sSquared, nObs, mu, sigma];
    var args' := [yBar, sSquared, flipped, mu, sigma];
    assert Values(flipped) == Values(nObs);
    MaxSizeSameLengths(args, args');
    Flags5(yBar, sSquared, nObs, mu, sigma);
    Flags5(yBar, sSquared, flipped, mu, sigma);
    Covers5(yBar, sSquared, nObs, mu, sigma);
    Covers5(yBar, sSquared, flipped, mu, sigma);
    if !AnyEmpty(args) && Positive(nObs) && Positive(sigma) && ConsistentSizes(args)
       && IncludeSummand(propto, [yBar, sSquared, mu, sigma]) {
      SsFlipChecked(L, propto, yBar, sSquared, nObs, mu, sigma);
    }
  }

  /** The checked case of the above. */
  lemma SsFlipChecked(L: Libm, propto: bool, yBar: Arg, sSquared: Arg, nObs: Arg, mu: Arg, sigma: Arg)
    requires Length(yBar) > 0 && Length(sSquared) > 0 && Length(nObs) > 0 && Length(mu) > 0 && Length(sigma) > 0
    requires Positive(nObs) && Positive(sigma) && ConsistentSizes([yBar, sSquared, nObs, mu, sigma])
    requires !propto || yBar.tracked || sSquared.tracked || mu.tracked || sigma.tracked
    ensures SsLogDensity(L, propto, yBar, sSquared, nObs, mu, sigma)
         == SsLogDensity(L, propto, yBar, sSquared, nObs.(tracked := !nObs.tracked), mu, sigma)
  {
    var flipped := nObs.(tracked := !nObs.tracked);
    var args := [yBar, sSquared, nObs, mu, sigma];
    var args' := [yBar, sSquared, flipped, mu, sigma];
    assert Values(flipped) == Values(nObs);
    MaxSizeSameLengths(args, args');
    Covers5(yBar, sSquared, nObs, mu, sigma);
    Covers5(yBar, sSquared, flipped, mu, sigma);
    SsSameCounts(L, propto, !propto || sigma.tracked, yBar, sSquared, nObs, flipped, mu, sigma, MaxSize(args));
    SsLogDensityChecked(L, propto, yBar, sSquared, nObs, mu, sigma);
    SsLogDensityChecked(L, propto, yBar, sSquared, flipped, mu, sigma);
  }

  /** Summands and contributions read n_obs only through its values. */
  lemma SsSameCounts(L: Libm, propto: bool, withLogSigma: bool,
                     yBar: Arg, sSquared: Arg, nObs: Arg, nObs': Arg, mu: Arg, sigma: Arg, N: nat)
    requires Positive(sigma) && Readable(yBar, sSquared, nObs, mu, sigma, N)
    requires Values(nObs) == Values(nObs') && nObs.Scalar? == nObs'.Scalar?
    ensures Readable(yBar, sSquared, nObs', mu, sigma, N)
    ensures SsSummands(L, propto, withLogSigma, yBar, sSquared, nObs, mu, sigma, N)
         == SsSummands(L, propto, withLogSigma, yBar, sSquared, nObs', mu, sigma, N)
    ensures SsContributions(yBar, sSquared, nObs, mu, sigma, N)
         == SsContributions(yBar, sSquared, nObs', mu, sigma, N)
  {
    forall n | 0 <= n < N
      ensures At(nObs', n) == At(nObs, n)
    {
    }
  }

  /**
   * The mu buffer is the negation of the y_bar buffer when both are tracked
   * and have the same shape: the common derivative is added to one and
   * subtracted from the other.
   */
  lemma SsLocationPartialsNegate(L: Libm, propto: bool, yBar: Arg, sSquared: Arg, nObs: Arg, mu: Arg, sigma: Arg)
    requires Length(yBar) > 0 && Length(sSquared) > 0 && Length(nObs) > 0 && Length(mu) > 0 && Length(sigma) > 0
    requires Positive(nObs) && Positive(sigma) && ConsistentSizes([yBar, sSquared, nObs, mu, sigma])
    requires yBar.tracked && mu.tracked && yBar.Scalar? == mu.Scalar?
    ensures SsLogDensity(L, propto, yBar, sSquared, nObs, mu, sigma).Ok?
    ensures |SsLogDensity(L, propto, yBar, sSquared, nObs, mu, sigma).partials| == 4
    ensures SsLogDensity(L, propto, yBar, sSquared, nObs, mu, sigma).partials[2]
         == Neg(SsLogDensity(L, propto, yBar, sSquared, nObs, mu, sigma).partials[0])
  {
    SsLogDensityChecked(L, propto, yBar, sSquared, nObs, mu, sigma);
    var N := MaxSize([yBar, sSquared, nObs, mu, sigma]);
    var cs := SsContributions(yBar, sSquared, nObs, mu, sigma, N);
    MuColumnNegatesYBar(yBar, sSquared, nObs, mu, sigma, N);
    var args := [yBar, sSquared, nObs, mu, sigma];
    assert args[0] == yBar && args[3] == mu;
    SameShapeSameLength(args, 3, 0);
    ScatterNeg(mu, YBarColumn(cs));
    ScatterSameShape(mu, yBar, YBarColumn(cs));
  }

  lemma MuColumnNegatesYBar(yBar: Arg, sSquared: Arg, nObs: Arg, mu: Arg, sigma: Arg, N: nat)
    requires Positive(sigma) && Readable(yBar, sSquared, nObs, mu, sigma, N)
    ensures MuColumn(SsContributions(yBar, sSquared, nObs, mu, sigma, N))
         == Neg(YBarColumn(SsContributions(yBar, sSquared, nObs, mu, sigma, N)))
  {
  }

  /**
   * The y_bar contribution is the exact slope of the summand in y_bar: moving
   * y_bar by h changes the summand by h times the contribution plus the
   * curvature term -n_obs h^2 / (2 sigma^2).
   */
  lemma SsYBarSlope(L: Libm, propto: bool, withLogSigma: bool,
                    yBar: real, sSquared: real, nObs: real, mu: real, sigma: real, h: real)
    requires sigma > 0.0
    ensures SsSummand(L, propto, withLogSigma, yBar + h, sSquared, nObs, mu, sigma)
          - SsSummand(L, propto, withLogSigma, yBar, sSquared, nObs, mu, sigma)
         == h * SsContributionAt(yBar, sSquared, nObs, mu, sigma).dyBar - nObs * (h * h) / (2.0 * Pow(sigma, 2))
  {
    Doubled(nObs * (mu - yBar), Pow(sigma, 2));
    SpreadSlopeYBar(yBar, sSquared, nObs, mu, h);
    QuotientStep(Spread(yBar + h, sSquared, nObs, mu), Spread(yBar, sSquared, nObs, mu),
                 2.0 * (nObs * (mu - yBar)), nObs * (h * h), h, 2.0 * Pow(sigma, 2));
  }

  /** The mu contribution is the exact slope of the summand in mu, with the same curvature term. */
  lemma SsMuSlope(L: Libm, propto: bool, withLogSigma: bool,
                  yBar: real, sSquared: real, nObs: real, mu: real, sigma: real, h: real)
    requires sigma > 0.0
    ensures SsSummand(L, propto, withLogSigma, yBar, sSquared, nObs, mu + h, sigma)
          - SsSummand(L, propto, withLogSigma, yBar, sSquared, nObs, mu, sigma)
         == h * SsContributionAt(yBar, sSquared, nObs, mu, sigma).dmu - nObs * (h * h) / (2.0 * Pow(sigma, 2))
  {
    Doubled(nObs * (mu - yBar), Pow(sigma, 2));
    SpreadSlopeMu(yBar, sSquared, nObs, mu, h);
    QuotientStep(Spread(yBar, sSquared, nObs, mu + h), Spread(yBar, sSquared, nObs, mu),
                 -(2.0 * (nObs * (mu - yBar))), nObs * (h * h), h, 2.0 * Pow(sigma, 2));
  }

  /** The s_squared contribution is the exact slope of the summand in s_squared (it is linear there). */
  lemma SsSSquaredSlope(L: Libm, propto: bool, withLogSigma: bool,
                        yBar: real, sSquared: real, nObs: real, mu: real, sigma: real, h: real)
    requires sigma > 0.0
    ensures SsSummand(L, propto, withLogSigma, yBar, sSquared + h, nObs, mu, sigma)
          - SsSummand(L, propto, withLogSigma, yBar, sSquared, nObs, mu, sigma)
         == h * SsContributionAt(yBar, sSquared, nObs, mu, sigma).dsSquared
  {
    SpreadSlopeSSquared(yBar, sSquared, nObs, mu, h);
    QuotientStep(Spread(yBar, sSquared + h, nObs, mu), Spread(yBar, sSquared, nObs, mu),
                 -1.0, 0.0, h, 2.0 * Pow(sigma, 2));
    UnitQuotients(2.0 * Pow(sigma, 2));
  }

  lemma SpreadSlopeSSquared(yBar: real, sSquared: real, nObs: real, mu: real, h: real)
    ensures Spread(yBar, sSquared + h, nObs, mu) - Spread(yBar, sSquared, nObs, mu) == h
  {
  }

  lemma SpreadSlopeYBar(yBar: real, sSquared: real, nObs: real, mu: real, h: real)
    ensures Spread(yBar + h, sSquared, nObs, mu) - Spread(yBar, sSquared, nObs, mu)
         == h * -(2.0 * (nObs * (mu - yBar))) + nObs * (h * h)
  {
    assert (yBar + h - mu) * (yBar + h - mu) == (yBar - mu) * (yBar - mu) + 2.0 * (yBar - mu) * h + h * h;
  }

  lemma SpreadSlopeMu(yBar: real, sSquared: real, nObs: real, mu: real, h: real)
    ensures Spread(yBar, sSquared, nObs, mu + h) - Spread(yBar, sSquared, nObs, mu)
         == h * (2.0 * (nObs * (mu - yBar))) + nObs * (h * h)
  {
    assert (yBar - (mu + h)) * (yBar - (mu + h)) == (yBar - mu) * (yBar - mu) - 2.0 * (yBar - mu) * h + h * h;
  }

  /** A quotient is unchanged when numerator and denominator are doubled. */
  lemma Doubled(x: real, p: real)
    requires p != 0.0
    ensures x / p == (2.0 * x) / (2.0 * p) && -(x / p) == -(2.0 * x) / (2.0 * p)
  {
  }

  lemma UnitQuotients(q: real)
    requires q != 0.0
    ensures -1.0 / q == -(1.0 / q) && 0.0 / q == 0.0
  {
  }

  /** If the numerators differ by h c + b, the negated quotients differ by h (c / q) - b / q. */
  lemma QuotientStep(A: real, B: real, c: real, b: real, h: real, q: real)
    requires q != 0.0
    requires A - B == h * -c + b
    ensures -(A / q) + B / q == h * (c / q) - b / q
  {
    assert -(A / q) + B / q == -(A - B) / q;
    assert (h * c - b) / q == h * (c / q) - b / q;
  }
}
