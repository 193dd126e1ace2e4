/**
 * normal_log and normal_ss_log: the log of the normal density, summed over the
 * broadcast elements, with the partial derivative of the sum with respect to
 * every element of every tracked argument.
 *
 * Each evaluator is a method that runs the source's loop over arrays; a
 * function of the same inputs states the outcome, and the lemmas below state
 * what that outcome means.
 */
module NormalDensity {
  import opened Broadcast
  import opened Accumulate
  import opened Elementary

  // ---------------------------------------------------------------------------
  // normal_log: one element

  /** `y_minus_mu_over_sigma`, computed from the table entry 1 / sigma. */
  function Standardized(y: real, mu: real, invSigma: real): real
  {
    (y - mu) * invSigma
  }

  /**
   * What one element adds to `logp`: the normalising constant unless `propto`,
   * -log(sigma) when that summand is included, and -z^2 / 2 when the summand
   * depending on y, mu and sigma is included. It is largest at the mode
   * y = mu, where only the constant part is left.
   */
  function LogSummand(L: Libm, propto: bool, withLogSigma: bool, withQuadratic: bool,
                      y: real, mu: real, invSigma: real, logSigma: real): (r: real)
    ensures r <= (if !propto then L.negLogSqrtTwoPi else 0.0) - (if withLogSigma then logSigma else 0.0)
    ensures y == mu ==> r == (if !propto then L.negLogSqrtTwoPi else 0.0) - (if withLogSigma then logSigma else 0.0)
  {
    var z := Standardized(y, mu, invSigma);
    assert z * z >= 0.0;
    (if !propto then L.negLogSqrtTwoPi else 0.0)
    - (if withLogSigma then logSigma else 0.0)
    + (if withQuadratic then -0.5 * (Standardized(y, mu, invSigma) * Standardized(y, mu, invSigma)) else 0.0)
  }

  /**
   * What one element adds to the y, mu and sigma buffers: mu's part negates
   * y's, and y's points back towards mu (it vanishes at y = mu).
   */
  function LogContribution(y: real, mu: real, invSigma: real): (c: Contribution)
    ensures c.dmu == -c.dy
    ensures y > mu ==> c.dy <= 0.0
    ensures y < mu ==> c.dy >= 0.0
    ensures y == mu ==> c.dy == 0.0 && c.dsigma == -invSigma
  {
    SlopeTowardsMu(y - mu, invSigma);
    Contribution(
      -(invSigma * Standardized(y, mu, invSigma)),
      invSigma * Standardized(y, mu, invSigma),
      -invSigma + invSigma * (Standardized(y, mu, invSigma) * Standardized(y, mu, invSigma)))
  }

  /** -(k ((y - mu) k)) has the sign opposite to y - mu: the data slope points back towards mu. */
  lemma SlopeTowardsMu(d: real, k: real)
    ensures d > 0.0 ==> -(k * (d * k)) <= 0.0
    ensures d < 0.0 ==> -(k * (d * k)) >= 0.0
  {
    assert k * (d * k) == d * (k * k);
    assert k * k >= 0.0;
  }

  // ---------------------------------------------------------------------------
  // normal_log: the whole call

  /**
   * The summands of the first `N` broadcast elements, with the summand flags
   * fixed for the call.
   */
  function LogSummands(L: Libm, propto: bool, withLogSigma: bool, withQuadratic: bool,
                       y: Arg, mu: Arg, sigma: Arg, N: nat): (s: seq<real>)
    requires Positive(sigma) && Covers(y, N) && Covers(mu, N) && Covers(sigma, N)
    ensures |s| == N
  {
    seq(N, n requires 0 <= n < N =>
      LogSummand(L, propto, withLogSigma, withQuadratic, At(y, n), At(mu, n), 1.0 / At(sigma, n),
                 if withLogSigma then L.log(At(sigma, n)) else 0.0))
  }

  /** The buffer contributions of the first `N` broadcast elements. */
  function LogContributions(y: Arg, mu: Arg, sigma: Arg, N: nat): (cs: seq<Contribution>)
    requires Positive(sigma) && Covers(y, N) && Covers(mu, N) && Covers(sigma, N)
    ensures |cs| == N
  {
    seq(N, n requires 0 <= n < N => LogContribution(At(y, n), At(mu, n), 1.0 / At(sigma, n)))
  }

  /**
   * The outcome of normal_log<propto>(y, mu, sigma): an empty argument returns 0
   * before any check; then sigma must be positive and the sizes consistent; then
   * under `propto` with nothing tracked the result is 0; otherwise the sum of
   * the summands with one buffer per operand (y, mu, sigma).
   */
  function LogDensity(L: Libm, propto: bool, y: Arg, mu: Arg, sigma: Arg): (r: Outcome)
    ensures r.DomainError? <==> !AnyEmpty([y, mu, sigma]) && !Positive(sigma)
    ensures r.InconsistentSizes?
        <==> !AnyEmpty([y, mu, sigma]) && Positive(sigma) && !ConsistentSizes([y, mu, sigma])
    ensures r.Ok? && r.partials == [] ==> r.value == 0.0
    ensures r.Ok? && r.partials != [] ==>
      |r.partials| == 3 && |r.partials[0]| == Length(y) && |r.partials[1]| == Length(mu)
      && |r.partials[2]| == Length(sigma)
  {
    if AnyEmpty([y, mu, sigma]) then Ok(0.0, [])
    else if !Positive(sigma) then DomainError("Scale parameter")
    else if !ConsistentSizes([y, mu, sigma]) then InconsistentSizes
    else if !IncludeSummand(propto, [y, mu, sigma]) then Ok(0.0, [])
    else
      Covers3(y, mu, sigma);
      var N := MaxSize([y, mu, sigma]);
      Ok(Sum(LogSummands(L, propto, IncludeSummand(propto, [sigma]), true, y, mu, sigma, N)),
         [Buffer(y, Dys(LogContributions(y, mu, sigma, N))),
          Buffer(mu, Dmus(LogContributions(y, mu, sigma, N))),
          Buffer(sigma, Dsigmas(LogContributions(y, mu, sigma, N)))])
  }

  /**
   * The tables normal_log fills once per stored sigma element (not once per
   * broadcast index): the reciprocal always, the log only when the -log(sigma)
   * summand is included (otherwise the table has no storage).
   */
  method FillSigmaTables(L: Libm, sigma: Arg, withLog: bool) returns (invSigma: seq<real>, logSigma: seq<real>)
    requires Positive(sigma)
    ensures |invSigma| == Length(sigma)
    ensures forall i :: 0 <= i < Length(sigma) ==> invSigma[i] == 1.0 / Values(sigma)[i]
    ensures |logSigma| == if withLog then Length(sigma) else 0
    ensures withLog ==> forall i :: 0 <= i < Length(sigma) ==> logSigma[i] == L.log(Values(sigma)[i])
  {
    var vals := Values(sigma);
    var inv := new real[|vals|];
    var lg := new real[if withLog then |vals| else 0];
    for i := 0 to |vals|
      invariant forall j :: 0 <= j < i ==> inv[j] == 1.0 / vals[j]
      invariant withLog ==> forall j :: 0 <= j < i ==> lg[j] == L.log(vals[j])
    {
      inv[i] := 1.0 / vals[i];
      if withLog {
        lg[i] := L.log(vals[i]);
      }
    }
    invSigma, logSigma := inv[..], lg[..];
  }

  /** Element `n` of the summands and contributions, read through the stored sigma element. */
  lemma LogElementAt(L: Libm, propto: bool, withLogSigma: bool, withQuadratic: bool,
                     y: Arg, mu: Arg, sigma: Arg, N: nat, n: nat)
    requires Positive(sigma) && Covers(y, N) && Covers(mu, N) && Covers(sigma, N) && n < N
    ensures Slot(sigma, n) < Length(sigma)
    ensures LogSummands(L, propto, withLogSigma, withQuadratic, y, mu, sigma, N)[n]
         == LogSummand(L, propto, withLogSigma, withQuadratic,
                       At(y, n), At(mu, n), 1.0 / Values(sigma)[Slot(sigma, n)],
                       if withLogSigma then L.log(Values(sigma)[Slot(sigma, n)]) else 0.0)
    ensures LogContributions(y, mu, sigma, N)[n]
         == LogContribution(At(y, n), At(mu, n), 1.0 / Values(sigma)[Slot(sigma, n)])
  {
    assert At(sigma, n) == Values(sigma)[Slot(sigma, n)];
  }

  /**
   * One iteration of the loop of normal_log: element `n`'s summand is added to
   * `logp` and its contributions to the buffers of the tracked operands.
   */
  method LogStep(L: Libm, propto: bool, withLogSigma: bool, withQuadratic: bool,
                 y: Arg, mu: Arg, sigma: Arg, N: nat, n: nat, invSigma: real, logSigma: real,
                 logp: real, dy: array<real>, dmu: array<real>, dsigma: array<real>)
    returns (logp': real)
    requires Positive(sigma) && Covers(y, N) && Covers(mu, N) && Covers(sigma, N) && n < N
    requires Slot(sigma, n) < Length(sigma) && invSigma == 1.0 / Values(sigma)[Slot(sigma, n)]
    requires withLogSigma ==> logSigma == L.log(Values(sigma)[Slot(sigma, n)])
    requires logp == Sum(LogSummands(L, propto, withLogSigma, withQuadratic, y, mu, sigma, N)[..n])
    requires dy != dmu && dy != dsigma && dmu != dsigma
    requires Filled3(y, mu, sigma, LogContributions(y, mu, sigma, N), n, dy, dmu, dsigma)
    modifies dy, dmu, dsigma
    ensures logp' == Sum(LogSummands(L, propto, withLogSigma, withQuadratic, y, mu, sigma, N)[..n + 1])
    ensures Filled3(y, mu, sigma, LogContributions(y, mu, sigma, N), n + 1, dy, dmu, dsigma)
  {
    ghost var cs := LogContributions(y, mu, sigma, N);
    LogElementAt(L, propto, withLogSigma, withQuadratic, y, mu, sigma, N, n);
    SumStep(LogSummands(L, propto, withLogSigma, withQuadratic, y, mu, sigma, N), n);
    logp' := logp + LogSummand(L, propto, withLogSigma, withQuadratic, At(y, n), At(mu, n), invSigma,
                               if withLogSigma then logSigma else 0.0);
    var c := LogContribution(At(y, n), At(mu, n), invSigma);
    AddContribution(dy, y, Dys(cs), n, c.dy);
    AddContribution(dmu, mu, Dmus(cs), n, c.dmu);
    AddContribution(dsigma, sigma, Dsigmas(cs), n, c.dsigma);
  }

  /** The loop of normal_log over `N` broadcast elements, once every check has passed. */
  method LogLoop(L: Libm, propto: bool, withLogSigma: bool, withQuadratic: bool,
                 y: Arg, mu: Arg, sigma: Arg, N: nat)
    returns (logp: real, dy: seq<real>, dmu: seq<real>, dsigma: seq<real>)
    requires Positive(sigma) && Covers(y, N) && Covers(mu, N) && Covers(sigma, N)
    ensures logp == Sum(LogSummands(L, propto, withLogSigma, withQuadratic, y, mu, sigma, N))
    ensures dy == Buffer(y, Dys(LogContributions(y, mu, sigma, N)))
    ensures dmu == Buffer(mu, Dmus(LogContributions(y, mu, sigma, N)))
    ensures dsigma == Buffer(sigma, Dsigmas(LogContributions(y, mu, sigma, N)))
  {
    var invSigma, logSigma := FillSigmaTables(L, sigma, withLogSigma);

    ghost var terms := LogSummands(L, propto, withLogSigma, withQuadratic, y, mu, sigma, N);
    ghost var cs := LogContributions(y, mu, sigma, N);
    var dyArr, dmuArr, dsigmaArr := ZeroBuffers3(y, mu, sigma, cs);
    logp := 0.0;
    for n := 0 to N
      invariant logp == Sum(terms[..n])
      invariant Filled3(y, mu, sigma, cs, n, dyArr, dmuArr, dsigmaArr)
    {
      var k := Slot(sigma, n);
      LogElementAt(L, propto, withLogSigma, withQuadratic, y, mu, sigma, N, n);
      logp := LogStep(L, propto, withLogSigma, withQuadratic, y, mu, sigma, N, n,
                      invSigma[k], if withLogSigma then logSigma[k] else 0.0,
                      logp, dyArr, dmuArr, dsigmaArr);
    }
    assert terms[..N] == terms;
    assert Dys(cs)[..N] == Dys(cs) && Dmus(cs)[..N] == Dmus(cs) && Dsigmas(cs)[..N] == Dsigmas(cs);
    dy, dmu, dsigma := dyArr[..], dmuArr[..], dsigmaArr[..];
  }

  /** normal_log<propto>(y, mu, sigma). */
  method NormalLog(L: Libm, propto: bool, y: Arg, mu: Arg, sigma: Arg) returns (r: Outcome)
    ensures r == LogDensity(L, propto, y, mu, sigma)
  {
    if AnyEmpty([y, mu, sigma]) {
      return Ok(0.0, []);
    }
    if !Positive(sigma) {
      return DomainError("Scale parameter");
    }
    if !ConsistentSizes([y, mu, sigma]) {
      return InconsistentSizes;
    }
    if !IncludeSummand(propto, [y, mu, sigma]) {
      return Ok(0.0, []);
    }
    Covers3(y, mu, sigma);
    var logp, dy, dmu, dsigma :=
      LogLoop(L, propto, IncludeSummand(propto, [sigma]), true, y, mu, sigma, MaxSize([y, mu, sigma]));
    r := Ok(logp, [dy, dmu, dsigma]);
  }

  // ---------------------------------------------------------------------------
  // normal_log: properties

  /** Once every check passes and the call is not cut short by `propto`, the outcome is the loop's. */
  lemma LogDensityChecked(L: Libm, propto: bool, y: Arg, mu: Arg, sigma: Arg)
    requires Length(y) > 0 && Length(mu) > 0 && Length(sigma) > 0
    requires Positive(sigma) && Conformable3(y, mu, sigma)
    requires !propto || y.tracked || mu.tracked || sigma.tracked
    ensures var N := MaxSize([y, mu, sigma]);
      LogDensity(L, propto, y, mu, sigma)
      == Ok(Sum(LogSummands(L, propto, !propto || sigma.tracked, true, y, mu, sigma, N)),
            [Buffer(y, Dys(LogContributions(y, mu, sigma, N))),
             Buffer(mu, Dmus(LogContributions(y, mu, sigma, N))),
             Buffer(sigma, Dsigmas(LogContributions(y, mu, sigma, N)))])
  {
    Flags3(y, mu, sigma);
    Covers3(y, mu, sigma);
  }

  /** An empty argument returns 0 with no buffers, before sigma is even looked at. */
  lemma LogEmptyReturnsZero(L: Libm, propto: bool, y: Arg, mu: Arg, sigma: Arg)
    requires Length(y) == 0 || Length(mu) == 0 || Length(sigma) == 0
    ensures LogDensity(L, propto, y, mu, sigma) == Ok(0.0, [])
  {
    Flags3(y, mu, sigma);
  }

  /**
   * Under `propto` with every argument constant the result is 0, but only once
   * the checks have passed: a non-positive sigma still raises its error.
   */
  lemma LogProptoConstantChecksFirst(L: Libm, y: Arg, mu: Arg, sigma: Arg)
    requires Length(y) > 0 && Length(mu) > 0 && Length(sigma) > 0
    requires !y.tracked && !mu.tracked && !sigma.tracked
    ensures !Positive(sigma) ==> LogDensity(L, true, y, mu, sigma) == DomainError("Scale parameter")
    ensures Positive(sigma) && !Conformable3(y, mu, sigma) ==> LogDensity(L, true, y, mu, sigma) == InconsistentSizes
    ensures Positive(sigma) && Conformable3(y, mu, sigma) ==> LogDensity(L, true, y, mu, sigma) == Ok(0.0, [])
  {
    Flags3(y, mu, sigma);
    Covers3(y, mu, sigma);
  }

  /** With scalar arguments only, the result is the single summand (or 0 when it is left out). */
  lemma LogScalarCall(L: Libm, propto: bool, y: real, ty: bool, m: real, tm: bool, s: real, ts: bool)
    requires s > 0.0
    ensures LogDensity(L, propto, Scalar(y, ty), Scalar(m, tm), Scalar(s, ts)).Ok?
    ensures LogDensity(L, propto, Scalar(y, ty), Scalar(m, tm), Scalar(s, ts)).value
         == if !propto || ty || tm || ts
            then LogSummand(L, propto, !propto || ts, true, y, m, 1.0 / s, if !propto || ts then L.log(s) else 0.0)
            else 0.0
  {
    var one, mu, sigma := Scalar(y, ty), Scalar(m, tm), Scalar(s, ts);
    Flags3(one, mu, sigma);
    Covers3(one, mu, sigma);
    assert MaxSize([one, mu, sigma]) == 1;
    if !propto || ty || tm || ts {
      var t := LogSummands(L, propto, !propto || ts, true, one, mu, sigma, 1);
      assert Sum(t) == Sum(t[..0]) + t[0];
      LogElementAt(L, propto, !propto || ts, true, one, mu, sigma, 1, 0);
    }
  }

  /**
   * Broadcasting: a sequence of observations against a scalar location and
   * scale gives the sum of the single-observation results.
   */
  lemma LogBroadcastSums(L: Libm, propto: bool, ys: seq<real>, ty: bool, m: real, tm: bool, s: real, ts: bool)
    requires |ys| > 0 && s > 0.0
    ensures LogDensity(L, propto, Vector(ys, ty), Scalar(m, tm), Scalar(s, ts)).Ok?
    ensures forall i :: 0 <= i < |ys| ==> LogDensity(L, propto, Scalar(ys[i], ty), Scalar(m, tm), Scalar(s, ts)).Ok?
    ensures LogDensity(L, propto, Vector(ys, ty), Scalar(m, tm), Scalar(s, ts)).value
         == Sum(seq(|ys|, i requires 0 <= i < |ys| =>
                  LogDensity(L, propto, Scalar(ys[i], ty), Scalar(m, tm), Scalar(s, ts)).value))
  {
    var v := Vector(ys, ty);
    var mu, sigma := Scalar(m, tm), Scalar(s, ts);
    Flags3(v, mu, sigma);
    Covers3(v, mu, sigma);
    var N := MaxSize([v, mu, sigma]);
    assert N == |ys|;
    var kept := !propto || ty || tm || ts;
    var withLog := !propto || ts;
    var parts := seq(|ys|, i requires 0 <= i < |ys| =>
                   LogDensity(L, propto, Scalar(ys[i], ty), Scalar(m, tm), Scalar(s, ts)).value);
    forall i | 0 <= i < |ys|
      ensures LogDensity(L, propto, Scalar(ys[i], ty), mu, sigma).Ok?
      ensures parts[i] == if kept then LogSummands(L, propto, withLog, true, v, mu, sigma, N)[i] else 0.0
    {
      LogBroadcastElement(L, propto, ys, ty, m, tm, s, ts, i);
    }
    if kept {
      assert parts == LogSummands(L, propto, withLog, true, v, mu, sigma, N);
      assert LogDensity(L, propto, v, mu, sigma).value == Sum(LogSummands(L, propto, withLog, true, v, mu, sigma, N));
    } else {
      SumConstant(parts, 0.0);
      assert LogDensity(L, propto, v, mu, sigma) == Ok(0.0, []);
    }
  }

  /** Observation `i` alone gives the summand that the whole call adds for it. */
  lemma LogBroadcastElement(L: Libm, propto: bool, ys: seq<real>, ty: bool, m: real, tm: bool, s: real, ts: bool,
                            i: nat)
    requires i < |ys| && s > 0.0
    ensures LogDensity(L, propto, Scalar(ys[i], ty), Scalar(m, tm), Scalar(s, ts)).Ok?
    ensures LogDensity(L, propto, Scalar(ys[i], ty), Scalar(m, tm), Scalar(s, ts)).value
         == if !propto || ty || tm || ts
            then LogSummands(L, propto, !propto || ts, true, Vector(ys, ty), Scalar(m, tm), Scalar(s, ts), |ys|)[i]
            else 0.0
  {
    LogScalarCall(L, propto, ys[i], ty, m, tm, s, ts);
    LogElementAt(L, propto, !propto || ts, true, Vector(ys, ty), Scalar(m, tm), Scalar(s, ts), |ys|, i);
  }

  /** Two observations against a scalar location and scale: the two single results add up. */
  lemma LogBroadcastPair(L: Libm, propto: bool, y1: real, y2: real, ty: bool, m: real, tm: bool, s: real, ts: bool)
    requires s > 0.0
    ensures LogDensity(L, propto, Vector([y1, y2], ty), Scalar(m, tm), Scalar(s, ts)).value
         == LogDensity(L, propto, Scalar(y1, ty), Scalar(m, tm), Scalar(s, ts)).value
          + LogDensity(L, propto, Scalar(y2, ty), Scalar(m, tm), Scalar(s, ts)).value
  {
    var ys := [y1, y2];
    LogBroadcastSums(L, propto, ys, ty, m, tm, s, ts);
    var parts := seq(|ys|, i requires 0 <= i < |ys| =>
                   LogDensity(L, propto, Scalar(ys[i], ty), Scalar(m, tm), Scalar(s, ts)).value);
    assert parts[..1][..0] == [];
    assert parts[..1] == parts[..|parts| - 1];
    assert Sum(parts[..1]) == parts[0];
    assert Sum(parts) == parts[0] + parts[1];
  }

  /**
   * The per-element derivatives: y receives -(y - mu) / sigma^2, mu exactly
   * its negation, and sigma (z^2 - 1) / sigma with z = (y - mu) / sigma.
   */
  lemma LogContributionFormulas(y: real, mu: real, sigma: real)
    requires sigma > 0.0
    ensures LogContribution(y, mu, 1.0 / sigma).dy == -(y - mu) / (sigma * sigma)
    ensures LogContribution(y, mu, 1.0 / sigma).dmu == -LogContribution(y, mu, 1.0 / sigma).dy
    ensures LogContribution(y, mu, 1.0 / sigma).dsigma
         == ((y - mu) / sigma * ((y - mu) / sigma) - 1.0) / sigma
  {
    var inv := 1.0 / sigma;
    assert Standardized(y, mu, inv) == (y - mu) / sigma;
    assert inv * ((y - mu) / sigma) == (y - mu) / (sigma * sigma);
  }

  /**
   * The y and mu contributions are the exact slopes of the summand: moving y
   * (or mu) by h changes the summand by h times the contribution, plus the
   * curvature term -h^2 / (2 sigma^2).
   */
  lemma LogContributionIsSlope(L: Libm, propto: bool, withLogSigma: bool,
                               y: real, mu: real, invSigma: real, logSigma: real, h: real)
    ensures LogSummand(L, propto, withLogSigma, true, y + h, mu, invSigma, logSigma)
          - LogSummand(L, propto, withLogSigma, true, y, mu, invSigma, logSigma)
         == h * LogContribution(y, mu, invSigma).dy - 0.5 * (h * h) * (invSigma * invSigma)
    ensures LogSummand(L, propto, withLogSigma, true, y, mu + h, invSigma, logSigma)
          - LogSummand(L, propto, withLogSigma, true, y, mu, invSigma, logSigma)
         == h * LogContribution(y, mu, invSigma).dmu - 0.5 * (h * h) * (invSigma * invSigma)
  {
    SummandShift(L, propto, withLogSigma, y, mu, y + h, mu, invSigma, logSigma, h);
    SummandShift(L, propto, withLogSigma, y, mu, y, mu + h, invSigma, logSigma, -h);
    assert -h * -h == h * h;
    assert -h * LogContribution(y, mu, invSigma).dy == h * LogContribution(y, mu, invSigma).dmu;
  }

  /**
   * Moving y - mu by h changes the summand by h times the y contribution,
   * less the curvature term h^2 k^2 / 2.
   */
  lemma SummandShift(L: Libm, propto: bool, withLogSigma: bool, y: real, mu: real, y': real, mu': real,
                     invSigma: real, logSigma: real, h: real)
    requires y' - mu' == y - mu + h
    ensures LogSummand(L, propto, withLogSigma, true, y', mu', invSigma, logSigma)
          - LogSummand(L, propto, withLogSigma, true, y, mu, invSigma, logSigma)
         == h * LogContribution(y, mu, invSigma).dy - 0.5 * (h * h) * (invSigma * invSigma)
  {
    QuadraticShift(y - mu, h, invSigma);
    assert Standardized(y', mu', invSigma) == (y - mu + h) * invSigma;
  }

  /** The algebra behind the slopes: -((d + h) k)^2 / 2 + (d k)^2 / 2 = -h k (d k) - h^2 k^2 / 2. */
  lemma QuadraticShift(d: real, h: real, k: real)
    ensures -0.5 * (((d + h) * k) * ((d + h) * k)) - -0.5 * ((d * k) * (d * k))
         == h * -(k * (d * k)) - 0.5 * (h * h) * (k * k)
  {
    assert ((d + h) * k) * ((d + h) * k) == (d * k) * (d * k) + 2.0 * h * (k * (d * k)) + (h * h) * (k * k);
  }

  /** The derivative of log N(y | mu, sigma) with respect to y: -(y - mu) / sigma^2. */
  function DataSlope(y: real, mu: real, sigma: real): real
    requires sigma > 0.0
  {
    -(y - mu) / (sigma * sigma)
  }

  /** The data slope at each of the first `N` broadcast elements. */
  function DataSlopes(y: Arg, mu: Arg, sigma: Arg, N: nat): (s: seq<real>)
    requires Positive(sigma) && Covers(y, N) && Covers(mu, N) && Covers(sigma, N)
    ensures |s| == N
  {
    seq(N, n requires 0 <= n < N => DataSlope(At(y, n), At(mu, n), At(sigma, n)))
  }

  /** The y contributions over the broadcast are the data slopes. */
  lemma LogDataContributions(y: Arg, mu: Arg, sigma: Arg, N: nat)
    requires Positive(sigma) && Covers(y, N) && Covers(mu, N) && Covers(sigma, N)
    ensures Dys(LogContributions(y, mu, sigma, N)) == DataSlopes(y, mu, sigma, N)
  {
    var cs := LogContributions(y, mu, sigma, N);
    forall n | 0 <= n < N
      ensures Dys(cs)[n] == DataSlopes(y, mu, sigma, N)[n]
    {
      LogDataContributionAt(y, mu, sigma, N, n);
    }
  }

  /** Element `n` of `LogDataContributions`, read through the broadcast views. */
  lemma LogDataContributionAt(y: Arg, mu: Arg, sigma: Arg, N: nat, n: nat)
    requires Positive(sigma) && Covers(y, N) && Covers(mu, N) && Covers(sigma, N) && n < N
    ensures LogContributions(y, mu, sigma, N)[n].dy == DataSlopes(y, mu, sigma, N)[n]
  {
    var yn, mun, sn := At(y, n), At(mu, n), At(sigma, n);
    assert sn == Values(sigma)[Slot(sigma, n)];
    assert LogContributions(y, mu, sigma, N)[n] == LogContribution(yn, mun, 1.0 / sn);
    assert DataSlopes(y, mu, sigma, N)[n] == DataSlope(yn, mun, sn);
    LogContributionFormulas(yn, mun, sn);
  }

  /** The y buffer of a full call with a sequence y is the sequence of data slopes. */
  lemma LogDataPartialsVector(L: Libm, propto: bool, ys: seq<real>, mu: Arg, sigma: Arg)
    requires |ys| > 0 && Length(mu) > 0 && Length(sigma) > 0
    requires Positive(sigma) && Conformable3(Vector(ys, true), mu, sigma)
    ensures LogDensity(L, propto, Vector(ys, true), mu, sigma).Ok?
    ensures |LogDensity(L, propto, Vector(ys, true), mu, sigma).partials| == 3
    ensures LogDensity(L, propto, Vector(ys, true), mu, sigma).partials[0]
         == DataSlopes(Vector(ys, true), mu, sigma, |ys|)
  {
    var y := Vector(ys, true);
    LogDensityChecked(L, propto, y, mu, sigma);
    var N := MaxSize([y, mu, sigma]);
    var d := Dys(LogContributions(y, mu, sigma, N));
    LogDataContributions(y, mu, sigma, N);
    ScatterVector(y, d);
    assert LogDensity(L, propto, y, mu, sigma).partials[0] == Scatter(y, d);
    assert Scatter(y, d) == d;
  }

  /** The y buffer of a full call with a scalar y: its one slot receives the sum of the data slopes. */
  lemma LogDataPartialsScalar(L: Libm, propto: bool, y: real, mu: Arg, sigma: Arg)
    requires Length(mu) > 0 && Length(sigma) > 0
    requires Positive(sigma) && Conformable3(Scalar(y, true), mu, sigma)
    ensures LogDensity(L, propto, Scalar(y, true), mu, sigma).Ok?
    ensures LogDensity(L, propto, Scalar(y, true), mu, sigma).partials
         == [[Sum(DataSlopes(Scalar(y, true), mu, sigma, MaxSize([Scalar(y, true), mu, sigma])))],
             LogDensity(L, propto, Scalar(y, true), mu, sigma).partials[1],
             LogDensity(L, propto, Scalar(y, true), mu, sigma).partials[2]]
  {
    var a := Scalar(y, true);
    LogDensityChecked(L, propto, a, mu, sigma);
    var N := MaxSize([a, mu, sigma]);
    var d := Dys(LogContributions(a, mu, sigma, N));
    LogDataContributions(a, mu, sigma, N);
    ScatterScalar(a, d);
  }

  /**
   * When y and mu are both tracked and of the same shape, the mu buffer is
   * exactly the negation of the y buffer.
   */
  lemma LogLocationPartialsNegate(L: Libm, propto: bool, y: Arg, mu: Arg, sigma: Arg)
    requires Length(y) > 0 && Length(mu) > 0 && Length(sigma) > 0
    requires Positive(sigma) && Conformable3(y, mu, sigma)
    requires y.tracked && mu.tracked && y.Scalar? == mu.Scalar?
    ensures LogDensity(L, propto, y, mu, sigma).Ok? && |LogDensity(L, propto, y, mu, sigma).partials| == 3
    ensures LogDensity(L, propto, y, mu, sigma).partials[1] == Neg(LogDensity(L, propto, y, mu, sigma).partials[0])
  {
    Flags3(y, mu, sigma);
    Covers3(y, mu, sigma);
    var N := MaxSize([y, mu, sigma]);
    var cs := LogContributions(y, mu, sigma, N);
    assert Dmus(cs) == Neg(Dys(cs));
    ScatterNeg(mu, Dys(cs));
    ScatterSameShape(mu, y, Dys(cs));
  }

  /**
   * What `propto` drops at each of the first `N` elements: the constant
   * -log(sqrt(2 pi)), plus -log(sigma) when sigma is constant.
   */
  function DroppedConstants(L: Libm, sigma: Arg, N: nat): (s: seq<real>)
    requires Covers(sigma, N)
    ensures |s| == N
  {
    seq(N, n requires 0 <= n < N => L.negLogSqrtTwoPi - (if sigma.tracked then 0.0 else L.log(At(sigma, n))))
  }

  /**
   * When something is tracked, `propto` drops exactly the constants above and
   * leaves the buffers unchanged.
   */
  lemma LogProptoOffset(L: Libm, y: Arg, mu: Arg, sigma: Arg)
    requires Length(y) > 0 && Length(mu) > 0 && Length(sigma) > 0
    requires Positive(sigma) && Conformable3(y, mu, sigma)
    requires y.tracked || mu.tracked || sigma.tracked
    ensures LogDensity(L, false, y, mu, sigma).Ok? && LogDensity(L, true, y, mu, sigma).Ok?
    ensures LogDensity(L, false, y, mu, sigma).partials == LogDensity(L, true, y, mu, sigma).partials
    ensures LogDensity(L, false, y, mu, sigma).value - LogDensity(L, true, y, mu, sigma).value
         == Sum(DroppedConstants(L, sigma, MaxSize([y, mu, sigma])))
  {
    LogDensityChecked(L, false, y, mu, sigma);
    LogDensityChecked(L, true, y, mu, sigma);
    SummandsDifference(L, sigma.tracked, y, mu, sigma, MaxSize([y, mu, sigma]));
  }

  /** The summands with and without `propto` differ by the dropped constants. */
  lemma SummandsDifference(L: Libm, sigmaTracked: bool, y: Arg, mu: Arg, sigma: Arg, N: nat)
    requires Positive(sigma) && Covers(y, N) && Covers(mu, N) && Covers(sigma, N)
    requires sigmaTracked == sigma.tracked
    ensures Sum(LogSummands(L, false, true, true, y, mu, sigma, N))
          - Sum(LogSummands(L, true, sigmaTracked, true, y, mu, sigma, N))
         == Sum(DroppedConstants(L, sigma, N))
  {
    var full := LogSummands(L, false, true, true, y, mu, sigma, N);
    var kept := LogSummands(L, true, sigmaTracked, true, y, mu, sigma, N);
    var dropped := DroppedConstants(L, sigma, N);
    SumSub(full, kept);
    forall n | 0 <= n < N
      ensures full[n] - kept[n] == dropped[n]
    {
      LogElementAt(L, false, true, true, y, mu, sigma, N, n);
      LogElementAt(L, true, sigmaTracked, true, y, mu, sigma, N, n);
    }
    assert Diff(full, kept) == dropped;
  }

  /** With a constant scalar sigma, `propto` drops N (-log(sqrt(2 pi)) - log(sigma)) in all. */
  lemma DroppedConstantsConstantScale(L: Libm, s: real, N: nat)
    ensures Sum(DroppedConstants(L, Scalar(s, false), N)) == N as real * (L.negLogSqrtTwoPi - L.log(s))
  {
    var dropped := DroppedConstants(L, Scalar(s, false), N);
    forall n | 0 <= n < N
      ensures dropped[n] == L.negLogSqrtTwoPi - L.log(s)
    {
      assert At(Scalar(s, false), n) == s;
    }
    SumConstant(dropped, L.negLogSqrtTwoPi - L.log(s));
  }
}
