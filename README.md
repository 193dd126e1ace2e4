# Normal distribution evaluators and the 3F2 convergence check, in Dafny

This project models two parts of the Stan math library.

The first is the normal distribution header
(`src/stan/prob/distributions/univariate/continuous/normal.hpp`):

- `normal_log<propto>(y, mu, sigma)`, the log density summed over the
  broadcast elements;
- `normal_ss_log<propto>(y_bar, s_squared, n_obs, mu, sigma)`, the same
  density written with a sample's sufficient statistics;
- `normal_cdf`, `normal_cdf_log` and `normal_ccdf_log`, the cumulative
  distribution function, its logarithm and the logarithm of its complement.

Each evaluator takes scalar or sequence arguments. A scalar is read as the
same value at every broadcast index. Each evaluator returns a value together
with one derivative buffer per operand. A constant (untracked) operand's
buffer is never written. A tracked scalar operand's single slot accumulates
the contributions of every broadcast index.

The second is `check_3F2_converges`
(`stan/math/prim/scal/err/check_3F2_converges.hpp`). It decides whether the
generalized hypergeometric series 3F2(a1, a2, a3; b1, b2; z) may be evaluated.

Modules:

- `Broadcast`: arguments, the broadcast view, the size and emptiness tests, and
  the outcome of a call (a value with buffers, a domain error naming the
  offending argument's role, or inconsistent sizes).
- `Accumulate`: running sums and products, and the derivative buffers. A
  buffer is specified as the contributions scattered to their slots.
  `AddContribution` and `RescaleInPlace` are the in-place writes into an array.
- `Elementary`: `erf`, `erfc`, `exp`, `log` and the irrational constants. They
  are passed in as a value (`Libm`), so every property holds whatever they
  compute.
- `NormalDensity`: `normal_log`. `NormalLog` runs the source's loop over arrays,
  after filling the per-sigma tables once per stored sigma element, and is
  proved equal to the specification function `LogDensity`.
- `NormalSufficient`: `normal_ss_log`, built the same way (`NormalSsLog` against
  `SsLogDensity`).
- `TailRegion`: the four-region tail classifier shared by the three cdf
  evaluators, and their per-element terms and derivative contributions.
- `NormalCdf`: the three cdf evaluators.
  - They share one loop shape, selected by a `Variant`.
  - `NormalCdfEval`, `NormalCdfLogEval` and `NormalCcdfLogEval` are proved
    equal to `Evaluate`.
  - `NormalCdfEval` includes normal_cdf's in-place post-pass, which multiplies
    every tracked buffer by the final cdf.
- `Hypergeometric`: `check_3F2_converges` as a predicate, with the number of
  terms of a terminating series.

## Model

| member | source | states |
|---|---|---|
| Broadcast.MaxSize | src/stan/prob/distributions/univariate/continuous/normal.hpp:81 | the broadcast length is at least every argument's length and equal to one of them (0 for no arguments) |
| Accumulate.AddContribution | src/stan/prob/distributions/univariate/continuous/normal.hpp:114-120 | a tracked operand's buffer gains the contribution at the element's slot (slot 0 for a scalar); a constant operand's buffer is left as it was |
| Accumulate.RescaleInPlace | src/stan/prob/distributions/univariate/continuous/normal.hpp:339-347 | every slot of the buffer ends up multiplied by the factor, in place |
| NormalDensity.FillSigmaTables | src/stan/prob/distributions/univariate/continuous/normal.hpp:83-89 | one table entry per stored sigma element (not per broadcast index): 1/sigma always, log sigma when the -log sigma summand is kept, and an empty log table otherwise |
| NormalDensity.LogSummand | src/stan/prob/distributions/univariate/continuous/normal.hpp:104-110 | an element's summand never exceeds its constant part (-log sqrt(2 pi) unless propto, -log sigma when kept), and equals it exactly at the mode y = mu |
| NormalDensity.LogContribution | src/stan/prob/distributions/univariate/continuous/normal.hpp:112-120 | mu's contribution is the negation of y's; y's points back towards mu (non-positive above it, non-negative below it, zero at it), and at y = mu sigma's is -1/sigma |
| NormalDensity.LogDensity | src/stan/prob/distributions/univariate/continuous/normal.hpp:41-122 | a domain error exactly when no argument is empty and some sigma is not positive; inconsistent sizes exactly when sigma passes but the sizes disagree; a call returning before the buffers are set up gives 0; otherwise three buffers of the operands' lengths |
| NormalDensity.LogStep | src/stan/prob/distributions/univariate/continuous/normal.hpp:91-121 | one loop iteration extends the running sum by element n's summand and each buffer by element n's contribution, read through the stored sigma tables |
| NormalDensity.LogLoop | src/stan/prob/distributions/univariate/continuous/normal.hpp:83-121 | after the loop, logp is the sum of all per-element summands and each buffer holds every element's contribution at its slot |
| NormalDensity.NormalLog | src/stan/prob/distributions/univariate/continuous/normal.hpp:41-122 | the evaluator's outcome is `LogDensity` in every case: empty argument, non-positive scale, inconsistent sizes, propto with nothing tracked, or the computed value and buffers |
| NormalDensity.LogDensityChecked | src/stan/prob/distributions/univariate/continuous/normal.hpp:63-122 | once every check passes and propto does not cut the call short, the value is the sum of the summands (-log sigma kept unless propto with a constant sigma) and the buffers are the scattered contributions |
| NormalDensity.LogEmptyReturnsZero | src/stan/prob/distributions/univariate/continuous/normal.hpp:54-57 | any empty argument gives 0 with no buffers, whatever sigma is |
| NormalDensity.LogProptoConstantChecksFirst | src/stan/prob/distributions/univariate/continuous/normal.hpp:63-73 | under propto with every argument constant, a bad scale or inconsistent sizes are still reported; only a call that passes the checks returns 0 |
| NormalDensity.LogScalarCall | src/stan/prob/distributions/univariate/continuous/normal.hpp:91-122 | with scalar arguments the result is the single element's summand, or 0 when propto drops everything |
| NormalDensity.LogBroadcastSums | src/stan/prob/distributions/univariate/continuous/normal.hpp:78-122 | a sequence of observations against scalar mu and sigma gives the sum of the one-observation results |
| NormalDensity.LogBroadcastPair | src/stan/prob/distributions/univariate/continuous/normal.hpp:78-122 | for two observations the result is the sum of the two single results |
| NormalDensity.LogContributionFormulas | src/stan/prob/distributions/univariate/continuous/normal.hpp:97-120 | per element, y receives -(y - mu)/sigma^2, mu exactly its negation, and sigma (z^2 - 1)/sigma with z = (y - mu)/sigma |
| NormalDensity.LogContributionIsSlope | src/stan/prob/distributions/univariate/continuous/normal.hpp:104-117 | the y and mu contributions are the exact first-order change of the summand when y or mu moves by h, the remainder being the curvature -h^2/(2 sigma^2) |
| NormalDensity.LogDataContributions | src/stan/prob/distributions/univariate/continuous/normal.hpp:113-115 | the y contributions over the broadcast are the data slopes -(y_n - mu_n)/sigma_n^2 |
| NormalDensity.LogDataPartialsVector | src/stan/prob/distributions/univariate/continuous/normal.hpp:113-115 | a tracked sequence y gets exactly the data slope of each element in its own slot |
| NormalDensity.LogDataPartialsScalar | src/stan/prob/distributions/univariate/continuous/normal.hpp:113-115 | a tracked scalar y gets the sum of the data slopes of all broadcast elements in its one slot |
| NormalDensity.LogLocationPartialsNegate | src/stan/prob/distributions/univariate/continuous/normal.hpp:113-117 | when y and mu are tracked and have the same shape, mu's buffer is exactly the negation of y's |
| NormalDensity.LogProptoOffset | src/stan/prob/distributions/univariate/continuous/normal.hpp:104-110 | with something tracked, propto leaves the buffers unchanged, and the value without propto minus the value with it is exactly the sum of the dropped constants |
| NormalDensity.SummandsDifference | src/stan/prob/distributions/univariate/continuous/normal.hpp:105-108 | element by element, the full and the propto summands differ by -log sqrt(2 pi), plus -log sigma when sigma is constant |
| NormalDensity.DroppedConstantsConstantScale | src/stan/prob/distributions/univariate/continuous/normal.hpp:105-108 | with a constant scalar sigma, propto drops N(-log sqrt(2 pi) - log sigma) in all |
| NormalSufficient.SsStep | src/stan/prob/distributions/univariate/continuous/normal.hpp:207-243 | one loop iteration extends the running sum by element i's summand and each of the four buffers by element i's contribution |
| NormalSufficient.SsSummand | src/stan/prob/distributions/univariate/continuous/normal.hpp:213-226 | with one observation and no spread (n_obs = 1, s_squared = 0) the summand is exactly normal_log's summand for y = y_bar |
| NormalSufficient.SsContributionAt | src/stan/prob/distributions/univariate/continuous/normal.hpp:229-242 | mu's contribution negates y_bar's, s_squared's is always negative, and with n_obs = 1 and s_squared = 0 the y_bar and sigma contributions are normal_log's |
| NormalSufficient.SsLogDensity | src/stan/prob/distributions/univariate/continuous/normal.hpp:154-245 | a domain error exactly when no argument is empty and n_obs or sigma has a non-positive element, naming the number of observations exactly when n_obs is at fault; inconsistent sizes exactly when both pass and the sizes disagree; an early return gives 0; otherwise four buffers of the lengths of y_bar, s_squared, mu and sigma |
| NormalSufficient.SsLoop | src/stan/prob/distributions/univariate/continuous/normal.hpp:198-243 | after the loop, logp is the sum of all summands and the four buffers (y_bar, s_squared, mu, sigma) hold the scattered contributions |
| NormalSufficient.NormalSsLog | src/stan/prob/distributions/univariate/continuous/normal.hpp:154-245 | the evaluator's outcome is `SsLogDensity` in every case, including both domain errors, the size error and the propto short-circuit |
| NormalSufficient.SsLogDensityChecked | src/stan/prob/distributions/univariate/continuous/normal.hpp:193-244 | once every check passes, the value is the sum of the summands and there are four buffers, none for n_obs |
| NormalSufficient.SsEmptyReturnsZero | src/stan/prob/distributions/univariate/continuous/normal.hpp:167-172 | any empty argument gives 0 with no buffers, before any argument is checked |
| NormalSufficient.SsCheckOrder | src/stan/prob/distributions/univariate/continuous/normal.hpp:180-184 | n_obs is checked before sigma: with both invalid the error names the number of observations |
| NormalSufficient.SsObservationCountIsData | src/stan/prob/distributions/univariate/continuous/normal.hpp:198-210 | whether n_obs is marked as tracked changes nothing in the outcome: it has no buffer and only its values are read |
| NormalSufficient.SsLocationPartialsNegate | src/stan/prob/distributions/univariate/continuous/normal.hpp:230-236 | when y_bar and mu are tracked and have the same shape, mu's buffer is the exact negation of y_bar's |
| NormalSufficient.MuColumnNegatesYBar | src/stan/prob/distributions/univariate/continuous/normal.hpp:231-235 | element by element, the mu contribution is the negation of the y_bar contribution n_obs(mu - y_bar)/sigma^2 |
| NormalSufficient.SsYBarSlope | src/stan/prob/distributions/univariate/continuous/normal.hpp:222-233 | the y_bar contribution is the exact first-order change of the summand in y_bar, the remainder being -n_obs h^2/(2 sigma^2): the quadratic term is subtracted |
| NormalSufficient.SsMuSlope | src/stan/prob/distributions/univariate/continuous/normal.hpp:222-235 | the mu contribution is the exact first-order change of the summand in mu, with the same remainder |
| NormalSufficient.SsSSquaredSlope | src/stan/prob/distributions/univariate/continuous/normal.hpp:222-239 | the s_squared contribution -1/(2 sigma^2) is the exact change of the summand per unit of s_squared |
| TailRegion.ScaledDiff | src/stan/prob/distributions/univariate/continuous/normal.hpp:314 | the scaled difference x satisfies x sqrt(2) sigma = y - mu |
| TailRegion.ClassifyIntervals | src/stan/prob/distributions/univariate/continuous/normal.hpp:316-323 | the thresholds are ordered and the four regions are exactly the intervals x < -37.5c, -37.5c <= x < -5c, -5c <= x <= 8.25c and x > 8.25c, with c = 1/sqrt 2 |
| TailRegion.Classify | src/stan/prob/distributions/univariate/continuous/normal.hpp:316-323 | deep left exactly when x < -37.5c; the left tail lies in [-37.5c, -5c), right saturation beyond 8.25c and the central region in [-5c, 8.25c] |
| TailRegion.CdfFactor | src/stan/prob/distributions/univariate/continuous/normal.hpp:316-326 | cdf_ is half of one_p_erf; it is 0 in the deep left tail and 1 right of 8.25c |
| TailRegion.OnePlusErf | src/stan/prob/distributions/univariate/continuous/normal.hpp:397-405 | one_p_erf and one_m_erf add up to 2; one_p_erf is 0 in the deep left tail and 2 right of 8.25c |
| TailRegion.OneMinusErf | src/stan/prob/distributions/univariate/continuous/normal.hpp:469-477 | one_m_erf is 2 in the deep left tail, 2 - erfc(-x) in the left tail, 1 - erf(x) in the central region and 0 right of 8.25c |
| TailRegion.CdfRepDeriv | src/stan/prob/distributions/univariate/continuous/normal.hpp:329-330 | normal_cdf's rep_deriv is normal_cdf_log's divided by sigma: the halves of 0.5 and cdf_ = one_p_erf/2 cancel |
| TailRegion.CdfLogRepDeriv | src/stan/prob/distributions/univariate/continuous/normal.hpp:411-412 | rep_deriv times one_p_erf is the kernel sqrt(2/pi) exp(-x^2) |
| TailRegion.CcdfLogRepDeriv | src/stan/prob/distributions/univariate/continuous/normal.hpp:483-484 | rep_deriv times one_m_erf is the kernel sqrt(2/pi) exp(-x^2) |
| TailRegion.CdfContribution | src/stan/prob/distributions/univariate/continuous/normal.hpp:329-336 | mu's contribution negates y's, sigma's is y's times -x sqrt 2, and the element's contribution equals normal_cdf_log's |
| TailRegion.CdfLogContribution | src/stan/prob/distributions/univariate/continuous/normal.hpp:411-419 | mu's contribution negates y's and sigma's is y's times -x sqrt 2 |
| TailRegion.CcdfLogContribution | src/stan/prob/distributions/univariate/continuous/normal.hpp:483-491 | mu's contribution negates y's and sigma's is y's times -x sqrt 2 |
| TailRegion.TailIdentities | src/stan/prob/distributions/univariate/continuous/normal.hpp:398-405 | in every region cdf_ is half of one_p_erf, and one_p_erf + one_m_erf = 2 |
| TailRegion.SaturatedRegions | src/stan/prob/distributions/univariate/continuous/normal.hpp:316-323 | deep left gives cdf_ = 0, one_p_erf = 0, one_m_erf = 2; right of 8.25c gives 1, 2 and 0 |
| TailRegion.CdfContributionShape | src/stan/prob/distributions/univariate/continuous/normal.hpp:329-336 | normal_cdf's mu contribution is the negation of its y contribution, and its sigma contribution is the y contribution times -(y - mu)/sigma |
| TailRegion.CdfLogContributionShape | src/stan/prob/distributions/univariate/continuous/normal.hpp:411-419 | the same shape for normal_cdf_log's contributions |
| TailRegion.CcdfLogContributionShape | src/stan/prob/distributions/univariate/continuous/normal.hpp:483-491 | the same shape for normal_ccdf_log's contributions |
| TailRegion.CdfContributionIsCdfLogContribution | src/stan/prob/distributions/univariate/continuous/normal.hpp:329-336 | before its post-pass, normal_cdf's element contribution equals normal_cdf_log's |
| TailRegion.CdfLogCcdfLogMirror | src/stan/prob/distributions/univariate/continuous/normal.hpp:483-491 | normal_cdf_log's and normal_ccdf_log's contributions negate each other once multiplied by their denominators one_p_erf and one_m_erf |
| NormalCdf.ValueLoop | src/stan/prob/distributions/univariate/continuous/normal.hpp:310-326 | with nothing tracked, the loop leaves the product of the cdf_ factors (normal_cdf) or the sum of the log terms (the two logarithms) |
| NormalCdf.Evaluate | src/stan/prob/distributions/univariate/continuous/normal.hpp:273-350 | a domain error exactly when no argument is empty and some sigma is not positive; inconsistent sizes exactly when sigma passes but the sizes disagree; an empty argument gives the unit (1 for the cdf, 0 for the logarithms); otherwise three buffers of the operands' lengths |
| NormalCdf.TailStep | src/stan/prob/distributions/univariate/continuous/normal.hpp:310-337 | one loop iteration combines element n's term into the result and adds its contributions to the tracked buffers |
| NormalCdf.TailLoop | src/stan/prob/distributions/univariate/continuous/normal.hpp:301-337 | after the loop, the result is the combined terms and each buffer holds the scattered contributions |
| NormalCdf.Run | src/stan/prob/distributions/univariate/continuous/normal.hpp:301-337 | the loop part of each evaluator yields the outcome's value, with buffers that the post-pass turns into the outcome's partials |
| NormalCdf.NormalCdfEval | src/stan/prob/distributions/univariate/continuous/normal.hpp:273-350 | normal_cdf's outcome is `Evaluate(Cdf, ...)`, including the post-pass that multiplies every tracked buffer by the final cdf |
| NormalCdf.NormalCdfLogEval | src/stan/prob/distributions/univariate/continuous/normal.hpp:354-422 | normal_cdf_log's outcome is `Evaluate(CdfLog, ...)` |
| NormalCdf.NormalCcdfLogEval | src/stan/prob/distributions/univariate/continuous/normal.hpp:426-494 | normal_ccdf_log's outcome is `Evaluate(CcdfLog, ...)` |
| NormalCdf.EmptyReturnsUnit | src/stan/prob/distributions/univariate/continuous/normal.hpp:286-289 | any empty argument gives 1 (cdf) or 0 (logarithms) with no buffers, before sigma or the sizes are looked at |
| NormalCdf.ScaleCheckedBeforeSizes | src/stan/prob/distributions/univariate/continuous/normal.hpp:291-300 | with every argument non-empty, a non-positive sigma element is reported as the scale error even when the sizes are also inconsistent |
| NormalCdf.CdfDeepLeftIsZero | src/stan/prob/distributions/univariate/continuous/normal.hpp:316-326 | one element in the deep left tail makes the cdf exactly 0, and such a call has defined derivatives only when nothing is tracked |
| NormalCdf.CdfRightSaturatedIsOne | src/stan/prob/distributions/univariate/continuous/normal.hpp:320-326 | when every element lies right of 8.25c the cdf is exactly 1 |
| NormalCdf.CdfProductRule | src/stan/prob/distributions/univariate/continuous/normal.hpp:339-347 | each of normal_cdf's buffers is normal_cdf_log's buffer for the same operand times the cdf |
| NormalCdf.CdfContributionsAreCdfLogContributions | src/stan/prob/distributions/univariate/continuous/normal.hpp:329-336 | over a whole call, normal_cdf's contributions before the post-pass are normal_cdf_log's |
| NormalCdf.LocationContributionsNegate | src/stan/prob/distributions/univariate/continuous/normal.hpp:483-488 | in all three evaluators, every element's mu contribution is the negation of its y contribution |
| NormalCdf.LocationPartialsNegate | src/stan/prob/distributions/univariate/continuous/normal.hpp:331-334 | when y and mu are tracked and have the same shape, mu's buffer is the exact negation of y's, in all three evaluators |
| NormalCdf.ConstantBuffersStayZero | src/stan/prob/distributions/univariate/continuous/normal.hpp:331-347 | a constant operand's buffer is all zeros: the loop never writes it and the post-pass skips it |
| Hypergeometric.RaiseTerms | stan/math/prim/scal/err/check_3F2_converges.hpp:53-58 | an update never lowers num_terms; afterwards num_terms is at least a negative-integer a's magnitude, and it changes only to that magnitude |
| Hypergeometric.IsNegInt | stan/math/prim/scal/err/check_3F2_converges.hpp:49-51 | the test x < 0 and floor(x) = x holds exactly for the negative integers -(m + 1) |
| Hypergeometric.IsPolynomial | stan/math/prim/scal/err/check_3F2_converges.hpp:48-51 | is_polynomial holds exactly when some upper parameter is a negative integer |
| Hypergeometric.IsUndefined | stan/math/prim/scal/err/check_3F2_converges.hpp:61-63 | is_undefined holds exactly when a negative-integer lower parameter is at or above some negative-integer upper parameter (a pole within the terms), and then the series terminates |
| Hypergeometric.Converges | stan/math/prim/scal/err/check_3F2_converges.hpp:61-76 | accepted only when defined; a defined series that terminates or has abs(z) < 1 is accepted; a non-terminating one is rejected for abs(z) > 1 and, for abs(z) = 1, accepted exactly when b1 + b2 > a1 + a2 + a3 |
| Hypergeometric.NumTerms | stan/math/prim/scal/err/check_3F2_converges.hpp:47-59 | num_terms is the largest magnitude among the negative-integer a's, and 0 exactly when the series does not terminate |
| Hypergeometric.UndefinedIsPolynomial | stan/math/prim/scal/err/check_3F2_converges.hpp:61-63 | an undefined series always terminates: without a negative-integer a no pole is reached |
| Hypergeometric.UndefinedRejected | stan/math/prim/scal/err/check_3F2_converges.hpp:61-76 | an undefined series is rejected for every z |
| Hypergeometric.PolynomialAccepted | stan/math/prim/scal/err/check_3F2_converges.hpp:65 | a terminating, defined series is accepted for every z |
| Hypergeometric.InsideUnitDiscAccepted | stan/math/prim/scal/err/check_3F2_converges.hpp:66 | a defined series is accepted when abs(z) < 1 |
| Hypergeometric.UnitCircleCriterion | stan/math/prim/scal/err/check_3F2_converges.hpp:67-69 | a non-terminating series with abs(z) = 1 is accepted if and only if b1 + b2 > a1 + a2 + a3 |
| Hypergeometric.OutsideUnitDiscRejected | stan/math/prim/scal/err/check_3F2_converges.hpp:65-76 | a non-terminating series with abs(z) > 1 is rejected |
| Hypergeometric.ConvergesCharacterized | stan/math/prim/scal/err/check_3F2_converges.hpp:61-76 | accepted exactly when defined and either terminating, inside the unit disc, or on the unit circle with b1 + b2 > a1 + a2 + a3 |
| Hypergeometric.PoleReached | stan/math/prim/scal/err/check_3F2_converges.hpp:61-63 | a lower parameter equal to a negative-integer upper parameter is always a reached pole |

## Left out

- `normal_rng` is not modelled: it draws from a random number generator.
- The not-NaN and finite checks always pass over the reals, so only `check_positive` and the size check can fail.
- Error messages are reduced to the checked argument's role; the function name and the offending value are not modelled.
- The body of `check_consistent_sizes` is not part of this model. It is modelled as "every sequence argument has the broadcast length", which is what keeps every broadcast read in bounds. It is not modelled as "every sequence argument has length 1 or the broadcast length".
- Floating point is not modelled: arithmetic is exact over the reals, and `pow(sigma, 2)` and `pow(sigma, 3)` are exact powers.
- `erf`, `erfc`, `exp`, `log` and the constants `SQRT_2`, `INV_SQRT_2`, `sqrt(2/pi)` and `NEG_LOG_SQRT_TWO_PI` are supplied by the caller (`Elementary.Libm`). Nothing is assumed about them except that the two square-root-of-two constants are positive.
- The autodiff types (`OperandsAndPartials`, `to_var`, `is_constant_struct`) are modelled as a tracked flag per argument and returned buffers; the expression graph itself is left out.
- Infinities and NaN are not modelled. A cdf evaluator divides by its per-element tail quantity (`cdf_`, `one_p_erf` or `one_m_erf`). Where that quantity is 0 the source produces an infinity, and normal_cdf's post-pass then multiplies it by 0. The cdf evaluators therefore require `DerivativesDefined`: when the checks pass and something is tracked, no element's tail quantity is 0.
- When nothing is tracked, the source still computes `rep_deriv` but never uses it; `NormalCdf.ValueLoop` does not form it.
- `log(0)` in normal_cdf_log and normal_ccdf_log is whatever the supplied `log` returns at 0; the model does not say it is minus infinity.
- The three cdf loops are modelled by one shared loop with a `Variant` parameter instead of three copies.
- NormalSufficient.SsContributionAt: the sigma contribution `cons_expr/sigma^3 - n_obs/sigma` is stated but not proved to be the slope of the summand in sigma, because `log` is an arbitrary supplied function. The same holds for normal_log's sigma contribution, whose formula `NormalDensity.LogContributionFormulas` states.
- `check_3F2_converges` takes finite reals: comparisons with NaN, the `value_of_rec` unwrapping of autodiff values, and the overflow of the `int` num_terms for huge magnitudes are not modelled. Rejection is `false` instead of a thrown `std::domain_error`, and the message text is left out.
- `test/unit/math/gpu/zeros_test.cpp` is a test of an unrelated GPU routine and is not part of this model.
