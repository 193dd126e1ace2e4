/**
 * check_3F2_converges: whether the generalized hypergeometric series
 * 3F2(a1, a2, a3; b1, b2; z) is accepted for evaluation.
 *
 * The series terminates (is a polynomial) when some upper parameter a_i is a
 * negative integer; it then has |a_i| + 1 terms for the largest such |a_i|.
 * It is undefined when a lower parameter b_j is a negative integer whose pole
 * is reached before the series terminates. Otherwise it converges inside the
 * unit disc, and on the unit circle exactly when b1 + b2 > a1 + a2 + a3.
 */
module Hypergeometric {

  function Abs(x: real): (r: real)
    ensures r >= 0.0 && (r == x || r == -x)
  {
    if x < 0.0 then -x else x
  }

  /** The negative integer -(m + 1): the negative integers, counted from -1 downwards. */
  function NegativeWhole(m: nat): real
  {
    -(m as real) - 1.0
  }

  /** The floor test `x < 0 && floor(x) == x` picks out exactly the negative integers. */
  lemma NegIntIsNegativeWhole(x: real)
    ensures (x < 0.0 && x.Floor as real == x) <==> exists m: nat :: x == NegativeWhole(m)
  {
    if x < 0.0 && x.Floor as real == x {
      var m: nat := -x.Floor - 1;
      assert x == NegativeWhole(m);
    }
    if m: nat :| x == NegativeWhole(m) {
      var k: int := -(m as int) - 1;
      assert x == k as real;
      assert x.Floor == k;
    }
  }

  /** `x < 0 && floor(x) == x`: x is a negative integer. */
  function IsNegInt(x: real): (r: bool)
    ensures r <==> exists m: nat :: x == NegativeWhole(m)
  {
    NegIntIsNegativeWhole(x);
    x < 0.0 && x.Floor as real == x
  }

  /** Some upper parameter is a negative integer, so the series terminates. */
  function IsPolynomial(a1: real, a2: real, a3: real): (r: bool)
    ensures r <==> exists m: nat :: a1 == NegativeWhole(m) || a2 == NegativeWhole(m) || a3 == NegativeWhole(m)
  {
    IsNegInt(a1) || IsNegInt(a2) || IsNegInt(a3)
  }

  /** The magnitude of a negative integer is a whole number: `floor(fabs(a))` loses nothing. */
  lemma NegIntMagnitude(a: real)
    requires IsNegInt(a)
    ensures Abs(a).Floor as real == Abs(a)
  {
    var k := a.Floor;
    assert Abs(a) == (-k) as real;
  }

  /** One of the three guarded updates of `num_terms`. */
  function RaiseTerms(n: int, a: real): (r: int)
    ensures r >= n
    ensures IsNegInt(a) ==> Abs(a) <= r as real
    ensures r == n || (IsNegInt(a) && r as real == Abs(a))
  {
    if IsNegInt(a) && Abs(a) > n as real then NegIntMagnitude(a); Abs(a).Floor else n
  }

  /**
   * `num_terms`: 0 unless the series terminates; then the three updates in
   * order, which leave the largest |a_i| among the negative-integer a_i.
   */
  function NumTerms(a1: real, a2: real, a3: real): (n: int)
    ensures n >= 0
    ensures IsNegInt(a1) ==> Abs(a1) <= n as real
    ensures IsNegInt(a2) ==> Abs(a2) <= n as real
    ensures IsNegInt(a3) ==> Abs(a3) <= n as real
    ensures n == 0 || (IsNegInt(a1) && n as real == Abs(a1)) || (IsNegInt(a2) && n as real == Abs(a2))
                   || (IsNegInt(a3) && n as real == Abs(a3))
    ensures n == 0 <==> !IsPolynomial(a1, a2, a3)
  {
    if IsPolynomial(a1, a2, a3) then RaiseTerms(RaiseTerms(RaiseTerms(0, a1), a2), a3) else 0
  }

  /**
   * `b` is a negative integer at or above some negative-integer upper
   * parameter: its pole is met no later than the term where that parameter
   * ends the series.
   */
  predicate PoleWithin(b: real, a1: real, a2: real, a3: real)
  {
    IsNegInt(b) && ((IsNegInt(a1) && a1 <= b) || (IsNegInt(a2) && a2 <= b) || (IsNegInt(a3) && a3 <= b))
  }

  /** Some lower parameter is a negative integer whose pole the series reaches. */
  function IsUndefined(a1: real, a2: real, a3: real, b1: real, b2: real): (r: bool)
    ensures r <==> PoleWithin(b1, a1, a2, a3) || PoleWithin(b2, a1, a2, a3)
    ensures r ==> IsPolynomial(a1, a2, a3)
  {
    var n := NumTerms(a1, a2, a3);
    (IsNegInt(b1) && Abs(b1) <= n as real) || (IsNegInt(b2) && Abs(b2) <= n as real)
  }

  /**
   * The check: true when it returns, false when it throws its domain error.
   * The accepting cases are tried in the order written.
   */
  function Converges(a1: real, a2: real, a3: real, b1: real, b2: real, z: real): (r: bool)
    ensures r ==> !IsUndefined(a1, a2, a3, b1, b2)
    ensures !IsUndefined(a1, a2, a3, b1, b2) && (IsPolynomial(a1, a2, a3) || -1.0 < z < 1.0) ==> r
    ensures !IsPolynomial(a1, a2, a3) && (z < -1.0 || z > 1.0) ==> !r
    ensures !IsPolynomial(a1, a2, a3) && (z == 1.0 || z == -1.0) ==> (r <==> b1 + b2 > a1 + a2 + a3)
  {
    var polynomial := IsPolynomial(a1, a2, a3);
    var undefined := IsUndefined(a1, a2, a3, b1, b2);
    if polynomial && !undefined then true
    else if Abs(z) < 1.0 && !undefined then true
    else if Abs(z) == 1.0 && !undefined && b1 + b2 > a1 + a2 + a3 then true
    else false
  }

  // ---------------------------------------------------------------------------
  // Properties

  /** An undefined series is always a terminating one: without a negative-integer a_i no pole is reached. */
  lemma UndefinedIsPolynomial(a1: real, a2: real, a3: real, b1: real, b2: real)
    ensures IsUndefined(a1, a2, a3, b1, b2) ==> IsPolynomial(a1, a2, a3)
  {
    if !IsPolynomial(a1, a2, a3) {
      assert NumTerms(a1, a2, a3) == 0;
    }
  }

  /** An undefined series is rejected whatever z is. */
  lemma UndefinedRejected(a1: real, a2: real, a3: real, b1: real, b2: real, z: real)
    requires IsUndefined(a1, a2, a3, b1, b2)
    ensures !Converges(a1, a2, a3, b1, b2, z)
  {
  }

  /** A terminating, defined series is accepted for every z. */
  lemma PolynomialAccepted(a1: real, a2: real, a3: real, b1: real, b2: real, z: real)
    requires IsPolynomial(a1, a2, a3) && !IsUndefined(a1, a2, a3, b1, b2)
    ensures Converges(a1, a2, a3, b1, b2, z)
  {
  }

  /** A defined series is accepted strictly inside the unit disc. */
  lemma InsideUnitDiscAccepted(a1: real, a2: real, a3: real, b1: real, b2: real, z: real)
    requires -1.0 < z < 1.0 && !IsUndefined(a1, a2, a3, b1, b2)
    ensures Converges(a1, a2, a3, b1, b2, z)
  {
  }

  /** A non-terminating series on the unit circle is accepted exactly when b1 + b2 > a1 + a2 + a3. */
  lemma UnitCircleCriterion(a1: real, a2: real, a3: real, b1: real, b2: real, z: real)
    requires !IsPolynomial(a1, a2, a3) && (z == 1.0 || z == -1.0)
    ensures Converges(a1, a2, a3, b1, b2, z) <==> b1 + b2 > a1 + a2 + a3
  {
    UndefinedIsPolynomial(a1, a2, a3, b1, b2);
  }

  /** A non-terminating series outside the unit disc is rejected. */
  lemma OutsideUnitDiscRejected(a1: real, a2: real, a3: real, b1: real, b2: real, z: real)
    requires !IsPolynomial(a1, a2, a3) && (z < -1.0 || z > 1.0)
    ensures !Converges(a1, a2, a3, b1, b2, z)
  {
  }

  /**
   * The check as one statement: accepted exactly when the series is defined
   * and terminates, or converges inside the unit disc, or lies on the unit
   * circle with b1 + b2 > a1 + a2 + a3.
   */
  lemma ConvergesCharacterized(a1: real, a2: real, a3: real, b1: real, b2: real, z: real)
    ensures Converges(a1, a2, a3, b1, b2, z) <==>
      !IsUndefined(a1, a2, a3, b1, b2) &&
      (IsPolynomial(a1, a2, a3) || -1.0 < z < 1.0 || ((z == 1.0 || z == -1.0) && b1 + b2 > a1 + a2 + a3))
  {
  }

  /**
   * A lower parameter equal to a negative-integer upper parameter puts its
   * pole within the series' terms.
   */
  lemma PoleReached(a1: real, a2: real, a3: real, b1: real, b2: real)
    requires (IsNegInt(a1) || IsNegInt(a2) || IsNegInt(a3)) && (b1 == a1 || b1 == a2 || b1 == a3)
    requires IsNegInt(b1)
    ensures IsUndefined(a1, a2, a3, b1, b2)
  {
  }
}
