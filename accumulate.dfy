/**
 * Running sums and products over the broadcast loop, and the derivative
 * buffers the loop fills element by element.
 */
module Accumulate {
  import opened Broadcast

  /** The derivative contributions one broadcast element makes to the y, mu and sigma buffers. */
  datatype Contribution = Contribution(dy: real, dmu: real, dsigma: real)

  function Dys(cs: seq<Contribution>): (r: seq<real>)
    ensures |r| == |cs| && forall i :: 0 <= i < |cs| ==> r[i] == cs[i].dy
  {
    seq(|cs|, i requires 0 <= i < |cs| => cs[i].dy)
  }

  function Dmus(cs: seq<Contribution>): (r: seq<real>)
    ensures |r| == |cs| && forall i :: 0 <= i < |cs| ==> r[i] == cs[i].dmu
  {
    seq(|cs|, i requires 0 <= i < |cs| => cs[i].dmu)
  }

  function Dsigmas(cs: seq<Contribution>): (r: seq<real>)
    ensures |r| == |cs| && forall i :: 0 <= i < |cs| ==> r[i] == cs[i].dsigma
  {
    seq(|cs|, i requires 0 <= i < |cs| => cs[i].dsigma)
  }

  /** Sum of a sequence, accumulated left to right as the loop does. */
  function Sum(s: seq<real>): real
  {
    if s == [] then 0.0 else Sum(s[..|s| - 1]) + s[|s| - 1]
  }

  /** Product of a sequence, accumulated left to right as the loop does. */
  function Product(s: seq<real>): real
  {
    if s == [] then 1.0 else Product(s[..|s| - 1]) * s[|s| - 1]
  }

  function Zeros(k: nat): (z: seq<real>)
    ensures |z| == k && forall i :: 0 <= i < k ==> z[i] == 0.0
  {
    seq(k, _ => 0.0)
  }

  function Neg(s: seq<real>): (r: seq<real>)
    ensures |r| == |s| && forall i :: 0 <= i < |s| ==> r[i] == -s[i]
  {
    seq(|s|, i requires 0 <= i < |s| => -s[i])
  }

  function Scale(s: seq<real>, k: real): (r: seq<real>)
    ensures |r| == |s| && forall i :: 0 <= i < |s| ==> r[i] == s[i] * k
  {
    seq(|s|, i requires 0 <= i < |s| => s[i] * k)
  }

  /**
   * The derivative buffer of operand `a` after the loop has added `c[n]` at
   * slot `Slot(a, n)` for every broadcast index `n < |c|`, starting from zeros.
   */
  function Scatter(a: Arg, c: seq<real>): (d: seq<real>)
    requires Covers(a, |c|)
    ensures |d| == Length(a)
  {
    if c == [] then Zeros(Length(a))
    else
      var d := Scatter(a, c[..|c| - 1]);
      var k := Slot(a, |c| - 1);
      d[k := d[k] + c[|c| - 1]]
  }

  /** A tracked operand's buffer holds the scattered contributions; a constant one is never written. */
  function Buffer(a: Arg, c: seq<real>): (d: seq<real>)
    requires Covers(a, |c|)
    ensures |d| == Length(a)
    ensures !a.tracked ==> d == Zeros(Length(a))
  {
    if a.tracked then Scatter(a, c) else Zeros(Length(a))
  }

  /**
   * The loop's write into operand `a`'s derivative buffer at broadcast index
   * `n`: a tracked operand's slot receives `v`, a constant operand's buffer is
   * left alone.
   */
  method AddContribution(d: array<real>, a: Arg, ghost c: seq<real>, n: nat, v: real)
    requires n < |c| && Covers(a, |c|) && v == c[n]
    requires d.Length == Length(a) && d[..] == Buffer(a, c[..n])
    modifies d
    ensures d[..] == Buffer(a, c[..n + 1])
  {
    if a.tracked {
      ScatterStep(a, c, n);
      d[Slot(a, n)] := d[Slot(a, n)] + v;
    }
  }

  /**
   * The state of the y, mu and sigma derivative buffers after `n` loop
   * iterations: each holds the contributions of the first `n` elements.
   */
  ghost predicate Filled3(y: Arg, mu: Arg, sigma: Arg, cs: seq<Contribution>, n: nat,
                          dy: array<real>, dmu: array<real>, dsigma: array<real>)
    requires n <= |cs| && Covers(y, |cs|) && Covers(mu, |cs|) && Covers(sigma, |cs|)
    reads dy, dmu, dsigma
  {
    dy.Length == Length(y) && dmu.Length == Length(mu) && dsigma.Length == Length(sigma)
    && dy[..] == Buffer(y, Dys(cs)[..n])
    && dmu[..] == Buffer(mu, Dmus(cs)[..n])
    && dsigma[..] == Buffer(sigma, Dsigmas(cs)[..n])
  }

  /** Three zero-filled derivative buffers, one slot per stored element of their operand. */
  method ZeroBuffers3(y: Arg, mu: Arg, sigma: Arg, ghost cs: seq<Contribution>)
    returns (dy: array<real>, dmu: array<real>, dsigma: array<real>)
    requires Covers(y, |cs|) && Covers(mu, |cs|) && Covers(sigma, |cs|)
    ensures fresh(dy) && fresh(dmu) && fresh(dsigma)
    ensures dy != dmu && dy != dsigma && dmu != dsigma
    ensures Filled3(y, mu, sigma, cs, 0, dy, dmu, dsigma)
  {
    dy := new real[Length(y)](_ => 0.0);
    dmu := new real[Length(mu)](_ => 0.0);
    dsigma := new real[Length(sigma)](_ => 0.0);
    assert Dys(cs)[..0] == Dmus(cs)[..0] == Dsigmas(cs)[..0] == [];
  }

  /** Multiplies every slot of the buffer by `k`, in place. */
  method RescaleInPlace(d: array<real>, k: real)
    modifies d
    ensures d[..] == Scale(old(d[..]), k)
  {
    ghost var before := d[..];
    for i := 0 to d.Length
      invariant forall j :: 0 <= j < i ==> d[j] == before[j] * k
      invariant forall j :: i <= j < d.Length ==> d[j] == before[j]
    {
      d[i] := d[i] * k;
    }
    assert forall j :: 0 <= j < d.Length ==> d[..][j] == Scale(before, k)[j];
  }

  /** Once the loop has run to the end, the prefix it covered is the whole sequence. */
  lemma WholePrefix(s: seq<real>, n: nat)
    requires n == |s|
    ensures s[..n] == s
  {
  }

  /** One more loop iteration extends the sum by the next element. */
  lemma SumStep(s: seq<real>, n: nat)
    requires n < |s|
    ensures Sum(s[..n + 1]) == Sum(s[..n]) + s[n]
  {
    assert s[..n + 1][..n] == s[..n];
  }

  /** One more loop iteration extends the product by the next element. */
  lemma ProductStep(s: seq<real>, n: nat)
    requires n < |s|
    ensures Product(s[..n + 1]) == Product(s[..n]) * s[n]
  {
    assert s[..n + 1][..n] == s[..n];
  }

  /** One more loop iteration adds the next contribution at its slot. */
  lemma ScatterStep(a: Arg, c: seq<real>, n: nat)
    requires n < |c| && Covers(a, |c|)
    ensures Slot(a, n) < Length(a)
    ensures Scatter(a, c[..n + 1])
         == Scatter(a, c[..n])[Slot(a, n) := Scatter(a, c[..n])[Slot(a, n)] + c[n]]
  {
    assert c[..n + 1][..n] == c[..n];
  }

  /** For a sequence operand, slot `i` receives exactly the contribution of broadcast index `i`. */
  lemma {:induction false} ScatterVector(a: Arg, c: seq<real>)
    requires a.Vector? && |c| <= |a.xs|
    ensures forall i :: 0 <= i < |a.xs| ==> Scatter(a, c)[i] == if i < |c| then c[i] else 0.0
  {
    if c != [] {
      var p := c[..|c| - 1];
      ScatterVector(a, p);
      forall i | 0 <= i < |a.xs|
        ensures Scatter(a, c)[i] == if i < |c| then c[i] else 0.0
      {
        if i < |c| - 1 {
          assert p[i] == c[i];
        }
      }
    }
  }

  /** For a scalar operand, its single slot receives the sum of all contributions. */
  lemma {:induction false} ScatterScalar(a: Arg, c: seq<real>)
    requires a.Scalar?
    ensures Scatter(a, c) == [Sum(c)]
  {
    if c != [] {
      ScatterScalar(a, c[..|c| - 1]);
    }
  }

  /** The buffer depends on the operand only through its shape. */
  lemma {:induction false} ScatterSameShape(a: Arg, b: Arg, c: seq<real>)
    requires Covers(a, |c|) && Covers(b, |c|)
    requires a.Scalar? == b.Scalar? && Length(a) == Length(b)
    ensures Scatter(a, c) == Scatter(b, c)
  {
    if c != [] {
      ScatterSameShape(a, b, c[..|c| - 1]);
    }
  }

  /** Negating every contribution negates the whole buffer. */
  lemma {:induction false} ScatterNeg(a: Arg, c: seq<real>)
    requires Covers(a, |c|)
    ensures Scatter(a, Neg(c)) == Neg(Scatter(a, c))
  {
    if c != [] {
      var p := c[..|c| - 1];
      assert Neg(c)[..|c| - 1] == Neg(p);
      ScatterNeg(a, p);
    }
  }

  function Diff(s: seq<real>, t: seq<real>): (r: seq<real>)
    requires |s| == |t|
    ensures |r| == |s| && forall i :: 0 <= i < |s| ==> r[i] == s[i] - t[i]
  {
    seq(|s|, i requires 0 <= i < |s| => s[i] - t[i])
  }

  /** The difference of two sums is the sum of the elementwise differences. */
  lemma {:induction false} SumSub(s: seq<real>, t: seq<real>)
    requires |s| == |t|
    ensures Sum(s) - Sum(t) == Sum(Diff(s, t))
  {
    if s != [] {
      var m := |s| - 1;
      SumSub(s[..m], t[..m]);
      assert Diff(s, t)[..m] == Diff(s[..m], t[..m]);
    }
  }

  /** A sum of `k` copies of `v` is `k * v`. */
  lemma {:induction false} SumConstant(s: seq<real>, v: real)
    requires forall i :: 0 <= i < |s| ==> s[i] == v
    ensures Sum(s) == |s| as real * v
  {
    if s != [] {
      SumConstant(s[..|s| - 1], v);
    }
  }

  /** A product of ones is one. */
  lemma {:induction false} ProductOnes(s: seq<real>)
    requires forall i :: 0 <= i < |s| ==> s[i] == 1.0
    ensures Product(s) == 1.0
  {
    if s != [] {
      ProductOnes(s[..|s| - 1]);
    }
  }

  /** Rescaling commutes with negation, and leaves a zero buffer zero. */
  lemma ScaleNeg(s: seq<real>, k: real)
    ensures Scale(Neg(s), k) == Neg(Scale(s, k))
    ensures Scale(Zeros(|s|), k) == Zeros(|s|)
  {
    forall i | 0 <= i < |s|
      ensures Scale(Neg(s), k)[i] == Neg(Scale(s, k))[i]
    {
      assert -s[i] * k == -(s[i] * k);
    }
  }

  /** A product with a zero factor is zero. */
  lemma {:induction false} ProductZero(s: seq<real>, j: nat)
    requires j < |s| && s[j] == 0.0
    ensures Product(s) == 0.0
  {
    if j < |s| - 1 {
      ProductZero(s[..|s| - 1], j);
    }
  }
}
