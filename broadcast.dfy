/**
 * Scalar-or-sequence arguments, their broadcast views, and the outcome of an
 * evaluator call.
 *
 * An argument is either a single value (read as that value at every broadcast
 * index) or a sequence (read at the index itself). Its `tracked` flag says
 * whether the argument carries derivative tracking, i.e. whether it is not a
 * constant; the source decides this at compile time from the argument's type.
 */
module Broadcast {

  datatype Arg = Scalar(x: real, tracked: bool) | Vector(xs: seq<real>, tracked: bool)

  /** Number of stored elements: 1 for a scalar, the size of a sequence. */
  function Length(a: Arg): nat
  {
    if a.Scalar? then 1 else |a.xs|
  }

  /** The stored elements, in order. */
  function Values(a: Arg): (s: seq<real>)
    ensures |s| == Length(a)
    ensures a.Scalar? ==> s == [a.x]
  {
    if a.Scalar? then [a.x] else a.xs
  }

  /** The stored element that broadcast index `n` reads (and the derivative slot it writes). */
  function Slot(a: Arg, n: nat): nat
  {
    if a.Scalar? then 0 else n
  }

  /** The argument can be read at every broadcast index below `k`. */
  predicate Covers(a: Arg, k: nat)
  {
    a.Scalar? || k <= |a.xs|
  }

  /** The broadcast view: element `n` of the argument. */
  function At(a: Arg, n: nat): (v: real)
    requires n < Length(a) || a.Scalar?
    ensures a.Scalar? ==> v == a.x
    ensures a.Vector? ==> v == a.xs[n]
  {
    Values(a)[Slot(a, n)]
  }

  /** The broadcast length: the largest length among the arguments. */
  function MaxSize(args: seq<Arg>): (m: nat)
    ensures forall i :: 0 <= i < |args| ==> Length(args[i]) <= m
    ensures args == [] ==> m == 0
    ensures args != [] ==> exists i :: 0 <= i < |args| && Length(args[i]) == m
  {
    if args == [] then 0
    else
      var rest := MaxSize(args[1..]);
      assert forall i :: 1 <= i < |args| ==> args[i] == args[1..][i - 1];
      if Length(args[0]) >= rest then Length(args[0]) else rest
  }

  /** Some argument has no elements. */
  predicate AnyEmpty(args: seq<Arg>)
  {
    exists i :: 0 <= i < |args| && Length(args[i]) == 0
  }

  /** Some argument carries derivative tracking. */
  predicate AnyTracked(args: seq<Arg>)
  {
    exists i :: 0 <= i < |args| && args[i].tracked
  }

  /**
   * Whether a summand depending on `args` is kept: always without `propto`,
   * and under `propto` only when one of `args` is tracked.
   */
  predicate IncludeSummand(propto: bool, args: seq<Arg>)
  {
    !propto || AnyTracked(args)
  }

  /** Size consistency: every sequence argument has the broadcast length. */
  predicate ConsistentSizes(args: seq<Arg>)
  {
    forall i :: 0 <= i < |args| ==> args[i].Scalar? || |args[i].xs| == MaxSize(args)
  }

  /** Every stored element is strictly positive. */
  predicate Positive(a: Arg)
  {
    forall i :: 0 <= i < Length(a) ==> Values(a)[i] > 0.0
  }

  /**
   * What an evaluator returns: a value with one derivative buffer per operand,
   * or the error that aborted the call. `partials` is empty exactly when the
   * call returns before the buffers are set up (an empty argument, or
   * `propto` with nothing tracked); a call that sets them up returns one per
   * operand, all zero for a constant operand.
   */
  datatype Outcome =
    | Ok(value: real, partials: seq<seq<real>>)
    | DomainError(role: string)
    | InconsistentSizes

  /** Every sequence among three arguments has their broadcast length. */
  predicate Conformable3(a: Arg, b: Arg, c: Arg)
  {
    var N := MaxSize([a, b, c]);
    (a.Scalar? || |a.xs| == N) && (b.Scalar? || |b.xs| == N) && (c.Scalar? || |c.xs| == N)
  }

  /** For three arguments, size consistency spelled out. */
  lemma Covers3(a: Arg, b: Arg, c: Arg)
    ensures ConsistentSizes([a, b, c]) <==> Conformable3(a, b, c)
  {
    var args := [a, b, c];
    assert args[0] == a && args[1] == b && args[2] == c;
  }

  /** For five arguments, size consistency is exactly readability at every broadcast index. */
  lemma Covers5(a: Arg, b: Arg, c: Arg, d: Arg, e: Arg)
    ensures ConsistentSizes([a, b, c, d, e]) <==>
      var N := MaxSize([a, b, c, d, e]);
      Covers(a, N) && Covers(b, N) && Covers(c, N) && Covers(d, N) && Covers(e, N)
  {
    var args := [a, b, c, d, e];
    assert args[0] == a && args[1] == b && args[2] == c && args[3] == d && args[4] == e;
  }

  /** Under size consistency, two arguments of the same shape have the same length. */
  lemma SameShapeSameLength(args: seq<Arg>, i: nat, j: nat)
    requires ConsistentSizes(args) && i < |args| && j < |args|
    requires args[i].Scalar? == args[j].Scalar?
    ensures Length(args[i]) == Length(args[j])
  {
  }

  /** The emptiness and tracking tests, spelled out for a few arguments. */
  lemma Flags3(a: Arg, b: Arg, c: Arg)
    ensures AnyEmpty([a, b, c]) <==> Length(a) == 0 || Length(b) == 0 || Length(c) == 0
    ensures AnyTracked([a, b, c]) <==> a.tracked || b.tracked || c.tracked
    ensures AnyTracked([c]) <==> c.tracked
  {
    var args := [a, b, c];
    assert args[0] == a && args[1] == b && args[2] == c;
    assert [c][0] == c;
  }

  lemma Flags5(a: Arg, b: Arg, c: Arg, d: Arg, e: Arg)
    ensures AnyEmpty([a, b, c, d, e])
        <==> Length(a) == 0 || Length(b) == 0 || Length(c) == 0 || Length(d) == 0 || Length(e) == 0
    ensures AnyTracked([a, b, d, e]) <==> a.tracked || b.tracked || d.tracked || e.tracked
    ensures AnyTracked([e]) <==> e.tracked
  {
    var args := [a, b, c, d, e];
    assert args[0] == a && args[1] == b && args[2] == c && args[3] == d && args[4] == e;
    var tracked := [a, b, d, e];
    assert tracked[0] == a && tracked[1] == b && tracked[2] == d && tracked[3] == e;
    assert [e][0] == e;
  }

  /** The broadcast length depends on the arguments only through their lengths. */
  lemma {:induction false} MaxSizeSameLengths(a: seq<Arg>, b: seq<Arg>)
    requires |a| == |b| && forall i :: 0 <= i < |a| ==> Length(a[i]) == Length(b[i])
    ensures MaxSize(a) == MaxSize(b)
  {
    if a != [] {
      assert forall i :: 0 <= i < |a| - 1 ==> a[1..][i] == a[i + 1] && b[1..][i] == b[i + 1];
      MaxSizeSameLengths(a[1..], b[1..]);
    }
  }
}
