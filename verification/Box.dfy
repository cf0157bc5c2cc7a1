/**
 Box constraints (touchscreen_drv/levmar-2.5/lmbc_core.c): the projection that keeps every
 iterate feasible, and the test for convergence on the active constraints.
 */
module Box {
  import opened LinearAlgebra
  import opened NormalEquations

  /** A vector of bounds, or none. */
  datatype Bound = None | Some(at: Vec)

  ghost predicate IsBound(b: Bound, m: nat) { b.Some? ==> |b.at| == m }

  ghost predicate IsBox(lb: Bound, ub: Bound, m: nat) {
    && IsBound(lb, m) && IsBound(ub, m)
    && (lb.Some? && ub.Some? ==> forall i :: 0 <= i < m ==> lb.at[i] <= ub.at[i])
  }

  ghost predicate InBox(v: Vec, lb: Bound, ub: Bound) {
    && (lb.Some? ==> |lb.at| == |v| && forall i :: 0 <= i < |v| ==> lb.at[i] <= v[i])
    && (ub.Some? ==> |ub.at| == |v| && forall i :: 0 <= i < |v| ==> v[i] <= ub.at[i])
  }

  /** The middle one of three values. */
  function Median3(a: real, b: real, c: real): (r: real) {
    if a >= b then (if c >= a then a else if c <= b then b else c)
    else (if c >= b then b else if c <= a then a else c)
  }

  /** The coordinate of the projection. */
  function Clamp(t: real, lb: Bound, ub: Bound, i: nat): (r: real)
    requires (lb.Some? ==> i < |lb.at|) && (ub.Some? ==> i < |ub.at|)
  {
    if lb.None? then (if ub.Some? && t > ub.at[i] then ub.at[i] else t)
    else if ub.None? then (if t < lb.at[i] then lb.at[i] else t)
    else Median3(lb.at[i], t, ub.at[i])
  }

  ghost function Projected(v: Vec, lb: Bound, ub: Bound): (r: Vec)
    requires IsBound(lb, |v|) && IsBound(ub, |v|)
    ensures |r| == |v|
  {
    seq(|v|, i requires 0 <= i < |v| => Clamp(v[i], lb, ub, i))
  }

  /** BOXPROJECT, in place. */
  method BoxProject(p: array<real>, lb: Bound, ub: Bound)
    requires IsBound(lb, p.Length) && IsBound(ub, p.Length)
    modifies p
    ensures p[..] == Projected(old(p[..]), lb, ub)
  {
    ghost var was := p[..];
    if lb.None? && ub.None? {
      assert p[..] == Projected(was, lb, ub);
      return;
    }
    for i := 0 to p.Length
      invariant forall k :: 0 <= k < i ==> p[k] == Clamp(was[k], lb, ub, k)
      invariant forall k :: i <= k < p.Length ==> p[k] == was[k]
    {
      if lb.None? {
        if p[i] > ub.at[i] { p[i] := ub.at[i]; }
      } else if ub.None? {
        if p[i] < lb.at[i] { p[i] := lb.at[i]; }
      } else {
        p[i] := Median3(lb.at[i], p[i], ub.at[i]);
      }
    }
    assert p[..] == Projected(was, lb, ub);
  }

  lemma {:induction false} ProjectedInBox(v: Vec, lb: Bound, ub: Bound)
    requires IsBox(lb, ub, |v|)
    ensures InBox(Projected(v, lb, ub), lb, ub)
  {
  }

  /** Points of the box are their own projections. */
  lemma {:induction false} InBoxIff(v: Vec, lb: Bound, ub: Bound)
    requires IsBox(lb, ub, |v|)
    ensures InBox(v, lb, ub) <==> Projected(v, lb, ub) == v
  {
    ProjectedInBox(v, lb, ub);
    if InBox(v, lb, ub) { assert forall i :: 0 <= i < |v| ==> Projected(v, lb, ub)[i] == v[i]; }
  }

  lemma {:induction false} SignProduct(a: real, b: real)
    requires (a >= 0.0 && b <= 0.0) || (a <= 0.0 && b >= 0.0)
    ensures a * b <= 0.0
  {
    if a > 0.0 && b < 0.0 { ProdPositive(a, -b); assert a * b == -Prod(a, -b); }
    if a < 0.0 && b > 0.0 { ProdPositive(-a, b); assert a * b == -Prod(-a, b); }
  }

  lemma {:induction false} DotNonPositive(u: Vec, v: Vec, n: nat)
    requires n <= |u| && n <= |v|
    requires forall k :: 0 <= k < n ==> (u[k] >= 0.0 && v[k] <= 0.0) || (u[k] <= 0.0 && v[k] >= 0.0)
    ensures Dot(u, v, n) <= 0.0
  {
    if n > 0 {
      DotNonPositive(u, v, n - 1);
      SignProduct(u[n - 1], v[n - 1]);
    }
  }

  /** From the projection no point of the box lies in the direction of v. */
  lemma {:induction false} Variational(v: Vec, q: Vec, lb: Bound, ub: Bound)
    requires IsBox(lb, ub, |v|) && |q| == |v| && InBox(q, lb, ub)
    ensures var p := Projected(v, lb, ub); Dot(Sub(v, p), Sub(q, p), |v|) <= 0.0
  {
    var p := Projected(v, lb, ub);
    DotNonPositive(Sub(v, p), Sub(q, p), |v|);
  }

  /** |u + w|^2 == |u|^2 + 2 u.w + |w|^2 */
  lemma {:induction false} SquareOfSum(u: Vec, w: Vec, s: Vec, n: nat)
    requires |u| == |w| == |s| == n && forall k :: 0 <= k < n ==> s[k] == u[k] + w[k]
    ensures Norm2(s) == Norm2(u) + 2.0 * Dot(u, w, n) + Norm2(w)
  {
    DotLinear(u, 1.0, w, s, s, n);
    DotSym(u, s, n);
    DotSym(w, s, n);
    DotLinear(u, 1.0, w, s, u, n);
    DotLinear(u, 1.0, w, s, w, n);
    DotSym(w, u, n);
  }

  lemma {:induction false} DotNegate(u: Vec, w: Vec, v: Vec, n: nat)
    requires n <= |u| && n <= |w| && n <= |v| && forall k :: 0 <= k < n ==> w[k] == -v[k]
    ensures Dot(u, w, n) == -Dot(u, v, n)
  {
    if n > 0 {
      DotNegate(u, w, v, n - 1);
      assert u[n - 1] * w[n - 1] == -(u[n - 1] * v[n - 1]);
    }
  }

  /** The projection is the closest point of the box. */
  lemma {:induction false} Closest(v: Vec, q: Vec, lb: Bound, ub: Bound)
    requires IsBox(lb, ub, |v|) && |q| == |v| && InBox(q, lb, ub)
    ensures Norm2(Sub(v, Projected(v, lb, ub))) <= Norm2(Sub(v, q))
  {
    var p, n := Projected(v, lb, ub), |v|;
    Variational(v, q, lb, ub);
    SquareOfSum(Sub(v, p), Sub(p, q), Sub(v, q), n);
    DotNegate(Sub(v, p), Sub(p, q), Sub(q, p), n);
    DotSquareNonNeg(Sub(p, q), n);
  }

  /** x + ratio * d */
  ghost function Along(x: Vec, d: Vec, ratio: real): (y: Vec)
    requires |x| == |d|
    ensures |y| == |x|
  {
    seq(|x|, i requires 0 <= i < |x| => x[i] + ratio * d[i])
  }

  lemma {:induction false} Between(x: real, d: real, ratio: real, lo: real, hi: real)
    requires 0.0 <= ratio <= 1.0
    ensures lo <= x && lo <= x + d ==> lo <= x + ratio * d
    ensures x <= hi && x + d <= hi ==> x + ratio * d <= hi
  {
    var e := ratio * d;
    assert ratio * -d == -e && (1.0 - ratio) * d == d - e && (1.0 - ratio) * -d == e - d;
    if d >= 0.0 {
      SignProduct(ratio, -d);
      SignProduct(1.0 - ratio, -d);
    } else {
      SignProduct(ratio, d);
      SignProduct(1.0 - ratio, d);
    }
  }

  /** The box is convex. */
  lemma {:induction false} Convex(x: Vec, d: Vec, ratio: real, lb: Bound, ub: Bound)
    requires |x| == |d| && 0.0 <= ratio <= 1.0 && InBox(x, lb, ub) && InBox(Add(x, d), lb, ub)
    ensures InBox(Along(x, d, ratio), lb, ub)
  {
    forall i | 0 <= i < |x|
      ensures lb.Some? ==> lb.at[i] <= Along(x, d, ratio)[i]
      ensures ub.Some? ==> Along(x, d, ratio)[i] <= ub.at[i]
    {
      assert Add(x, d)[i] == x[i] + d[i];
      Between(x[i], d[i], ratio, if lb.Some? then lb.at[i] else 0.0, if ub.Some? then ub.at[i] else 0.0);
    }
  }

  // ----- convergence -----

  predicate AtUpper(p: real, ub: Bound, i: nat)
    requires ub.Some? ==> i < |ub.at|
  {
    ub.Some? && p == ub.at[i]
  }

  predicate AtLower(p: real, lb: Bound, i: nat)
    requires lb.Some? ==> i < |lb.at|
  {
    lb.Some? && p == lb.at[i]
  }

  /** The multiplier of coordinate i has the right sign, or its gradient is small; g is
      J^T e, the direction of descent. */
  predicate Stationary(p: real, g: real, lb: Bound, ub: Bound, i: nat, eps: real)
    requires (lb.Some? ==> i < |lb.at|) && (ub.Some? ==> i < |ub.at|)
  {
    if AtUpper(p, ub, i) then g > 0.0
    else if AtLower(p, lb, i) then g < 0.0
    else Abs(g) <= eps
  }

  ghost predicate AllStationary(p: Vec, g: Vec, lb: Bound, ub: Bound, eps: real)
    requires |p| == |g| && IsBound(lb, |p|) && IsBound(ub, |p|)
  {
    forall i :: 0 <= i < |p| ==> Stationary(p[i], g[i], lb, ub, i, eps)
  }

  /** The sum of the absolute values of the first n entries. */
  function Norm1(v: Vec, n: nat): (r: real)
    requires n <= |v|
  {
    if n == 0 then 0.0 else Norm1(v, n - 1) + Abs(v[n - 1])
  }

  lemma {:induction false} StationaryTerm(p: real, g: real, q: real, d: real, lb: Bound, ub: Bound, i: nat, eps: real)
    requires d == q - p && (lb.Some? ==> i < |lb.at| && lb.at[i] <= q) && (ub.Some? ==> i < |ub.at| && q <= ub.at[i])
    requires eps >= 0.0 && Stationary(p, g, lb, ub, i, eps)
    ensures g * d <= eps * Abs(d)
  {
    SignProduct(eps, -Abs(d));
    if AtUpper(p, ub, i) || AtLower(p, lb, i) {
      SignProduct(g, d);
    } else {
      SignProduct(Abs(g) - eps, Abs(d));
    }
  }

  lemma {:induction false} ProdSum(s: real, a: real, b: real)
    ensures Prod(s, a + b) == Prod(s, a) + Prod(s, b)
  {
  }

  /** A bound on every term is a bound on the sum. */
  lemma {:induction false} SumBound(g: Vec, d: Vec, eps: real, n: nat)
    requires n <= |g| && n <= |d| && forall k :: 0 <= k < n ==> Prod(g[k], d[k]) <= Prod(eps, Abs(d[k]))
    ensures Dot(g, d, n) <= Prod(eps, Norm1(d, n))
  {
    if n > 0 {
      SumBound(g, d, eps, n - 1);
      ProdSum(eps, Norm1(d, n - 1), Abs(d[n - 1]));
      assert Dot(g, d, n) == Dot(g, d, n - 1) + Prod(g[n - 1], d[n - 1]);
    }
  }

  /** What convergence means: towards no point of the box does the error fall at a rate of
      more than eps per unit of distance. */
  lemma {:induction false} NoFeasibleDescent(p: Vec, g: Vec, q: Vec, lb: Bound, ub: Bound, eps: real)
    requires |p| == |g| == |q| && InBox(q, lb, ub) && eps >= 0.0
    requires IsBound(lb, |p|) && IsBound(ub, |p|) && AllStationary(p, g, lb, ub, eps)
    ensures Dot(g, Sub(q, p), |p|) <= eps * Norm1(Sub(q, p), |p|)
  {
    var d := Sub(q, p);
    forall k | 0 <= k < |p| ensures Prod(g[k], d[k]) <= Prod(eps, Abs(d[k])) {
      assert Stationary(p[k], g[k], lb, ub, k, eps);
      StationaryTerm(p[k], g[k], q[k], d[k], lb, ub, k, eps);
    }
    SumBound(g, d, eps, |p|);
  }
}
