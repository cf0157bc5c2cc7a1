/**
 The rank-one update of the approximate Jacobian (touchscreen_drv/levmar-2.5/lm_core.c,
 LEVMAR_DIF): after a step the matrix explains the step exactly, and it is the closest one
 to its predecessor that does.
 */
module Broyden {
  import opened LinearAlgebra
  import opened NormalEquations
  import LuSolve

  /** How much of the step d each row is corrected by. */
  ghost function Factor(row: Vec, d: Vec, f0: real, f1: real): (t: real)
    requires |row| == |d| && Norm2(d) != 0.0
  {
    (f1 - f0 - Dot(row, d, |d|)) / Norm2(d)
  }

  ghost function UpdatedRow(row: Vec, d: Vec, f0: real, f1: real): (r: Vec)
    requires |row| == |d| && Norm2(d) != 0.0
    ensures |r| == |row|
  {
    seq(|row|, k requires 0 <= k < |row| => row[k] + Factor(row, d, f0, f1) * d[k])
  }

  ghost function Updated(j: Mat, d: Vec, f0: Vec, f1: Vec): (r: Mat)
    requires IsMat(j, |f0|, |d|) && |f0| == |f1| && Norm2(d) != 0.0
    ensures IsMat(r, |j|, |d|)
  {
    seq(|j|, i requires 0 <= i < |j| => UpdatedRow(j[i], d, f0[i], f1[i]))
  }

  /** The update in place, for the values hx at p and wrk at p + Dp. */
  method Update(jac: array2<real>, dp: array<real>, hx: array<real>, wrk: array<real>, dpL2: real, ghost j: Mat)
    requires LuSolve.Holds(jac, j) && jac.Length0 == hx.Length == wrk.Length && jac.Length1 == dp.Length
    requires dpL2 == Norm2(dp[..]) != 0.0
    modifies jac
    ensures LuSolve.Holds(jac, Updated(j, dp[..], hx[..], wrk[..]))
  {
    ghost var d, r := dp[..], Updated(j, dp[..], hx[..], wrk[..]);
    for i := 0 to jac.Length0
      invariant forall a, b :: 0 <= a < jac.Length0 && 0 <= b < jac.Length1 ==>
                  jac[a, b] == if a < i then r[a][b] else j[a][b]
    {
      var tmp := 0.0;
      for l := 0 to jac.Length1
        invariant tmp == Dot(j[i], d, l)
      {
        tmp := tmp + jac[i, l] * dp[l];
      }
      tmp := (wrk[i] - hx[i] - tmp) / dpL2;
      assert tmp == Factor(j[i], d, hx[..][i], wrk[..][i]);
      for k := 0 to jac.Length1
        invariant forall a, b :: 0 <= a < jac.Length0 && 0 <= b < jac.Length1 ==>
            jac[a, b] == if a < i || (a == i && b < k) then r[a][b] else j[a][b]
      {
        jac[i, k] := jac[i, k] + tmp * dp[k];
      }
    }
  }

  lemma {:induction false} Quotient(a: real, b: real)
    requires b != 0.0
    ensures (a / b) * b == a
  {
  }

  lemma {:induction false} RowSecant(row: Vec, d: Vec, f0: real, f1: real)
    requires |row| == |d| && Norm2(d) != 0.0
    ensures Dot(UpdatedRow(row, d, f0, f1), d, |d|) == f1 - f0
  {
    DotLinear(row, Factor(row, d, f0, f1), d, UpdatedRow(row, d, f0, f1), d, |d|);
    Quotient(f1 - f0 - Dot(row, d, |d|), Norm2(d));
  }

  /** The secant equation: J' * Dp == f(p + Dp) - f(p). */
  lemma {:induction false} Secant(j: Mat, d: Vec, f0: Vec, f1: Vec)
    requires IsMat(j, |f0|, |d|) && |f0| == |f1| && Norm2(d) != 0.0
    ensures MatVec(Updated(j, d, f0, f1), d) == Sub(f1, f0)
  {
    forall i | 0 <= i < |f0| ensures MatVec(Updated(j, d, f0, f1), d)[i] == Sub(f1, f0)[i] {
      RowSecant(j[i], d, f0[i], f1[i]);
    }
  }

  /** Directions orthogonal to the step are not affected. */
  lemma {:induction false} Orthogonal(j: Mat, d: Vec, f0: Vec, f1: Vec, v: Vec)
    requires IsMat(j, |f0|, |d|) && |f0| == |f1| && Norm2(d) != 0.0
    requires |v| == |d| && Dot(d, v, |d|) == 0.0
    ensures MatVec(Updated(j, d, f0, f1), v) == MatVec(j, v)
  {
    forall i | 0 <= i < |f0| ensures MatVec(Updated(j, d, f0, f1), v)[i] == MatVec(j, v)[i] {
      DotLinear(j[i], Factor(j[i], d, f0[i], f1[i]), d, UpdatedRow(j[i], d, f0[i], f1[i]), v, |d|);
    }
  }

  /** |s - t d|^2, multiplied out. */
  lemma {:induction false} Difference(s: Vec, t: real, d: Vec, r: Vec)
    requires |s| == |d| == |r| && forall k :: 0 <= k < |d| ==> r[k] == s[k] - t * d[k]
    ensures Norm2(r) == Norm2(s) - 2.0 * (t * Dot(s, d, |d|)) + t * (t * Norm2(d))
  {
    var n := |d|;
    Against(s, t, d, r, r, n);
    AgainstLeft(s, t, d, r, s, n);
    AgainstLeft(s, t, d, r, d, n);
    DotSym(d, s, n);
    Expanded(Norm2(r), Dot(s, r, n), Dot(d, r, n), Norm2(s), Dot(s, d, n), Norm2(d), t);
  }

  lemma {:induction false} Against(s: Vec, t: real, d: Vec, r: Vec, v: Vec, n: nat)
    requires |s| == |d| == |r| == |v| == n && forall k :: 0 <= k < n ==> r[k] == s[k] - t * d[k]
    ensures Less(Dot(r, v, n), Dot(s, v, n), t, Dot(d, v, n))
  {
    DotLinear(s, -t, d, r, v, n);
  }

  /** The same the other way round. */
  lemma {:induction false} AgainstLeft(s: Vec, t: real, d: Vec, r: Vec, v: Vec, n: nat)
    requires |s| == |d| == |r| == |v| == n && forall k :: 0 <= k < n ==> r[k] == s[k] - t * d[k]
    ensures Less(Dot(v, r, n), Dot(v, s, n), t, Dot(v, d, n))
  {
    Against(s, t, d, r, v, n);
    DotSym(v, r, n);
    DotSym(v, s, n);
    DotSym(v, d, n);
  }

  predicate Less(x: real, y: real, t: real, z: real) { x == y - t * z }

  lemma {:induction false} Expanded(rr: real, sr: real, dr: real, ss: real, sd: real, dd: real, t: real)
    requires Less(rr, sr, t, dr) && Less(sr, ss, t, sd) && Less(dr, sd, t, dd)
    ensures rr == ss - 2.0 * (t * sd) + t * (t * dd)
  {
    assert t * (sd - t * dd) == t * sd - t * (t * dd);
  }

  /** Least change: any other row that satisfies the secant equation differs from the old
      row by at least as much. */
  lemma {:induction false} LeastChange(row: Vec, other: Vec, d: Vec, f0: real, f1: real)
    requires |row| == |other| == |d| && Norm2(d) != 0.0 && Dot(other, d, |d|) == f1 - f0
    ensures Norm2(Sub(UpdatedRow(row, d, f0, f1), row)) <= Norm2(Sub(other, row))
  {
    var t, s, n := Factor(row, d, f0, f1), Sub(other, row), |d|;
    var own := Sub(UpdatedRow(row, d, f0, f1), row);
    CorrectionNorm(t, d, own);
    DotLinear(other, -1.0, row, s, d, n);
    Quotient(f1 - f0 - Dot(row, d, n), Norm2(d));
    var r := Sub(s, own);
    Difference(s, t, d, r);
    DotSquareNonNeg(r, n);
    Combine(Norm2(r), Norm2(s), t, Norm2(d), Dot(s, d, n), Norm2(own));
  }

  lemma {:induction false} CorrectionNorm(t: real, d: Vec, own: Vec)
    requires |own| == |d| && forall k :: 0 <= k < |d| ==> own[k] == t * d[k]
    ensures Norm2(own) == t * (t * Norm2(d))
  {
    DotScale(t, d, own, own, |d|);
    DotSym(d, own, |d|);
    DotScale(t, d, own, d, |d|);
  }

  lemma {:induction false} Combine(r2: real, s2: real, t: real, q: real, sd: real, own2: real)
    requires r2 >= 0.0 && r2 == s2 - 2.0 * (t * sd) + t * (t * q) && sd == t * q && own2 == t * (t * q)
    ensures own2 <= s2
  {
  }
}
