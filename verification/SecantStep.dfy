/**
 A step of the iteration without an analytic Jacobian (touchscreen_drv/levmar-2.5/lm_core.c,
 LEVMAR_DIF, from the solved increment to the accepted point): the function values that the
 rank-one update is fed with are kept in step with the point, so that the matrix explains
 each step it is updated for.
 */
module SecantStep {
  import opened LinearAlgebra
  import opened NormalEquations
  import opened LmDer
  import LuSolve
  import Broyden

  class DifWork {
    const m: nat
    const n: nat
    const p: array<real>
    const e: array<real>
    const hx: array<real>
    const wrk: array<real>
    const wrk2: array<real>
    const dp: array<real>
    const pdp: array<real>
    const g: array<real>        // jacTe
    const jac: array2<real>

    ghost predicate Shape() {
      && p.Length == dp.Length == pdp.Length == g.Length == m && e.Length == hx.Length == wrk.Length == wrk2.Length == n
      && jac.Length0 == n && jac.Length1 == m
      && p != e && p != hx && p != wrk && p != wrk2 && p != dp && p != pdp && p != g
      && e != hx && e != wrk && e != wrk2 && e != dp && e != pdp && e != g
      && hx != wrk && hx != wrk2 && hx != dp && hx != pdp && hx != g
      && wrk != wrk2 && wrk != dp && wrk != pdp && wrk != g
      && wrk2 != dp && wrk2 != pdp && wrk2 != g && dp != pdp && dp != g && pdp != g
    }

    constructor (m: nat, n: nat, p: array<real>)
      requires p.Length == m
      ensures Shape() && this.m == m && this.n == n && this.p == p
      ensures fresh(e) && fresh(hx) && fresh(wrk) && fresh(wrk2) && fresh(dp) && fresh(pdp) && fresh(g) && fresh(jac)
    {
      this.m, this.n, this.p := m, n, p;
      e, hx, wrk, wrk2 := new real[n](_ => 0.0), new real[n](_ => 0.0), new real[n](_ => 0.0), new real[n](_ => 0.0);
      dp, pdp, g := new real[m](_ => 0.0), new real[m](_ => 0.0), new real[m](_ => 0.0);
      jac := new real[n, m]((_, _) => 0.0);
    }

    /** hx, e and the cost belong to the current point. */
    ghost predicate InStep(pb: Problem, cost: real)
      reads p, e, hx
      requires Shape() && GoodProblem(pb) && pb.m == m && pb.n == n
    {
      hx[..] == pb.func(p[..]) && e[..] == LmDer.Residual(pb, p[..]) && cost == Cost(pb, p[..])
    }

    /** The trial point with its values. */
    ghost predicate TrialInStep(pb: Problem, cost: real)
      reads pdp, wrk, wrk2
      requires Shape() && GoodProblem(pb) && pb.m == m && pb.n == n
    {
      wrk[..] == pb.func(pdp[..]) && wrk2[..] == LmDer.Residual(pb, pdp[..]) && cost == Cost(pb, pdp[..])
    }

    /** The point that the increment leads to, and the size of the increment. */
    method TakeIncrement() returns (dpL2: real)
      requires Shape()
      modifies pdp
      ensures pdp[..] == Add(p[..], dp[..]) && dpL2 == Norm2(dp[..])
    {
      ghost var q := Add(p[..], dp[..]);
      dpL2 := 0.0;
      for i := 0 to m
        invariant dpL2 == Dot(dp[..], dp[..], i) && forall k :: 0 <= k < i ==> pdp[k] == q[k]
      {
        pdp[i] := p[i] + dp[i];
        dpL2 := dpL2 + dp[i] * dp[i];
      }
      assert pdp[..] == q;
    }

    method Gains(mu: real) returns (dL: real)
      requires Shape()
      ensures dL == Gain(dp[..], mu, g[..])
    {
      dL := 0.0;
      for i := 0 to m
        invariant dL == Dot(dp[..], Weighted(dp[..], mu, g[..]), i)
      {
        dL := dL + dp[i] * (mu * dp[i] + g[i]);
      }
    }

    /** The function at the trial point. */
    method Try(pb: Problem) returns (cost: real)
      requires Shape() && GoodProblem(pb) && pb.m == m && pb.n == n
      modifies wrk, wrk2
      ensures TrialInStep(pb, cost)
    {
      Copy(wrk, pb.func(pdp[..]));
      cost := L2Nrmxmy(wrk2, pb.x, wrk);
    }

    method Accept()
      requires Shape()
      modifies p, e, hx
      ensures p[..] == pdp[..] && e[..] == wrk2[..] && hx[..] == wrk[..]
    {
      CopyArray(p, pdp);
      CopyArray(e, wrk2);
      CopyArray(hx, wrk);
    }

    /** What happened to an increment. `updated` says that the Jacobian was updated. */
    method Judge(pb: Problem, o: Options, mu: real, cost0: real, pL2: real, updp: bool, ghost j: Mat)
      returns (stop: int, accepted: bool, updated: bool, cost: real, ghost j': Mat)
      requires Shape() && GoodProblem(pb) && pb.m == m && pb.n == n && o.epsilon > 0.0
      requires InStep(pb, cost0) && pL2 == Norm2(p[..]) && IsMat(j, n, m) && LuSolve.Holds(jac, j)
      modifies p, e, hx, wrk, wrk2, pdp, jac
      ensures InStep(pb, cost) && IsMat(j', n, m) && LuSolve.Holds(jac, j')
      ensures stop in {0, 2, 4, 7} && (stop != 0 ==> !accepted && !updated)
      ensures accepted ==> updated && cost < cost0 && p[..] == Add(old(p[..]), dp[..])
      ensures !accepted ==> cost == cost0 && p[..] == old(p[..])
      ensures updated ==> Explains(pb, j', old(p[..]), dp[..])
      ensures !updated ==> j' == j
      ensures stop == 0 ==> (updated <==> updp || Cost(pb, Add(old(p[..]), dp[..])) < cost0)
      ensures stop == 0 ==> (accepted <==> Gain(dp[..], mu, g[..]) > 0.0 && Cost(pb, Add(old(p[..]), dp[..])) < cost0)
    {
      j', cost, accepted, updated := j, cost0, false, false;
      var dpL2 := TakeIncrement();
      stop := TestStep(dpL2, pL2, o, p[..]);
      if stop != 0 { return; }
      var trial := Try(pb);
      if !pb.finite(trial) { stop := 7; return; }
      if updp || cost0 - trial > 0.0 {
        Broyden.Update(jac, dp, hx, wrk, dpL2, j);
        j' := Broyden.Updated(j, dp[..], hx[..], wrk[..]);
        Broyden.Secant(j, dp[..], hx[..], wrk[..]);
        updated := true;
      }
      var dL := Gains(mu);
      if dL > 0.0 && cost0 - trial > 0.0 {
        Accept();
        accepted, cost := true, trial;
      }
    }
  }

  /** The matrix explains the step d from v exactly: the secant equation for the function that
      is fitted. */
  ghost predicate Explains(pb: Problem, j: Mat, v: Vec, d: Vec)
    requires GoodProblem(pb) && |v| == |d| == pb.m && IsMat(j, pb.n, pb.m)
  {
    MatVec(j, d) == Sub(pb.func(Add(v, d)), pb.func(v))
  }
}
