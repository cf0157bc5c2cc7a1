/**
 The product J^T J of large problems (touchscreen_drv/levmar-2.5/misc_core.c,
 LEVMAR_TRANS_MAT_MAT_MULT): the upper triangle is built block by block, so that rows stay in
 the cache, and then copied to the lower one. It is the same matrix.
 */
module BlockedProduct {
  import opened Shared
  import opened LinearAlgebra
  import opened NormalEquations
  import LuSolve

  const BLOCK := 32

  /** Position (r, c) belongs to the block of columns from jj on, in the upper triangle. */
  predicate InBlock(r: nat, c: nat, jj: nat, m: nat) { jj <= c < jj + BLOCK && r <= c < m }

  /** The sum of one block of rows. */
  ghost function Stretch(j: Mat, r: nat, c: nat, lo: nat, hi: nat): (s: real)
    requires lo <= hi <= |j| && forall l :: 0 <= l < |j| ==> r < |j[l]| && c < |j[l]|
  {
    Partial(j, r, c, hi) - Partial(j, r, c, lo)
  }

  method BlockSum(jac: Mat, m: nat, r: nat, c: nat, lo: nat, hi: nat) returns (sum: real)
    requires IsMat(jac, |jac|, m) && r < m && c < m && lo <= hi <= |jac|
    ensures sum == Stretch(jac, r, c, lo, hi)
  {
    sum := 0.0;
    for k := lo to hi
      invariant sum == Stretch(jac, r, c, lo, k)
    {
      PartialStep(jac, r, c, k);
      sum := sum + jac[k][r] * jac[k][c];
    }
  }

  /** Row r of the block gains the sums over the rows from lo to hi. */
  method AddBlockRow(b: array2<real>, jac: Mat, m: nat, jj: nat, lo: nat, hi: nat, r: nat)
    requires IsMat(jac, |jac|, m) && b.Length0 == b.Length1 == m && lo <= hi <= |jac| && r < m && jj < m
    modifies b
    ensures forall i, c :: 0 <= i < m && 0 <= c < m ==>
              b[i, c] == old(b[i, c]) + if i == r && InBlock(r, c, jj, m) then Stretch(jac, r, c, lo, hi) else 0.0
  {
    var j := if jj >= r then jj else r;
    ghost var from := j;
    assert forall c: nat :: InBlock(r, c, jj, m) ==> c >= from;
    while j < Min(jj + BLOCK, m)
      invariant from <= j && (j <= jj + BLOCK || j == from) && j <= m
      invariant forall i, c :: 0 <= i < m && 0 <= c < m ==>
                  b[i, c] == old(b[i, c]) + if i == r && c < j
                      && InBlock(r, c, jj, m) then Stretch(jac, r, c, lo, hi) else 0.0
    {
      var sum := BlockSum(jac, m, r, j, lo, hi);
      b[r, j] := b[r, j] + sum;
      j := j + 1;
    }
  }

  /** Every row of the block gains its sums. */
  method AddBlock(b: array2<real>, jac: Mat, m: nat, jj: nat, lo: nat, hi: nat)
    requires IsMat(jac, |jac|, m) && b.Length0 == b.Length1 == m && lo <= hi <= |jac| && jj < m
    modifies b
    ensures forall i, c :: 0 <= i < m && 0 <= c < m ==>
              b[i, c] == old(b[i, c]) + if InBlock(i, c, jj, m) then Stretch(jac, i, c, lo, hi) else 0.0
  {
    for r := 0 to m
      invariant forall i, c :: 0 <= i < m && 0 <= c < m ==>
                  b[i, c] == old(b[i, c]) + if i < r && InBlock(i, c, jj, m) then Stretch(jac, i, c, lo, hi) else 0.0
    {
      AddBlockRow(b, jac, m, jj, lo, hi, r);
    }
  }

  method ClearBlock(b: array2<real>, m: nat, jj: nat)
    requires b.Length0 == b.Length1 == m && jj < m
    modifies b
    ensures forall i, c :: 0 <= i < m && 0 <= c < m ==> b[i, c] == if InBlock(i, c, jj, m) then 0.0 else old(b[i, c])
  {
    for r := 0 to m
      invariant forall i, c :: 0 <= i < m && 0 <= c < m ==>
                  b[i, c] == if i < r && InBlock(i, c, jj, m) then 0.0 else old(b[i, c])
    {
      var j := if jj >= r then jj else r;
      ghost var from := j;
      while j < Min(jj + BLOCK, m)
        invariant from <= j && (j <= jj + BLOCK || j == from) && j <= m
        invariant forall i, c :: 0 <= i < m && 0 <= c < m ==>
                    b[i, c] == if (i < r || (i == r && c < j)) && InBlock(i, c, jj, m) then 0.0 else old(b[i, c])
      {
        b[r, j] := 0.0;
        j := j + 1;
      }
    }
  }

  /** One block of columns of the upper triangle. */
  method BlockColumns(b: array2<real>, jac: Mat, m: nat, jj: nat)
    requires IsMat(jac, |jac|, m) && b.Length0 == b.Length1 == m && jj < m
    modifies b
    ensures forall i, c :: 0 <= i < m && 0 <= c < m ==>
              b[i, c] == if InBlock(i, c, jj, m) then Partial(jac, i, c, |jac|) else old(b[i, c])
  {
    ClearBlock(b, m, jj);
    var kk := 0;
    ghost var done: nat := 0;
    while kk < |jac|
      invariant done == Min(kk, |jac|)
      invariant forall i, c :: 0 <= i < m && 0 <= c < m ==>
                  b[i, c] == if InBlock(i, c, jj, m) then Partial(jac, i, c, done) else old(b[i, c])
    {
      AddBlock(b, jac, m, jj, kk, Min(kk + BLOCK, |jac|));
      kk := kk + BLOCK;
      done := Min(kk, |jac|);
    }
  }

  /** LEVMAR_TRANS_MAT_MAT_MULT */
  method TransMatMatMult(b: array2<real>, jac: Mat, m: nat)
    requires IsMat(jac, |jac|, m) && b.Length0 == b.Length1 == m
    modifies b
    ensures LuSolve.Holds(b, Gram(jac, m))
  {
    var jj := 0;
    while jj < m
      invariant forall i, c :: 0 <= i <= c < m && c < jj ==> b[i, c] == Partial(jac, i, c, |jac|)
    {
      BlockColumns(b, jac, m, jj);
      jj := jj + BLOCK;
    }
    assert forall i, c :: 0 <= i <= c < m ==> b[i, c] == Gram(jac, m)[i][c];
    CopyDown(b, m, jac);
  }

  /** Copies the upper triangle to the lower one. */
  method CopyDown(b: array2<real>, m: nat, ghost jac: Mat)
    requires b.Length0 == b.Length1 == m && IsMat(jac, |jac|, m)
    requires forall i, c :: 0 <= i <= c < m ==> b[i, c] == Gram(jac, m)[i][c]
    modifies b
    ensures LuSolve.Holds(b, Gram(jac, m))
  {
    forall r, c | 0 <= c < r < m ensures Gram(jac, m)[r][c] == Gram(jac, m)[c][r] { GramSymmetric(jac, m, c, r); }
    for i := 0 to m
      invariant forall r, c :: 0 <= r < m && 0 <= c < m && (r <= c || r < i) ==> b[r, c] == Gram(jac, m)[r][c]
    {
      for j := 0 to i
        invariant forall r, c :: 0 <= r < m && 0 <= c < m && (r <= c || r < i || (r == i && c < j)) ==>
                    b[r, c] == Gram(jac, m)[r][c]
      {
        b[i, j] := b[j, i];
      }
    }
  }

  /** J^T e, row by row. */
  method TransMatVec(g: array<real>, jac: Mat, e: array<real>, m: nat)
    requires e.Length == |jac| && IsMat(jac, |jac|, m) && g.Length == m && g != e
    modifies g
    ensures g[..] == Gradient(jac, m, e[..])
  {
    forall k | 0 <= k < m { g[k] := 0.0; }
    for i := 0 to |jac|
      invariant forall k :: 0 <= k < m ==> g[k] == DotCol(e[..], jac, k, i)
    {
      var t := e[i];
      for l := 0 to m
        invariant forall k :: 0 <= k < m ==> g[k] == DotCol(e[..], jac, k, if k < l then i + 1 else i)
      {
        g[l] := g[l] + jac[i][l] * t;
      }
    }
    assert g[..] == Gradient(jac, m, e[..]);
  }
}
