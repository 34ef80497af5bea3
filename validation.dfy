/** The closed forms the built-in test fields must produce: for a scalar field
    linear in position every difference sample equals lx + ly + lz, and for the
    velocity field U = position every increment equals the displacement l, so
    its longitudinal part is |l| and its transverse part vanishes. */
module Validation {
  import opened Arith
  import opened Overlap
  import opened Moments
  import opened Kernels

  /** F(i, k) = i*cx + k*cz at every grid point. */
  predicate Linear2(F: array2<real>, cx: real, cz: real)
    reads F
  {
    forall i, k :: 0 <= i < F.Length0 && 0 <= k < F.Length1 ==> F[i, k] == i as real * cx + k as real * cz
  }

  /** F(i, j, k) = i*cx + j*cy + k*cz at every grid point. */
  predicate Linear3(F: array3<real>, cx: real, cy: real, cz: real)
    reads F
  {
    forall i, j, k :: 0 <= i < F.Length0 && 0 <= j < F.Length1 && 0 <= k < F.Length2 ==>
      F[i, j, k] == i as real * cx + j as real * cy + k as real * cz
  }

  /** A 2-D field linear in the grid indices, F(i, k) = i*cx + k*cz, has every
      difference sample of displacement (x, z) equal to x*cx + z*cz. */
  lemma LinearDiff2(F: array2<real>, x: int, z: int, cx: real, cz: real, c: real)
    requires 0 <= x < F.Length0 && 0 <= z < F.Length1
    requires Linear2(F, cx, cz) && c == x as real * cx + z as real * cz
    ensures |DiffSeq2(F, x, z)| > 0
    ensures forall n :: 0 <= n < |DiffSeq2(F, x, z)| ==> DiffSeq2(F, x, z)[n] == c
  {
    var s := DiffSeq2(F, x, z);
    var n0, n1 := F.Length0 - x, F.Length1 - z;
    OverlapCount2(F, x, z);
    forall idx | 0 <= idx < |s| ensures s[idx] == c {
      SplitBelow(idx, n0, n1);
      var i, k := idx / n1, idx % n1;
      assert s[idx] == F[i + x, k + z] - F[i, k];
      assert (i + x) as real * cx == i as real * cx + x as real * cx;
      assert (k + z) as real * cz == k as real * cz + z as real * cz;
    }
  }

  /** A 3-D field linear in the grid indices has every difference sample of
      displacement (x, y, z) equal to x*cx + y*cy + z*cz. */
  lemma LinearDiff3(F: array3<real>, x: int, y: int, z: int, cx: real, cy: real, cz: real, c: real)
    requires 0 <= x < F.Length0 && 0 <= y < F.Length1 && 0 <= z < F.Length2
    requires Linear3(F, cx, cy, cz) && c == x as real * cx + y as real * cy + z as real * cz
    ensures |DiffSeq3(F, x, y, z)| > 0
    ensures forall n :: 0 <= n < |DiffSeq3(F, x, y, z)| ==> DiffSeq3(F, x, y, z)[n] == c
  {
    var s := DiffSeq3(F, x, y, z);
    var n0, n1, n2 := F.Length0 - x, F.Length1 - y, F.Length2 - z;
    OverlapCount3(F, x, y, z);
    forall idx | 0 <= idx < |s| ensures s[idx] == c {
      SplitBelow(idx, n0, n1 * n2);
      SplitBelow(idx % (n1 * n2), n1, n2);
      var i, j, k := idx / (n1 * n2), (idx % (n1 * n2)) / n2, idx % n2;
      assert s[idx] == F[i + x, j + y, k + z] - F[i, j, k];
      LinearStep3(F, x, y, z, cx, cy, cz, i, j, k);
    }
  }

  /** One difference sample of a linear 3-D field. */
  lemma LinearStep3(F: array3<real>, x: int, y: int, z: int, cx: real, cy: real, cz: real, i: int, j: int, k: int)
    requires Linear3(F, cx, cy, cz)
    requires 0 <= i && 0 <= j && 0 <= k && i + x < F.Length0 && j + y < F.Length1 && k + z < F.Length2
    requires 0 <= x && 0 <= y && 0 <= z
    ensures F[i + x, j + y, k + z] - F[i, j, k] == x as real * cx + y as real * cy + z as real * cz
  {
    assert (i + x) as real * cx == i as real * cx + x as real * cx;
    assert (j + y) as real * cy == j as real * cy + y as real * cy;
    assert (k + z) as real * cz == k as real * cz + z as real * cz;
  }

  /** The 2-D scalar test field T = x + z has moment (lx + lz)^q for every
      displacement of the overlap. */
  lemma LinearScalar2(cfg: Config, T: array2<real>, x: int, z: int, q: int)
    requires 0 <= x < T.Length0 && 0 <= z < T.Length1
    requires Linear2(T, cfg.dx, cfg.dz)
    ensures ScalarSF2(T, x, z, q) == Pow(x as real * cfg.dx + z as real * cfg.dz, q)
  {
    LinearDiff2(T, x, z, cfg.dx, cfg.dz, x as real * cfg.dx + z as real * cfg.dz);
    MeanPowConstant(DiffSeq2(T, x, z), x as real * cfg.dx + z as real * cfg.dz, q);
  }

  /** The 3-D scalar test field T = x + y + z has moment (lx + ly + lz)^q. */
  lemma LinearScalar3(cfg: Config, T: array3<real>, x: int, y: int, z: int, q: int)
    requires 0 <= x < T.Length0 && 0 <= y < T.Length1 && 0 <= z < T.Length2
    requires Linear3(T, cfg.dx, cfg.dy, cfg.dz)
    ensures ScalarSF3(T, x, y, z, q) == Pow(x as real * cfg.dx + y as real * cfg.dy + z as real * cfg.dz, q)
  {
    LinearDiff3(T, x, y, z, cfg.dx, cfg.dy, cfg.dz, x as real * cfg.dx + y as real * cfg.dy + z as real * cfg.dz);
    MeanPowConstant(DiffSeq3(T, x, y, z), x as real * cfg.dx + y as real * cfg.dy + z as real * cfg.dz, q);
  }

  /** For the 2-D test field U = (x, z) every increment of displacement (x, z)
      is the displacement vector itself. */
  lemma LinearIncrements2(cfg: Config, Ux: array2<real>, Uz: array2<real>, x: int, z: int)
    requires Uz.Length0 == Ux.Length0 && Uz.Length1 == Ux.Length1
    requires 0 <= x < Ux.Length0 && 0 <= z < Ux.Length1
    requires Linear2(Ux, cfg.dx, 0.0) && Linear2(Uz, 0.0, cfg.dz)
    ensures |Incr2(Ux, Uz, x, z)| > 0
    ensures forall n :: 0 <= n < |Incr2(Ux, Uz, x, z)| ==> Incr2(Ux, Uz, x, z)[n] == Displacement2(cfg, x, z)
  {
    var l := Displacement2(cfg, x, z);
    LinearDiff2(Ux, x, z, cfg.dx, 0.0, l.x);
    LinearDiff2(Uz, x, z, 0.0, cfg.dz, l.z);
    ConstantIncrements2(Ux, Uz, x, z, l.x, l.z);
  }

  /** The 2-D counterpart of ConstantIncrements3: constant component
      differences give the constant increment (cx, 0, cz). */
  lemma ConstantIncrements2(Ux: array2<real>, Uz: array2<real>, x: int, z: int, cx: real, cz: real)
    requires Uz.Length0 == Ux.Length0 && Uz.Length1 == Ux.Length1
    requires 0 <= x < Ux.Length0 && 0 <= z < Ux.Length1
    requires forall n :: 0 <= n < |DiffSeq2(Ux, x, z)| ==> DiffSeq2(Ux, x, z)[n] == cx
    requires forall n :: 0 <= n < |DiffSeq2(Uz, x, z)| ==> DiffSeq2(Uz, x, z)[n] == cz
    ensures forall n :: 0 <= n < |Incr2(Ux, Uz, x, z)| ==> Incr2(Ux, Uz, x, z)[n] == Vec(cx, 0.0, cz)
  {
    var sx, sz := DiffSeq2(Ux, x, z), DiffSeq2(Uz, x, z);
    assert Incr2(Ux, Uz, x, z) == Increments2(sx, sz);
  }

  /** Component difference fields that are constant bundle into a constant
      field of increments. */
  lemma ConstantIncrements3(Ux: array3<real>, Uy: array3<real>, Uz: array3<real>, x: int, y: int, z: int,
                            cx: real, cy: real, cz: real)
    requires Uy.Length0 == Ux.Length0 && Uy.Length1 == Ux.Length1 && Uy.Length2 == Ux.Length2
    requires Uz.Length0 == Ux.Length0 && Uz.Length1 == Ux.Length1 && Uz.Length2 == Ux.Length2
    requires 0 <= x < Ux.Length0 && 0 <= y < Ux.Length1 && 0 <= z < Ux.Length2
    requires forall n :: 0 <= n < |DiffSeq3(Ux, x, y, z)| ==> DiffSeq3(Ux, x, y, z)[n] == cx
    requires forall n :: 0 <= n < |DiffSeq3(Uy, x, y, z)| ==> DiffSeq3(Uy, x, y, z)[n] == cy
    requires forall n :: 0 <= n < |DiffSeq3(Uz, x, y, z)| ==> DiffSeq3(Uz, x, y, z)[n] == cz
    ensures forall n :: 0 <= n < |Incr3(Ux, Uy, Uz, x, y, z)| ==> Incr3(Ux, Uy, Uz, x, y, z)[n] == Vec(cx, cy, cz)
  {
    var sx, sy, sz := DiffSeq3(Ux, x, y, z), DiffSeq3(Uy, x, y, z), DiffSeq3(Uz, x, y, z);
    assert Incr3(Ux, Uy, Uz, x, y, z) == Increments3(sx, sy, sz);
  }

  /** For the 3-D test field U = (x, y, z) every increment is the displacement vector. */
  lemma LinearIncrements3(cfg: Config, Ux: array3<real>, Uy: array3<real>, Uz: array3<real>, x: int, y: int, z: int)
    requires Uy.Length0 == Ux.Length0 && Uy.Length1 == Ux.Length1 && Uy.Length2 == Ux.Length2
    requires Uz.Length0 == Ux.Length0 && Uz.Length1 == Ux.Length1 && Uz.Length2 == Ux.Length2
    requires 0 <= x < Ux.Length0 && 0 <= y < Ux.Length1 && 0 <= z < Ux.Length2
    requires Linear3(Ux, cfg.dx, 0.0, 0.0) && Linear3(Uy, 0.0, cfg.dy, 0.0) && Linear3(Uz, 0.0, 0.0, cfg.dz)
    ensures |Incr3(Ux, Uy, Uz, x, y, z)| > 0
    ensures forall n :: 0 <= n < |Incr3(Ux, Uy, Uz, x, y, z)| ==> Incr3(Ux, Uy, Uz, x, y, z)[n] == Displacement3(cfg, x, y, z)
  {
    var l := Displacement3(cfg, x, y, z);
    LinearDiff3(Ux, x, y, z, cfg.dx, 0.0, 0.0, l.x);
    LinearDiff3(Uy, x, y, z, 0.0, cfg.dy, 0.0, l.y);
    LinearDiff3(Uz, x, y, z, 0.0, 0.0, cfg.dz, l.z);
    ConstantIncrements3(Ux, Uy, Uz, x, y, z, l.x, l.y, l.z);
  }

  /** The 2-D velocity test: for U = (x, z) and a displacement of positive length
      r (with `root` a square root there and at 0), the longitudinal moment is
      r^q, i.e. (lx^2 + lz^2)^(q/2), and the transverse moment is 0^q: 0 for
      every non-zero order, but 1 at order 0, where the test expects 0. */
  lemma LinearVelocity2(cfg: Config, root: real -> real, Ux: array2<real>, Uz: array2<real>, x: int, z: int, q: int)
    requires Uz.Length0 == Ux.Length0 && Uz.Length1 == Ux.Length1
    requires 0 <= x < Ux.Length0 && 0 <= z < Ux.Length1
    requires Linear2(Ux, cfg.dx, 0.0) && Linear2(Uz, 0.0, cfg.dz)
    requires root(Dot(Displacement2(cfg, x, z), Displacement2(cfg, x, z))) > 0.0
    requires root(Dot(Displacement2(cfg, x, z), Displacement2(cfg, x, z))) * root(Dot(Displacement2(cfg, x, z), Displacement2(cfg, x, z)))
      == Dot(Displacement2(cfg, x, z), Displacement2(cfg, x, z))
    requires root(0.0) == 0.0
    ensures PllSF2(cfg, root, Ux, Uz, x, z, q) == Pow(root(Dot(Displacement2(cfg, x, z), Displacement2(cfg, x, z))), q)
    ensures PerpSF2(cfg, root, Ux, Uz, x, z, q) == Pow(0.0, q)
    ensures q != 0 ==> PerpSF2(cfg, root, Ux, Uz, x, z, q) == 0.0
    ensures q == 0 ==> PerpSF2(cfg, root, Ux, Uz, x, z, q) == 1.0
  {
    var l := Displacement2(cfg, x, z);
    var r := root(Dot(l, l));
    LinearIncrements2(cfg, Ux, Uz, x, z);
    var du := Incr2(Ux, Uz, x, z);
    var ps, ts := PllSamples2(cfg, root, Ux, Uz, x, z), PerpSamples2(cfg, root, Ux, Uz, x, z);
    assert ps == PllSeq(du, l, r) && ts == PerpSeq(du, l, r, root);
    AlignedSamples(du, l, r, root);
    MeanPowConstant(ps, r, q);
    MeanPowConstant(ts, 0.0, q);
    if q != 0 {
      PowZero(q);
    }
  }

  /** The 3-D velocity test: for U = (x, y, z) the longitudinal moment is r^q
      and the transverse moment is 0^q (1 at order 0, where the test expects 0). */
  lemma LinearVelocity3(cfg: Config, root: real -> real, Ux: array3<real>, Uy: array3<real>, Uz: array3<real>,
                        x: int, y: int, z: int, q: int)
    requires Uy.Length0 == Ux.Length0 && Uy.Length1 == Ux.Length1 && Uy.Length2 == Ux.Length2
    requires Uz.Length0 == Ux.Length0 && Uz.Length1 == Ux.Length1 && Uz.Length2 == Ux.Length2
    requires 0 <= x < Ux.Length0 && 0 <= y < Ux.Length1 && 0 <= z < Ux.Length2
    requires Linear3(Ux, cfg.dx, 0.0, 0.0) && Linear3(Uy, 0.0, cfg.dy, 0.0) && Linear3(Uz, 0.0, 0.0, cfg.dz)
    requires root(Dot(Displacement3(cfg, x, y, z), Displacement3(cfg, x, y, z))) > 0.0
    requires root(Dot(Displacement3(cfg, x, y, z), Displacement3(cfg, x, y, z))) * root(Dot(Displacement3(cfg, x, y, z), Displacement3(cfg, x, y, z)))
      == Dot(Displacement3(cfg, x, y, z), Displacement3(cfg, x, y, z))
    requires root(0.0) == 0.0
    ensures PllSF3(cfg, root, Ux, Uy, Uz, x, y, z, q) == Pow(root(Dot(Displacement3(cfg, x, y, z), Displacement3(cfg, x, y, z))), q)
    ensures PerpSF3(cfg, root, Ux, Uy, Uz, x, y, z, q) == Pow(0.0, q)
    ensures q != 0 ==> PerpSF3(cfg, root, Ux, Uy, Uz, x, y, z, q) == 0.0
    ensures q == 0 ==> PerpSF3(cfg, root, Ux, Uy, Uz, x, y, z, q) == 1.0
  {
    var l := Displacement3(cfg, x, y, z);
    var r := root(Dot(l, l));
    LinearIncrements3(cfg, Ux, Uy, Uz, x, y, z);
    var du := Incr3(Ux, Uy, Uz, x, y, z);
    var ps, ts := PllSamples3(cfg, root, Ux, Uy, Uz, x, y, z), PerpSamples3(cfg, root, Ux, Uy, Uz, x, y, z);
    assert ps == PllSeq(du, l, r) && ts == PerpSeq(du, l, r, root);
    AlignedSamples(du, l, r, root);
    MeanPowConstant(ps, r, q);
    MeanPowConstant(ts, 0.0, q);
    if q != 0 {
      PowZero(q);
    }
  }

  /** `SF_scalar_2D` on the 2-D scalar test field, followed by the comparison
      of `SCALAR_TEST_CASE_2D`: every cell holds pow(lx+lz, q), except the zero
      displacement, which holds 0. */
  method LinearScalarRun2(cfg: Config, T: array2<real>, grid: array3<real>)
    requires cfg.Valid2D()
    requires T.Length0 == cfg.Nx && T.Length1 == cfg.Nz && Linear2(T, cfg.dx, cfg.dz)
    requires grid.Length0 == cfg.Nx / 2 && grid.Length1 == cfg.Nz / 2 && grid.Length2 == cfg.Orders()
    modifies grid
    ensures forall a, b, d :: 0 <= a < cfg.Nx / 2 && 0 <= b < cfg.Nz / 2 && 0 <= d < cfg.Orders() ==>
      grid[a, b, d] == if a == 0 && b == 0 then 0.0 else Pow(a as real * cfg.dx + b as real * cfg.dz, cfg.q1 + d)
  {
    ghost var rounds := SFScalar2D(cfg, T, grid);
    forall a, b, q | 0 <= a < cfg.Nx / 2 && 0 <= b < cfg.Nz / 2
      ensures ScalarSF2(T, a, b, q) == Pow(a as real * cfg.dx + b as real * cfg.dz, q)
    {
      LinearScalar2(cfg, T, a, b, q);
    }
  }

  /** `SF_scalar_3D` on the 3-D scalar test field, followed by the comparison
      of `SCALAR_TEST_CASE_3D`: every cell holds pow(lx+ly+lz, q), except the
      zero displacement, which holds 0. */
  method LinearScalarRun3(cfg: Config, T: array3<real>, grid: array4<real>)
    requires cfg.Valid3D()
    requires T.Length0 == cfg.Nx && T.Length1 == cfg.Ny && T.Length2 == cfg.Nz && Linear3(T, cfg.dx, cfg.dy, cfg.dz)
    requires grid.Length0 == cfg.Nx / 2 && grid.Length1 == cfg.Ny / 2 && grid.Length2 == cfg.Nz / 2 && grid.Length3 == cfg.Orders()
    modifies grid
    ensures forall a, b, c, d :: 0 <= a < cfg.Nx / 2 && 0 <= b < cfg.Ny / 2 && 0 <= c < cfg.Nz / 2 && 0 <= d < cfg.Orders() ==>
      grid[a, b, c, d] == if a == 0 && b == 0 && c == 0 then 0.0
        else Pow(a as real * cfg.dx + b as real * cfg.dy + c as real * cfg.dz, cfg.q1 + d)
  {
    ghost var rounds := SFScalar3D(cfg, T, grid);
    forall a, b, c, q | 0 <= a < cfg.Nx / 2 && 0 <= b < cfg.Ny / 2 && 0 <= c < cfg.Nz / 2
      ensures ScalarSF3(T, a, b, c, q) == Pow(a as real * cfg.dx + b as real * cfg.dy + c as real * cfg.dz, q)
    {
      LinearScalar3(cfg, T, a, b, c, q);
    }
  }
}
