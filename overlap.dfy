/** The overlap sub-lattice of one displacement.

    For a displacement (x, y, z) the kernels pair every grid point i of the
    field with i + (x, y, z). Only points whose partner is still inside the
    field take part: the difference array has extents (Nx-x, Ny-y, Nz-z), its
    entry i is F(i + l) - F(i), and `count` is the number of entries. */
module Overlap {
  import opened Arith

  /** Row-major contents of a 2-D array (the index order of Blitz++ `sum`). */
  function Flatten2(d: array2<real>): seq<real>
    reads d
  {
    var n0, n1 := d.Length0, d.Length1;
    seq(n0 * n1, idx requires 0 <= idx < n0 * n1 reads d =>
      SplitBelow(idx, n0, n1);
      d[idx / n1, idx % n1])
  }

  /** Row-major contents of a 3-D array. */
  function Flatten3(d: array3<real>): seq<real>
    reads d
  {
    var n0, n12, n2 := d.Length0, d.Length1 * d.Length2, d.Length2;
    seq(n0 * n12, idx requires 0 <= idx < n0 * n12 reads d =>
      SplitBelow(idx, n0, n12);
      SplitBelow(idx % n12, d.Length1, n2);
      d[idx / n12, (idx % n12) / n2, idx % n2])
  }

  /** The 2-D difference field of displacement (x, z), row-major, as the
      specification of `Diff2D`. */
  function DiffSeq2(F: array2<real>, x: int, z: int): seq<real>
    reads F
    requires 0 <= x < F.Length0 && 0 <= z < F.Length1
  {
    var n0, n1 := F.Length0 - x, F.Length1 - z;
    seq(n0 * n1, idx requires 0 <= idx < n0 * n1 reads F =>
      SplitBelow(idx, n0, n1);
      F[idx / n1 + x, idx % n1 + z] - F[idx / n1, idx % n1])
  }

  /** The 3-D difference field of displacement (x, y, z), row-major. */
  function DiffSeq3(F: array3<real>, x: int, y: int, z: int): seq<real>
    reads F
    requires 0 <= x < F.Length0 && 0 <= y < F.Length1 && 0 <= z < F.Length2
  {
    var n0, n1, n2 := F.Length0 - x, F.Length1 - y, F.Length2 - z;
    var n12 := n1 * n2;
    seq(n0 * n12, idx requires 0 <= idx < n0 * n12 reads F =>
      SplitBelow(idx, n0, n12);
      SplitBelow(idx % n12, n1, n2);
      var i, j, k := idx / n12, (idx % n12) / n2, idx % n2;
      F[i + x, j + y, k + z] - F[i, j, k])
  }

  /** `dT = T(Range(x,Nx-1), Range(z,Nz-1)) - T(Range(0,Nx-x-1), Range(0,Nz-z-1))`:
      a fresh (Nx-x, Nz-z) array whose entry (i, k) is T(i+x, k+z) - T(i, k),
      assigned element-wise as the array expression does. Every shifted and
      unshifted index it reads lies inside the field. */
  method Diff2D(F: array2<real>, x: int, z: int) returns (d: array2<real>)
    requires 0 <= x < F.Length0 && 0 <= z < F.Length1
    ensures fresh(d)
    ensures d.Length0 == F.Length0 - x && d.Length1 == F.Length1 - z
    ensures forall i, k :: 0 <= i < d.Length0 && 0 <= k < d.Length1 ==>
      d[i, k] == F[i + x, k + z] - F[i, k]
    ensures Flatten2(d) == DiffSeq2(F, x, z)
  {
    d := new real[F.Length0 - x, F.Length1 - z];
    forall i, k | 0 <= i < d.Length0 && 0 <= k < d.Length1 {
      d[i, k] := F[i + x, k + z] - F[i, k];
    }
    FlattenDiff2(F, x, z, d);
  }

  /** The 3-D counterpart of `Diff2D`: extents (Nx-x, Ny-y, Nz-z), entry
      (i, j, k) equal to U(i+x, j+y, k+z) - U(i, j, k). */
  method Diff3D(F: array3<real>, x: int, y: int, z: int) returns (d: array3<real>)
    requires 0 <= x < F.Length0 && 0 <= y < F.Length1 && 0 <= z < F.Length2
    ensures fresh(d)
    ensures d.Length0 == F.Length0 - x && d.Length1 == F.Length1 - y && d.Length2 == F.Length2 - z
    ensures forall i, j, k :: 0 <= i < d.Length0 && 0 <= j < d.Length1 && 0 <= k < d.Length2 ==>
      d[i, j, k] == F[i + x, j + y, k + z] - F[i, j, k]
    ensures Flatten3(d) == DiffSeq3(F, x, y, z)
  {
    d := new real[F.Length0 - x, F.Length1 - y, F.Length2 - z];
    forall i, j, k | 0 <= i < d.Length0 && 0 <= j < d.Length1 && 0 <= k < d.Length2 {
      d[i, j, k] := F[i + x, j + y, k + z] - F[i, j, k];
    }
    FlattenDiff3(F, x, y, z, d);
  }

  /** A (Nx-x, Nz-z) array holding the pointwise differences flattens to `DiffSeq2`. */
  lemma FlattenDiff2(F: array2<real>, x: int, z: int, d: array2<real>)
    requires 0 <= x < F.Length0 && 0 <= z < F.Length1
    requires d.Length0 == F.Length0 - x && d.Length1 == F.Length1 - z
    requires forall i, k :: 0 <= i < d.Length0 && 0 <= k < d.Length1 ==>
      d[i, k] == F[i + x, k + z] - F[i, k]
    ensures Flatten2(d) == DiffSeq2(F, x, z)
  {
    var a, b := Flatten2(d), DiffSeq2(F, x, z);
    forall idx | 0 <= idx < |a| ensures a[idx] == b[idx] {
      SplitBelow(idx, d.Length0, d.Length1);
    }
  }

  /** A (Nx-x, Ny-y, Nz-z) array holding the pointwise differences flattens to `DiffSeq3`. */
  lemma FlattenDiff3(F: array3<real>, x: int, y: int, z: int, d: array3<real>)
    requires 0 <= x < F.Length0 && 0 <= y < F.Length1 && 0 <= z < F.Length2
    requires d.Length0 == F.Length0 - x && d.Length1 == F.Length1 - y && d.Length2 == F.Length2 - z
    requires forall i, j, k :: 0 <= i < d.Length0 && 0 <= j < d.Length1 && 0 <= k < d.Length2 ==>
      d[i, j, k] == F[i + x, j + y, k + z] - F[i, j, k]
    ensures Flatten3(d) == DiffSeq3(F, x, y, z)
  {
    var a, b := Flatten3(d), DiffSeq3(F, x, y, z);
    var n12 := d.Length1 * d.Length2;
    forall idx | 0 <= idx < |a| ensures a[idx] == b[idx] {
      SplitBelow(idx, d.Length0, n12);
      SplitBelow(idx % n12, d.Length1, d.Length2);
    }
  }

  /** `count = (Nx-x)*(Nz-z)`: the number of difference samples is the product
      of the overlap extents and is positive, so `sum(...)/count` is defined. */
  lemma OverlapCount2(F: array2<real>, x: int, z: int)
    requires 0 <= x < F.Length0 && 0 <= z < F.Length1
    ensures |DiffSeq2(F, x, z)| == (F.Length0 - x) * (F.Length1 - z) > 0
  {
    MulMonotone(F.Length0 - x, 1, F.Length1 - z);
  }

  /** `count = (Nx-x)*(Ny-y)*(Nz-z)`, positive. */
  lemma OverlapCount3(F: array3<real>, x: int, y: int, z: int)
    requires 0 <= x < F.Length0 && 0 <= y < F.Length1 && 0 <= z < F.Length2
    ensures |DiffSeq3(F, x, y, z)| == (F.Length0 - x) * ((F.Length1 - y) * (F.Length2 - z)) > 0
  {
    MulMonotone(F.Length1 - y, 1, F.Length2 - z);
    MulMonotone(F.Length0 - x, 1, (F.Length1 - y) * (F.Length2 - z));
  }

  /** C `int` arithmetic: the value of v reduced to the 32-bit two's-complement range. */
  function Wrap32(v: int): (w: int)
    ensures -0x8000_0000 <= w < 0x8000_0000
    ensures (w - v) % 0x1_0000_0000 == 0
  {
    (v + 0x8000_0000) % 0x1_0000_0000 - 0x8000_0000
  }

  /** `int count = (Nx-x)*(Ny-y)*(Nz-z)` as the source computes it, in 32-bit `int`. */
  function Count32(n0: int, n1: int, n2: int): int
  {
    Wrap32(Wrap32(n0 * n1) * n2)
  }

  /** For a 2048^3 field and displacement (0, 0, 1) the 32-bit count is
      negative although the overlap holds 8585740288 samples. */
  lemma Count32Overflows()
    ensures 2048 * (2048 * 2047) == 8585740288
    ensures Count32(2048, 2048, 2047) == -4194304
  {
  }

  /** The 32-bit count agrees with the true one exactly when the product fits in `int`. */
  lemma Count32Agrees(n0: int, n1: int, n2: int)
    requires n0 >= 0 && n1 >= 0 && n2 >= 0 && n0 * n1 * n2 < 0x8000_0000
    ensures Count32(n0, n1, n2) == n0 * n1 * n2
  {
    MulMonotone(n0, 0, n1);
    if n2 > 0 {
      MulMonotone(n0 * n1, 1, n2);
      DivModUnique(n0 * n1 + 0x8000_0000, 0x1_0000_0000, 0, n0 * n1 + 0x8000_0000);
      MulMonotone(n0 * n1, 0, n2);
      DivModUnique(n0 * n1 * n2 + 0x8000_0000, 0x1_0000_0000, 0, n0 * n1 * n2 + 0x8000_0000);
    }
  }
}
