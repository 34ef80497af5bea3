/** The six structure-function drivers, with the P ranks simulated in
    lock-step: in every round each rank contributes one value computed from
    its own table row, the coordinator gathers the P contributions and
    scatters them into its result grid. Each driver is specified by the value
    it leaves in every cell of the grid. */
module Kernels {
  import opened Arith
  import opened Topology
  import opened Enumerator
  import opened Overlap
  import opened Moments
  import opened Assembler

  /** The run parameters the drivers read: grid extents, process counts, the
      order range q1..q2 and the grid spacings. */
  datatype Config = Config(Nx: int, Ny: int, Nz: int, P: int, px: int, q1: int, q2: int, dx: real, dy: real, dz: real)
  {
    /** `q2-q1+1`: the number of orders, the last extent of every result grid. */
    function Orders(): int
    {
      q2 - q1 + 1
    }

    /** The plane the 3-D drivers partition: (x, y). */
    function Plane3(): Plane
    {
      Plane(Nx, Ny, P, px)
    }

    /** The plane the 2-D drivers partition: (x, z). */
    function Plane2(): Plane
    {
      Plane(Nx, Nz, P, px)
    }

    predicate Valid3D()
    {
      Plane3().Valid() && Nx >= 2 && Ny >= 2 && Nz >= 2 && Orders() >= 0
    }

    predicate Valid2D()
    {
      Plane2().Valid() && Nx >= 2 && Nz >= 2 && Orders() >= 0
    }
  }

  /** `main` checks neither Nz nor that Nx/2 and Ny/2 are non-zero: an 8x8x1
      field on one rank passes its checks and gives a valid table, yet the
      result grid has z extent Nz/2 = 0, so the final write to the origin
      cell (0, 0, 0) falls outside it. */
  lemma ThinGridAccepted()
    ensures MainAccepts(Config(8, 8, 1, 1, 1, 2, 2, 1.0, 1.0, 1.0).Plane3())
    ensures Config(8, 8, 1, 1, 1, 2, 2, 1.0, 1.0, 1.0).Plane3().Valid()
    ensures Config(8, 8, 1, 1, 1, 2, 2, 1.0, 1.0, 1.0).Nz / 2 == 0
  {
  }

  /** With every extent at least 2, the origin cell the drivers zero lies
      inside the 3-D result grid. */
  lemma OriginInGrid3(cfg: Config)
    requires cfg.Valid3D()
    ensures cfg.Nx / 2 >= 1 && cfg.Ny / 2 >= 1 && cfg.Nz / 2 >= 1
  {
  }

  /** The 2-D counterpart of OriginInGrid3. */
  lemma OriginInGrid2(cfg: Config)
    requires cfg.Valid2D()
    ensures cfg.Nx / 2 >= 1 && cfg.Nz / 2 >= 1
  {
  }

  /** One gather round of a 2-D driver: rank j holds table row ix, the pair
      (xs[j], zs[j]), and its moment vals[j] of order index p. The rows of one
      round are pairwise distinct, so the round sets exactly the cells (x, z, p)
      whose owner row is ix, each to the value of its owner rank. */
  method Round3(pl: Plane, ix: int, xs: seq<int>, zs: seq<int>, p: int, vals: seq<real>, grid: array3<real>)
    requires pl.Valid() && pl.Ny >= 2 && 0 <= ix < pl.ListSize()
    requires |xs| == pl.P && |zs| == pl.P && |vals| == pl.P
    requires forall j :: 0 <= j < pl.P ==> (xs[j], zs[j]) == Row(pl, j, ix)
    requires grid.Length0 == pl.Nx / 2 && grid.Length1 == pl.Ny / 2 && 0 <= p < grid.Length2
    modifies grid
    ensures forall a, b, d :: 0 <= a < grid.Length0 && 0 <= b < grid.Length1 && 0 <= d < grid.Length2 ==>
      grid[a, b, d] == if d == p && RowOwner(pl, a, b).1 == ix then vals[RowOwner(pl, a, b).0] else old(grid[a, b, d])
  {
    var X := Gather(xs);
    var Z := Gather(zs);
    var pArr := Gather(seq(pl.P, _ => p));
    var S := Gather(vals);
    forall j | 0 <= j < pl.P
      ensures 0 <= xs[j] < grid.Length0 && 0 <= zs[j] < grid.Length1
    {
      RowInBox(pl, j, ix);
    }
    Scatter3(grid, X, Z, pArr, S);
    forall a, b, d | 0 <= a < grid.Length0 && 0 <= b < grid.Length1 && 0 <= d < grid.Length2
      ensures grid[a, b, d] == if d == p && RowOwner(pl, a, b).1 == ix then vals[RowOwner(pl, a, b).0] else old(grid[a, b, d])
    {
      RoundCell3(pl, ix, xs, zs, p, vals, a, b, d, old(grid[a, b, d]));
    }
  }

  /** What one 2-D round leaves in cell (a, b, d) that held `prior`: the
      value of the owner rank of (a, b) when its owner row is ix and d == p,
      and `prior` otherwise. */
  lemma RoundCell3(pl: Plane, ix: int, xs: seq<int>, zs: seq<int>, p: int, vals: seq<real>, a: int, b: int, d: int, prior: real)
    requires pl.Valid() && pl.Ny >= 2 && 0 <= ix < pl.ListSize()
    requires |xs| == pl.P && |zs| == pl.P && |vals| == pl.P
    requires forall j :: 0 <= j < pl.P ==> (xs[j], zs[j]) == Row(pl, j, ix)
    requires 0 <= a < pl.Nx / 2 && 0 <= b < pl.Ny / 2
    ensures Scattered(Entries3(xs, zs, seq(pl.P, _ => p), vals), (a, b, d), prior) ==
      if d == p && RowOwner(pl, a, b).1 == ix then vals[RowOwner(pl, a, b).0] else prior
  {
    var e := Entries3(xs, zs, seq(pl.P, _ => p), vals);
    var o := RowOwner(pl, a, b);
    forall j | 0 <= j < pl.P
      ensures e[j].0 == (a, b, d) ==> j == o.0 && o.1 == ix && d == p
    {
      RowOwnerUnique(pl, j, ix);
    }
    if d == p && o.1 == ix {
      ScatteredHit(e, o.0, (a, b, d), prior);
    } else {
      ScatteredMiss(e, (a, b, d), prior);
    }
  }

  /** One gather round of a 3-D driver: rank j holds table row ix, the pair
      (xs[j], ys[j]), the common z and its moment vals[j] of order index p. The
      round sets exactly the cells (x, y, z, p) whose owner row is ix, each to
      the value of its owner rank. */
  method Round4(pl: Plane, ix: int, xs: seq<int>, ys: seq<int>, z: int, p: int, vals: seq<real>, grid: array4<real>)
    requires pl.Valid() && pl.Ny >= 2 && 0 <= ix < pl.ListSize()
    requires |xs| == pl.P && |ys| == pl.P && |vals| == pl.P
    requires forall j :: 0 <= j < pl.P ==> (xs[j], ys[j]) == Row(pl, j, ix)
    requires grid.Length0 == pl.Nx / 2 && grid.Length1 == pl.Ny / 2 && 0 <= z < grid.Length2 && 0 <= p < grid.Length3
    modifies grid
    ensures forall a, b, c, d :: 0 <= a < grid.Length0 && 0 <= b < grid.Length1 && 0 <= c < grid.Length2 && 0 <= d < grid.Length3 ==>
      grid[a, b, c, d] ==
        if c == z && d == p && RowOwner(pl, a, b).1 == ix then vals[RowOwner(pl, a, b).0] else old(grid[a, b, c, d])
  {
    var X := Gather(xs);
    var Y := Gather(ys);
    var Z := Gather(seq(pl.P, _ => z));
    var pArr := Gather(seq(pl.P, _ => p));
    var S := Gather(vals);
    forall j | 0 <= j < pl.P
      ensures 0 <= xs[j] < grid.Length0 && 0 <= ys[j] < grid.Length1
    {
      RowInBox(pl, j, ix);
    }
    Scatter4(grid, X, Y, Z, pArr, S);
    forall a, b, c, d | 0 <= a < grid.Length0 && 0 <= b < grid.Length1 && 0 <= c < grid.Length2 && 0 <= d < grid.Length3
      ensures grid[a, b, c, d] ==
        if c == z && d == p && RowOwner(pl, a, b).1 == ix then vals[RowOwner(pl, a, b).0] else old(grid[a, b, c, d])
    {
      RoundCell4(pl, ix, xs, ys, z, p, vals, a, b, c, d, old(grid[a, b, c, d]));
    }
  }

  /** What one 3-D round leaves in cell (a, b, c, d) that held `prior`: the
      value of the owner rank of (a, b) when its owner row is ix, c == z and
      d == p, and `prior` otherwise. */
  lemma RoundCell4(pl: Plane, ix: int, xs: seq<int>, ys: seq<int>, z: int, p: int, vals: seq<real>,
                   a: int, b: int, c: int, d: int, prior: real)
    requires pl.Valid() && pl.Ny >= 2 && 0 <= ix < pl.ListSize()
    requires |xs| == pl.P && |ys| == pl.P && |vals| == pl.P
    requires forall j :: 0 <= j < pl.P ==> (xs[j], ys[j]) == Row(pl, j, ix)
    requires 0 <= a < pl.Nx / 2 && 0 <= b < pl.Ny / 2
    ensures Scattered(Entries4(xs, ys, seq(pl.P, _ => z), seq(pl.P, _ => p), vals), (a, b, c, d), prior) ==
      if c == z && d == p && RowOwner(pl, a, b).1 == ix then vals[RowOwner(pl, a, b).0] else prior
  {
    var e := Entries4(xs, ys, seq(pl.P, _ => z), seq(pl.P, _ => p), vals);
    var o := RowOwner(pl, a, b);
    forall j | 0 <= j < pl.P
      ensures e[j].0 == (a, b, c, d) ==> j == o.0 && o.1 == ix && c == z && d == p
    {
      RowOwnerUnique(pl, j, ix);
    }
    if c == z && d == p && o.1 == ix {
      ScatteredHit(e, o.0, (a, b, c, d), prior);
    } else {
      ScatteredMiss(e, (a, b, c, d), prior);
    }
  }

  /** No two ranks of a 2-D round write the same cell, so (by
      `ScatterOrderIrrelevant`) the round's result does not depend on the
      order of the gather slots. */
  lemma RoundCellsDistinct3(pl: Plane, ix: int, xs: seq<int>, zs: seq<int>, p: int, vals: seq<real>)
    requires pl.Valid() && pl.Ny >= 2 && 0 <= ix < pl.ListSize()
    requires |xs| == pl.P && |zs| == pl.P && |vals| == pl.P
    requires forall j :: 0 <= j < pl.P ==> (xs[j], zs[j]) == Row(pl, j, ix)
    ensures DistinctCells(Entries3(xs, zs, seq(pl.P, _ => p), vals))
  {
    var e := Entries3(xs, zs, seq(pl.P, _ => p), vals);
    forall i, j | 0 <= i < |e| && 0 <= j < |e| && e[i].0 == e[j].0 ensures i == j {
      RowsDistinct(pl, i, ix, j, ix);
    }
  }

  /** No two ranks of a 3-D round write the same cell. */
  lemma RoundCellsDistinct4(pl: Plane, ix: int, xs: seq<int>, ys: seq<int>, z: int, p: int, vals: seq<real>)
    requires pl.Valid() && pl.Ny >= 2 && 0 <= ix < pl.ListSize()
    requires |xs| == pl.P && |ys| == pl.P && |vals| == pl.P
    requires forall j :: 0 <= j < pl.P ==> (xs[j], ys[j]) == Row(pl, j, ix)
    ensures DistinctCells(Entries4(xs, ys, seq(pl.P, _ => z), seq(pl.P, _ => p), vals))
  {
    var e := Entries4(xs, ys, seq(pl.P, _ => z), seq(pl.P, _ => p), vals);
    forall i, j | 0 <= i < |e| && 0 <= j < |e| && e[i].0 == e[j].0 ensures i == j {
      RowsDistinct(pl, i, ix, j, ix);
    }
  }

  /** Every rank's `x = index_list(ix, 0, rank_mpi)` and
      `y = index_list(ix, 1, rank_mpi)`: row ix of each rank's slice. */
  method RankRows(pl: Plane, table: array3<int>, ix: int) returns (xs: seq<int>, ys: seq<int>)
    requires pl.Valid() && pl.Ny >= 2 && 0 <= ix < pl.ListSize()
    requires table.Length0 == pl.ListSize() && table.Length1 == 2 && table.Length2 == pl.P
    requires forall r, k :: 0 <= r < pl.P && 0 <= k < pl.ListSize() ==>
      table[k, 0, r] == Row(pl, r, k).0 && table[k, 1, r] == Row(pl, r, k).1
    ensures |xs| == pl.P && |ys| == pl.P
    ensures forall j :: 0 <= j < pl.P ==> (xs[j], ys[j]) == Row(pl, j, ix)
    ensures forall j :: 0 <= j < pl.P ==> 0 <= xs[j] < pl.Nx / 2 && 0 <= ys[j] < pl.Ny / 2
  {
    xs, ys := [], [];
    for j := 0 to pl.P
      invariant |xs| == j && |ys| == j
      invariant forall i :: 0 <= i < j ==> (xs[i], ys[i]) == Row(pl, i, ix)
      invariant forall i :: 0 <= i < j ==> 0 <= xs[i] < pl.Nx / 2 && 0 <= ys[i] < pl.Ny / 2
    {
      RowInBox(pl, j, ix);
      xs, ys := xs + [table[ix, 0, j]], ys + [table[ix, 1, j]];
    }
  }

  // ---------------------------------------------------------------------
  // Values the drivers store

  /** `SF_scalar_2D`'s value for displacement (x, z) and order q. */
  function ScalarSF2(T: array2<real>, x: int, z: int, q: int): real
    reads T
    requires 0 <= x < T.Length0 && 0 <= z < T.Length1
  {
    MeanPow(DiffSeq2(T, x, z), q)
  }

  /** `SF_scalar_3D`'s value for displacement (x, y, z) and order q. */
  function ScalarSF3(T: array3<real>, x: int, y: int, z: int, q: int): real
    reads T
    requires 0 <= x < T.Length0 && 0 <= y < T.Length1 && 0 <= z < T.Length2
  {
    MeanPow(DiffSeq3(T, x, y, z), q)
  }

  /** The displacement vector (lx, 0, lz) = (x*dx, 0, z*dz) of a 2-D field. */
  function Displacement2(cfg: Config, x: int, z: int): Vec
  {
    Vec(x as real * cfg.dx, 0.0, z as real * cfg.dz)
  }

  /** The displacement vector (lx, ly, lz) = (x*dx, y*dy, z*dz). */
  function Displacement3(cfg: Config, x: int, y: int, z: int): Vec
  {
    Vec(x as real * cfg.dx, y as real * cfg.dy, z as real * cfg.dz)
  }

  /** The velocity increments (dUx, dUz) of a 2-D field over the overlap of (x, z). */
  function Incr2(Ux: array2<real>, Uz: array2<real>, x: int, z: int): seq<Vec>
    reads Ux, Uz
    requires Uz.Length0 == Ux.Length0 && Uz.Length1 == Ux.Length1
    requires 0 <= x < Ux.Length0 && 0 <= z < Ux.Length1
  {
    Increments2(DiffSeq2(Ux, x, z), DiffSeq2(Uz, x, z))
  }

  /** The velocity increments (dUx, dUy, dUz) of a 3-D field over the overlap of (x, y, z). */
  function Incr3(Ux: array3<real>, Uy: array3<real>, Uz: array3<real>, x: int, y: int, z: int): seq<Vec>
    reads Ux, Uy, Uz
    requires Uy.Length0 == Ux.Length0 && Uy.Length1 == Ux.Length1 && Uy.Length2 == Ux.Length2
    requires Uz.Length0 == Ux.Length0 && Uz.Length1 == Ux.Length1 && Uz.Length2 == Ux.Length2
    requires 0 <= x < Ux.Length0 && 0 <= y < Ux.Length1 && 0 <= z < Ux.Length2
  {
    OverlapCount3(Ux, x, y, z);
    OverlapCount3(Uy, x, y, z);
    OverlapCount3(Uz, x, y, z);
    Increments3(DiffSeq3(Ux, x, y, z), DiffSeq3(Uy, x, y, z), DiffSeq3(Uz, x, y, z))
  }

  /** `dUpll` of a 2-D field for displacement (x, z), with r = root(lx*lx + lz*lz). */
  function PllSamples2(cfg: Config, root: real -> real, Ux: array2<real>, Uz: array2<real>, x: int, z: int): seq<real>
    reads Ux, Uz
    requires Uz.Length0 == Ux.Length0 && Uz.Length1 == Ux.Length1
    requires 0 <= x < Ux.Length0 && 0 <= z < Ux.Length1
  {
    var l := Displacement2(cfg, x, z);
    PllSeq(Incr2(Ux, Uz, x, z), l, root(Dot(l, l)))
  }

  /** The transverse magnitudes of a 2-D field for displacement (x, z). */
  function PerpSamples2(cfg: Config, root: real -> real, Ux: array2<real>, Uz: array2<real>, x: int, z: int): seq<real>
    reads Ux, Uz
    requires Uz.Length0 == Ux.Length0 && Uz.Length1 == Ux.Length1
    requires 0 <= x < Ux.Length0 && 0 <= z < Ux.Length1
  {
    var l := Displacement2(cfg, x, z);
    PerpSeq(Incr2(Ux, Uz, x, z), l, root(Dot(l, l)), root)
  }

  /** `dUpll` of a 3-D field for displacement (x, y, z), with r = root(lx*lx + ly*ly + lz*lz). */
  function PllSamples3(cfg: Config, root: real -> real, Ux: array3<real>, Uy: array3<real>, Uz: array3<real>,
                       x: int, y: int, z: int): seq<real>
    reads Ux, Uy, Uz
    requires Uy.Length0 == Ux.Length0 && Uy.Length1 == Ux.Length1 && Uy.Length2 == Ux.Length2
    requires Uz.Length0 == Ux.Length0 && Uz.Length1 == Ux.Length1 && Uz.Length2 == Ux.Length2
    requires 0 <= x < Ux.Length0 && 0 <= y < Ux.Length1 && 0 <= z < Ux.Length2
  {
    var l := Displacement3(cfg, x, y, z);
    PllSeq(Incr3(Ux, Uy, Uz, x, y, z), l, root(Dot(l, l)))
  }

  /** The transverse magnitudes of a 3-D field for displacement (x, y, z). */
  function PerpSamples3(cfg: Config, root: real -> real, Ux: array3<real>, Uy: array3<real>, Uz: array3<real>,
                        x: int, y: int, z: int): seq<real>
    reads Ux, Uy, Uz
    requires Uy.Length0 == Ux.Length0 && Uy.Length1 == Ux.Length1 && Uy.Length2 == Ux.Length2
    requires Uz.Length0 == Ux.Length0 && Uz.Length1 == Ux.Length1 && Uz.Length2 == Ux.Length2
    requires 0 <= x < Ux.Length0 && 0 <= y < Ux.Length1 && 0 <= z < Ux.Length2
  {
    var l := Displacement3(cfg, x, y, z);
    PerpSeq(Incr3(Ux, Uy, Uz, x, y, z), l, root(Dot(l, l)), root)
  }

  // ---------------------------------------------------------------------
  // The drivers. Each is split into the work of one table row (2-D) or one
  // (table row, z) pair (3-D), which every rank performs in lock-step, and
  // the outer loop over rows.

  /** `SF_scalar_2D` for table row ix: every rank cuts the difference field of
      its displacement, then one gather round per order. Exactly the cells whose
      owner row is ix are set. */
  method ScalarRow2(cfg: Config, table: array3<int>, ix: int, T: array2<real>, grid: array3<real>) returns (ghost rounds: int)
    requires cfg.Valid2D() && 0 <= ix < cfg.Plane2().ListSize()
    requires table.Length0 == cfg.Plane2().ListSize() && table.Length1 == 2 && table.Length2 == cfg.P
    requires forall r, k :: 0 <= r < cfg.P && 0 <= k < cfg.Plane2().ListSize() ==>
      table[k, 0, r] == Row(cfg.Plane2(), r, k).0 && table[k, 1, r] == Row(cfg.Plane2(), r, k).1
    requires T.Length0 == cfg.Nx && T.Length1 == cfg.Nz
    requires grid.Length0 == cfg.Nx / 2 && grid.Length1 == cfg.Nz / 2 && grid.Length2 == cfg.Orders()
    modifies grid
    ensures rounds == cfg.Orders()
    ensures forall a, b, d :: 0 <= a < cfg.Nx / 2 && 0 <= b < cfg.Nz / 2 && 0 <= d < cfg.Orders() ==>
      grid[a, b, d] == if RowOwner(cfg.Plane2(), a, b).1 == ix then ScalarSF2(T, a, b, cfg.q1 + d) else old(grid[a, b, d])
  {
    var pl := cfg.Plane2();
    var xs, zs := RankRows(pl, table, ix);
    var diffs: seq<seq<real>> := [];
    for j := 0 to cfg.P
      modifies {}
      invariant |diffs| == j
      invariant forall i :: 0 <= i < j ==> diffs[i] == DiffSeq2(T, xs[i], zs[i])
    {
      var dT := Diff2D(T, xs[j], zs[j]);
      diffs := diffs + [Flatten2(dT)];
    }
    rounds := 0;
    for p := 0 to cfg.Orders()
      invariant rounds == p
      invariant forall a, b, d :: 0 <= a < cfg.Nx / 2 && 0 <= b < cfg.Nz / 2 && 0 <= d < cfg.Orders() ==>
        grid[a, b, d] == if RowOwner(pl, a, b).1 == ix && d < p then ScalarSF2(T, a, b, cfg.q1 + d) else old(grid[a, b, d])
    {
      var vals := seq(cfg.P, j requires 0 <= j < cfg.P => MeanPow(diffs[j], cfg.q1 + p));
      Round3(pl, ix, xs, zs, p, vals, grid);
      rounds := rounds + 1;
    }
  }

  /** `SF_scalar_2D`: every rank runs `p_per_proc * (q2-q1+1)` rounds, and
      afterwards every cell of the (Nx/2, Nz/2, q2-q1+1) grid other than the
      zero displacement holds the q-th moment of its difference field. */
  method SFScalar2D(cfg: Config, T: array2<real>, grid: array3<real>) returns (ghost rounds: int)
    requires cfg.Valid2D()
    requires T.Length0 == cfg.Nx && T.Length1 == cfg.Nz
    requires grid.Length0 == cfg.Nx / 2 && grid.Length1 == cfg.Nz / 2 && grid.Length2 == cfg.Orders()
    modifies grid
    ensures rounds == cfg.Plane2().ListSize() * cfg.Orders()
    ensures forall a, b, d :: 0 <= a < cfg.Nx / 2 && 0 <= b < cfg.Nz / 2 && 0 <= d < cfg.Orders() ==>
      grid[a, b, d] == if a == 0 && b == 0 then 0.0 else ScalarSF2(T, a, b, cfg.q1 + d)
  {
    var pl := cfg.Plane2();
    var pPerProc := cfg.Nx * cfg.Nz / (4 * cfg.P);
    var table := BuildTable(pl);
    rounds := 0;
    for ix := 0 to pPerProc
      modifies grid
      invariant rounds == ix * cfg.Orders()
      invariant forall a, b, d :: 0 <= a < cfg.Nx / 2 && 0 <= b < cfg.Nz / 2 && 0 <= d < cfg.Orders() ==>
        grid[a, b, d] == if RowOwner(pl, a, b).1 < ix then ScalarSF2(T, a, b, cfg.q1 + d) else old(grid[a, b, d])
    {
      ghost var n := ScalarRow2(cfg, table, ix, T, grid);
      rounds := rounds + n;
    }
    ZeroOrigin3(grid);
  }

  /** `SF_scalar_3D` for table row ix and z: every rank cuts the difference
      field of its displacement (x, y, z), then one gather round per order.
      Exactly the cells at z whose owner row is ix are set. */
  method ScalarSlab3(cfg: Config, table: array3<int>, ix: int, z: int, T: array3<real>, grid: array4<real>) returns (ghost rounds: int)
    requires cfg.Valid3D() && 0 <= ix < cfg.Plane3().ListSize() && 0 <= z < cfg.Nz / 2
    requires table.Length0 == cfg.Plane3().ListSize() && table.Length1 == 2 && table.Length2 == cfg.P
    requires forall r, k :: 0 <= r < cfg.P && 0 <= k < cfg.Plane3().ListSize() ==>
      table[k, 0, r] == Row(cfg.Plane3(), r, k).0 && table[k, 1, r] == Row(cfg.Plane3(), r, k).1
    requires T.Length0 == cfg.Nx && T.Length1 == cfg.Ny && T.Length2 == cfg.Nz
    requires grid.Length0 == cfg.Nx / 2 && grid.Length1 == cfg.Ny / 2 && grid.Length2 == cfg.Nz / 2 && grid.Length3 == cfg.Orders()
    modifies grid
    ensures rounds == cfg.Orders()
    ensures forall a, b, c, d :: 0 <= a < cfg.Nx / 2 && 0 <= b < cfg.Ny / 2 && 0 <= c < cfg.Nz / 2 && 0 <= d < cfg.Orders() ==>
      grid[a, b, c, d] ==
        if c == z && RowOwner(cfg.Plane3(), a, b).1 == ix then ScalarSF3(T, a, b, c, cfg.q1 + d) else old(grid[a, b, c, d])
  {
    var pl := cfg.Plane3();
    var xs, ys := RankRows(pl, table, ix);
    var diffs: seq<seq<real>> := [];
    for j := 0 to cfg.P
      modifies {}
      invariant |diffs| == j
      invariant forall i :: 0 <= i < j ==> diffs[i] == DiffSeq3(T, xs[i], ys[i], z)
    {
      var dT := Diff3D(T, xs[j], ys[j], z);
      diffs := diffs + [Flatten3(dT)];
    }
    rounds := 0;
    for p := 0 to cfg.Orders()
      invariant rounds == p
      invariant forall a, b, c, d :: 0 <= a < cfg.Nx / 2 && 0 <= b < cfg.Ny / 2 && 0 <= c < cfg.Nz / 2 && 0 <= d < cfg.Orders() ==>
        grid[a, b, c, d] ==
          if c == z && RowOwner(pl, a, b).1 == ix && d < p then ScalarSF3(T, a, b, c, cfg.q1 + d) else old(grid[a, b, c, d])
    {
      var vals := seq(cfg.P, j requires 0 <= j < cfg.P => MeanPow(diffs[j], cfg.q1 + p));
      Round4(pl, ix, xs, ys, z, p, vals, grid);
      rounds := rounds + 1;
    }
  }

  /** `SF_scalar_3D` for table row ix: one slab per z in [0, Nz/2), so exactly
      the cells whose owner row is ix are set, at every z. */
  method ScalarRow3(cfg: Config, table: array3<int>, ix: int, T: array3<real>, grid: array4<real>) returns (ghost rounds: int)
    requires cfg.Valid3D() && 0 <= ix < cfg.Plane3().ListSize()
    requires table.Length0 == cfg.Plane3().ListSize() && table.Length1 == 2 && table.Length2 == cfg.P
    requires forall r, k :: 0 <= r < cfg.P && 0 <= k < cfg.Plane3().ListSize() ==>
      table[k, 0, r] == Row(cfg.Plane3(), r, k).0 && table[k, 1, r] == Row(cfg.Plane3(), r, k).1
    requires T.Length0 == cfg.Nx && T.Length1 == cfg.Ny && T.Length2 == cfg.Nz
    requires grid.Length0 == cfg.Nx / 2 && grid.Length1 == cfg.Ny / 2 && grid.Length2 == cfg.Nz / 2 && grid.Length3 == cfg.Orders()
    modifies grid
    ensures rounds == (cfg.Nz / 2) * cfg.Orders()
    ensures forall a, b, c, d :: 0 <= a < cfg.Nx / 2 && 0 <= b < cfg.Ny / 2 && 0 <= c < cfg.Nz / 2 && 0 <= d < cfg.Orders() ==>
      grid[a, b, c, d] == if RowOwner(cfg.Plane3(), a, b).1 == ix then ScalarSF3(T, a, b, c, cfg.q1 + d) else old(grid[a, b, c, d])
  {
    var pl := cfg.Plane3();
    rounds := 0;
    for z := 0 to cfg.Nz / 2
      invariant rounds == z * cfg.Orders()
      invariant forall a, b, c, d :: 0 <= a < cfg.Nx / 2 && 0 <= b < cfg.Ny / 2 && 0 <= c < cfg.Nz / 2 && 0 <= d < cfg.Orders() ==>
        grid[a, b, c, d] == if RowOwner(pl, a, b).1 == ix && c < z then ScalarSF3(T, a, b, c, cfg.q1 + d) else old(grid[a, b, c, d])
    {
      ghost var n := ScalarSlab3(cfg, table, ix, z, T, grid);
      rounds := rounds + n;
    }
  }

  /** `SF_scalar_3D`: every rank runs `c_per_proc * (Nz/2) * (q2-q1+1)` rounds,
      and afterwards every cell of the (Nx/2, Ny/2, Nz/2, q2-q1+1) grid other
      than the zero displacement holds the q-th moment of its difference field. */
  method SFScalar3D(cfg: Config, T: array3<real>, grid: array4<real>) returns (ghost rounds: int)
    requires cfg.Valid3D()
    requires T.Length0 == cfg.Nx && T.Length1 == cfg.Ny && T.Length2 == cfg.Nz
    requires grid.Length0 == cfg.Nx / 2 && grid.Length1 == cfg.Ny / 2 && grid.Length2 == cfg.Nz / 2 && grid.Length3 == cfg.Orders()
    modifies grid
    ensures rounds == cfg.Plane3().ListSize() * (cfg.Nz / 2) * cfg.Orders()
    ensures forall a, b, c, d :: 0 <= a < cfg.Nx / 2 && 0 <= b < cfg.Ny / 2 && 0 <= c < cfg.Nz / 2 && 0 <= d < cfg.Orders() ==>
      grid[a, b, c, d] == if a == 0 && b == 0 && c == 0 then 0.0 else ScalarSF3(T, a, b, c, cfg.q1 + d)
  {
    var pl := cfg.Plane3();
    var cPerProc := cfg.Nx * cfg.Ny / (4 * cfg.P);
    var table := BuildTable(pl);
    rounds := 0;
    for ix := 0 to cPerProc
      modifies grid
      invariant rounds == ix * (cfg.Nz / 2) * cfg.Orders()
      invariant forall a, b, c, d :: 0 <= a < cfg.Nx / 2 && 0 <= b < cfg.Ny / 2 && 0 <= c < cfg.Nz / 2 && 0 <= d < cfg.Orders() ==>
        grid[a, b, c, d] == if RowOwner(pl, a, b).1 < ix then ScalarSF3(T, a, b, c, cfg.q1 + d) else old(grid[a, b, c, d])
    {
      ghost var n := ScalarRow3(cfg, table, ix, T, grid);
      rounds := rounds + n;
    }
    ZeroOrigin4(grid);
  }

  /** `dUx`, `dUz` of a 2-D velocity field for displacement (x, z), bundled into increments. */
  method CutIncrements2(Ux: array2<real>, Uz: array2<real>, x: int, z: int) returns (du: seq<Vec>)
    requires Uz.Length0 == Ux.Length0 && Uz.Length1 == Ux.Length1
    requires 0 <= x < Ux.Length0 && 0 <= z < Ux.Length1
    ensures du == Incr2(Ux, Uz, x, z)
  {
    var dUx := Diff2D(Ux, x, z);
    var dUz := Diff2D(Uz, x, z);
    du := Increments2(Flatten2(dUx), Flatten2(dUz));
  }

  /** `dUx`, `dUy`, `dUz` of a 3-D velocity field for displacement (x, y, z), bundled into increments. */
  method CutIncrements3(Ux: array3<real>, Uy: array3<real>, Uz: array3<real>, x: int, y: int, z: int) returns (du: seq<Vec>)
    requires Uy.Length0 == Ux.Length0 && Uy.Length1 == Ux.Length1 && Uy.Length2 == Ux.Length2
    requires Uz.Length0 == Ux.Length0 && Uz.Length1 == Ux.Length1 && Uz.Length2 == Ux.Length2
    requires 0 <= x < Ux.Length0 && 0 <= y < Ux.Length1 && 0 <= z < Ux.Length2
    ensures du == Incr3(Ux, Uy, Uz, x, y, z)
  {
    var dUx := Diff3D(Ux, x, y, z);
    var dUy := Diff3D(Uy, x, y, z);
    var dUz := Diff3D(Uz, x, y, z);
    du := Increments3(Flatten3(dUx), Flatten3(dUy), Flatten3(dUz));
  }

  /** Every rank's `dUpll` and transverse magnitudes for its displacement
      (xs[j], zs[j]): the increments are cut once and split both ways. */
  method SplitRanks2(cfg: Config, root: real -> real, Ux: array2<real>, Uz: array2<real>, xs: seq<int>, zs: seq<int>)
    returns (pllS: seq<seq<real>>, perpS: seq<seq<real>>)
    requires Uz.Length0 == Ux.Length0 && Uz.Length1 == Ux.Length1
    requires |xs| == |zs|
    requires forall j :: 0 <= j < |xs| ==> 0 <= xs[j] < Ux.Length0 && 0 <= zs[j] < Ux.Length1
    ensures |pllS| == |xs| && |perpS| == |xs|
    ensures forall j :: 0 <= j < |xs| ==> pllS[j] == PllSamples2(cfg, root, Ux, Uz, xs[j], zs[j])
    ensures forall j :: 0 <= j < |xs| ==> perpS[j] == PerpSamples2(cfg, root, Ux, Uz, xs[j], zs[j])
  {
    pllS, perpS := [], [];
    for j := 0 to |xs|
      invariant |pllS| == j && |perpS| == j
      invariant forall i :: 0 <= i < j ==> pllS[i] == PllSamples2(cfg, root, Ux, Uz, xs[i], zs[i])
      invariant forall i :: 0 <= i < j ==> perpS[i] == PerpSamples2(cfg, root, Ux, Uz, xs[i], zs[i])
    {
      var du := CutIncrements2(Ux, Uz, xs[j], zs[j]);
      var l := Displacement2(cfg, xs[j], zs[j]);
      var r := root(Dot(l, l));
      pllS := pllS + [PllSeq(du, l, r)];
      perpS := perpS + [PerpSeq(du, l, r, root)];
    }
  }

  /** Every rank's `dUpll` for its displacement (xs[j], zs[j]). */
  method PllRanks2(cfg: Config, root: real -> real, Ux: array2<real>, Uz: array2<real>, xs: seq<int>, zs: seq<int>)
    returns (pllS: seq<seq<real>>)
    requires Uz.Length0 == Ux.Length0 && Uz.Length1 == Ux.Length1
    requires |xs| == |zs|
    requires forall j :: 0 <= j < |xs| ==> 0 <= xs[j] < Ux.Length0 && 0 <= zs[j] < Ux.Length1
    ensures |pllS| == |xs|
    ensures forall j :: 0 <= j < |xs| ==> pllS[j] == PllSamples2(cfg, root, Ux, Uz, xs[j], zs[j])
  {
    pllS := [];
    for j := 0 to |xs|
      invariant |pllS| == j
      invariant forall i :: 0 <= i < j ==> pllS[i] == PllSamples2(cfg, root, Ux, Uz, xs[i], zs[i])
    {
      var du := CutIncrements2(Ux, Uz, xs[j], zs[j]);
      var l := Displacement2(cfg, xs[j], zs[j]);
      pllS := pllS + [PllSeq(du, l, root(Dot(l, l)))];
    }
  }

  /** Every rank's `dUpll` and transverse magnitudes for its displacement (xs[j], ys[j], z). */
  method SplitRanks3(cfg: Config, root: real -> real, Ux: array3<real>, Uy: array3<real>, Uz: array3<real>,
                     xs: seq<int>, ys: seq<int>, z: int)
    returns (pllS: seq<seq<real>>, perpS: seq<seq<real>>)
    requires Uy.Length0 == Ux.Length0 && Uy.Length1 == Ux.Length1 && Uy.Length2 == Ux.Length2
    requires Uz.Length0 == Ux.Length0 && Uz.Length1 == Ux.Length1 && Uz.Length2 == Ux.Length2
    requires |xs| == |ys| && 0 <= z < Ux.Length2
    requires forall j :: 0 <= j < |xs| ==> 0 <= xs[j] < Ux.Length0 && 0 <= ys[j] < Ux.Length1
    ensures |pllS| == |xs| && |perpS| == |xs|
    ensures forall j :: 0 <= j < |xs| ==> pllS[j] == PllSamples3(cfg, root, Ux, Uy, Uz, xs[j], ys[j], z)
    ensures forall j :: 0 <= j < |xs| ==> perpS[j] == PerpSamples3(cfg, root, Ux, Uy, Uz, xs[j], ys[j], z)
  {
    pllS, perpS := [], [];
    for j := 0 to |xs|
      invariant |pllS| == j && |perpS| == j
      invariant forall i :: 0 <= i < j ==> pllS[i] == PllSamples3(cfg, root, Ux, Uy, Uz, xs[i], ys[i], z)
      invariant forall i :: 0 <= i < j ==> perpS[i] == PerpSamples3(cfg, root, Ux, Uy, Uz, xs[i], ys[i], z)
    {
      var du := CutIncrements3(Ux, Uy, Uz, xs[j], ys[j], z);
      var l := Displacement3(cfg, xs[j], ys[j], z);
      var r := root(Dot(l, l));
      pllS := pllS + [PllSeq(du, l, r)];
      perpS := perpS + [PerpSeq(du, l, r, root)];
    }
  }

  /** Every rank's `dUpll` for its displacement (xs[j], ys[j], z). */
  method PllRanks3(cfg: Config, root: real -> real, Ux: array3<real>, Uy: array3<real>, Uz: array3<real>,
                   xs: seq<int>, ys: seq<int>, z: int)
    returns (pllS: seq<seq<real>>)
    requires Uy.Length0 == Ux.Length0 && Uy.Length1 == Ux.Length1 && Uy.Length2 == Ux.Length2
    requires Uz.Length0 == Ux.Length0 && Uz.Length1 == Ux.Length1 && Uz.Length2 == Ux.Length2
    requires |xs| == |ys| && 0 <= z < Ux.Length2
    requires forall j :: 0 <= j < |xs| ==> 0 <= xs[j] < Ux.Length0 && 0 <= ys[j] < Ux.Length1
    ensures |pllS| == |xs|
    ensures forall j :: 0 <= j < |xs| ==> pllS[j] == PllSamples3(cfg, root, Ux, Uy, Uz, xs[j], ys[j], z)
  {
    pllS := [];
    for j := 0 to |xs|
      invariant |pllS| == j
      invariant forall i :: 0 <= i < j ==> pllS[i] == PllSamples3(cfg, root, Ux, Uy, Uz, xs[i], ys[i], z)
    {
      var du := CutIncrements3(Ux, Uy, Uz, xs[j], ys[j], z);
      var l := Displacement3(cfg, xs[j], ys[j], z);
      pllS := pllS + [PllSeq(du, l, root(Dot(l, l)))];
    }
  }

  /** `SFunc2D`'s longitudinal moment for displacement (x, z) and order q. */
  function PllSF2(cfg: Config, root: real -> real, Ux: array2<real>, Uz: array2<real>, x: int, z: int, q: int): real
    reads Ux, Uz
    requires Uz.Length0 == Ux.Length0 && Uz.Length1 == Ux.Length1
    requires 0 <= x < Ux.Length0 && 0 <= z < Ux.Length1
  {
    MeanPow(PllSamples2(cfg, root, Ux, Uz, x, z), q)
  }

  /** `SFunc2D`'s transverse moment for displacement (x, z) and order q. */
  function PerpSF2(cfg: Config, root: real -> real, Ux: array2<real>, Uz: array2<real>, x: int, z: int, q: int): real
    reads Ux, Uz
    requires Uz.Length0 == Ux.Length0 && Uz.Length1 == Ux.Length1
    requires 0 <= x < Ux.Length0 && 0 <= z < Ux.Length1
  {
    MeanPow(PerpSamples2(cfg, root, Ux, Uz, x, z), q)
  }

  /** `SFunc3D`'s longitudinal moment for displacement (x, y, z) and order q. */
  function PllSF3(cfg: Config, root: real -> real, Ux: array3<real>, Uy: array3<real>, Uz: array3<real>,
                  x: int, y: int, z: int, q: int): real
    reads Ux, Uy, Uz
    requires Uy.Length0 == Ux.Length0 && Uy.Length1 == Ux.Length1 && Uy.Length2 == Ux.Length2
    requires Uz.Length0 == Ux.Length0 && Uz.Length1 == Ux.Length1 && Uz.Length2 == Ux.Length2
    requires 0 <= x < Ux.Length0 && 0 <= y < Ux.Length1 && 0 <= z < Ux.Length2
  {
    MeanPow(PllSamples3(cfg, root, Ux, Uy, Uz, x, y, z), q)
  }

  /** `SFunc3D`'s transverse moment for displacement (x, y, z) and order q. */
  function PerpSF3(cfg: Config, root: real -> real, Ux: array3<real>, Uy: array3<real>, Uz: array3<real>,
                   x: int, y: int, z: int, q: int): real
    reads Ux, Uy, Uz
    requires Uy.Length0 == Ux.Length0 && Uy.Length1 == Ux.Length1 && Uy.Length2 == Ux.Length2
    requires Uz.Length0 == Ux.Length0 && Uz.Length1 == Ux.Length1 && Uz.Length2 == Ux.Length2
    requires 0 <= x < Ux.Length0 && 0 <= y < Ux.Length1 && 0 <= z < Ux.Length2
  {
    MeanPow(PerpSamples3(cfg, root, Ux, Uy, Uz, x, y, z), q)
  }

  /** One order p of the 2-D longitudinal moment for table row ix: every rank's value lands in the cell it owns. */
  method PllRound2(cfg: Config, root: real -> real, ix: int, xs: seq<int>, zs: seq<int>,
      S: seq<seq<real>>, p: int, Ux: array2<real>, Uz: array2<real>, grid: array3<real>)
    requires cfg.Valid2D() && 0 <= ix < cfg.Plane2().ListSize() && 0 <= p < cfg.Orders()
    requires |xs| == cfg.P && |zs| == cfg.P && |S| == cfg.P
    requires forall j :: 0 <= j < cfg.P ==> (xs[j], zs[j]) == Row(cfg.Plane2(), j, ix)
    requires forall j :: 0 <= j < cfg.P ==> 0 <= xs[j] < cfg.Nx / 2 && 0 <= zs[j] < cfg.Nz / 2
    requires Ux.Length0 == cfg.Nx && Ux.Length1 == cfg.Nz
    requires Uz.Length0 == cfg.Nx && Uz.Length1 == cfg.Nz
    requires forall j :: 0 <= j < cfg.P ==> S[j] == PllSamples2(cfg, root, Ux, Uz, xs[j], zs[j])
    requires grid.Length0 == cfg.Nx / 2 && grid.Length1 == cfg.Nz / 2 && grid.Length2 == cfg.Orders()
    modifies grid
    ensures forall a, b, d :: 0 <= a < cfg.Nx / 2 && 0 <= b < cfg.Nz / 2 && 0 <= d < cfg.Orders() ==>
      grid[a, b, d] == if d == p && RowOwner(cfg.Plane2(), a, b).1 == ix then PllSF2(cfg, root, Ux, Uz, a, b, cfg.q1 + d) else old(grid[a, b, d])
  {
    var pl := cfg.Plane2();
    var vals := seq(cfg.P, j requires 0 <= j < cfg.P => MeanPow(S[j], cfg.q1 + p));
    Round3(pl, ix, xs, zs, p, vals, grid);
    forall a, b | 0 <= a < cfg.Nx / 2 && 0 <= b < cfg.Nz / 2 && RowOwner(pl, a, b).1 == ix
      ensures vals[RowOwner(pl, a, b).0] == PllSF2(cfg, root, Ux, Uz, a, b, cfg.q1 + p)
    {
      var o := RowOwner(pl, a, b);
      assert (xs[o.0], zs[o.0]) == (a, b);
    }
  }

  /** One order p of the 2-D transverse moment for table row ix. */
  method PerpRound2(cfg: Config, root: real -> real, ix: int, xs: seq<int>, zs: seq<int>,
      S: seq<seq<real>>, p: int, Ux: array2<real>, Uz: array2<real>, grid: array3<real>)
    requires cfg.Valid2D() && 0 <= ix < cfg.Plane2().ListSize() && 0 <= p < cfg.Orders()
    requires |xs| == cfg.P && |zs| == cfg.P && |S| == cfg.P
    requires forall j :: 0 <= j < cfg.P ==> (xs[j], zs[j]) == Row(cfg.Plane2(), j, ix)
    requires forall j :: 0 <= j < cfg.P ==> 0 <= xs[j] < cfg.Nx / 2 && 0 <= zs[j] < cfg.Nz / 2
    requires Ux.Length0 == cfg.Nx && Ux.Length1 == cfg.Nz
    requires Uz.Length0 == cfg.Nx && Uz.Length1 == cfg.Nz
    requires forall j :: 0 <= j < cfg.P ==> S[j] == PerpSamples2(cfg, root, Ux, Uz, xs[j], zs[j])
    requires grid.Length0 == cfg.Nx / 2 && grid.Length1 == cfg.Nz / 2 && grid.Length2 == cfg.Orders()
    modifies grid
    ensures forall a, b, d :: 0 <= a < cfg.Nx / 2 && 0 <= b < cfg.Nz / 2 && 0 <= d < cfg.Orders() ==>
      grid[a, b, d] == if d == p && RowOwner(cfg.Plane2(), a, b).1 == ix then PerpSF2(cfg, root, Ux, Uz, a, b, cfg.q1 + d) else old(grid[a, b, d])
  {
    var pl := cfg.Plane2();
    var vals := seq(cfg.P, j requires 0 <= j < cfg.P => MeanPow(S[j], cfg.q1 + p));
    Round3(pl, ix, xs, zs, p, vals, grid);
    forall a, b | 0 <= a < cfg.Nx / 2 && 0 <= b < cfg.Nz / 2 && RowOwner(pl, a, b).1 == ix
      ensures vals[RowOwner(pl, a, b).0] == PerpSF2(cfg, root, Ux, Uz, a, b, cfg.q1 + p)
    {
      var o := RowOwner(pl, a, b);
      assert (xs[o.0], zs[o.0]) == (a, b);
    }
  }

  /** One order p of the 3-D longitudinal moment for table row ix and z-displacement z. */
  method PllRound3(cfg: Config, root: real -> real, ix: int, xs: seq<int>, ys: seq<int>, z: int,
      S: seq<seq<real>>, p: int, Ux: array3<real>, Uy: array3<real>, Uz: array3<real>, grid: array4<real>)
    requires cfg.Valid3D() && 0 <= ix < cfg.Plane3().ListSize() && 0 <= z < cfg.Nz / 2 && 0 <= p < cfg.Orders()
    requires |xs| == cfg.P && |ys| == cfg.P && |S| == cfg.P
    requires forall j :: 0 <= j < cfg.P ==> (xs[j], ys[j]) == Row(cfg.Plane3(), j, ix)
    requires forall j :: 0 <= j < cfg.P ==> 0 <= xs[j] < cfg.Nx / 2 && 0 <= ys[j] < cfg.Ny / 2
    requires Ux.Length0 == cfg.Nx && Ux.Length1 == cfg.Ny && Ux.Length2 == cfg.Nz
    requires Uy.Length0 == cfg.Nx && Uy.Length1 == cfg.Ny && Uy.Length2 == cfg.Nz
    requires Uz.Length0 == cfg.Nx && Uz.Length1 == cfg.Ny && Uz.Length2 == cfg.Nz
    requires forall j :: 0 <= j < cfg.P ==> S[j] == PllSamples3(cfg, root, Ux, Uy, Uz, xs[j], ys[j], z)
    requires grid.Length0 == cfg.Nx / 2 && grid.Length1 == cfg.Ny / 2 && grid.Length2 == cfg.Nz / 2 && grid.Length3 == cfg.Orders()
    modifies grid
    ensures forall a, b, c, d :: 0 <= a < cfg.Nx / 2 && 0 <= b < cfg.Ny / 2 && 0 <= c < cfg.Nz / 2 && 0 <= d < cfg.Orders() ==>
      grid[a, b, c, d] == if c == z && d == p && RowOwner(cfg.Plane3(), a, b).1 == ix then PllSF3(cfg, root, Ux, Uy, Uz, a, b, c, cfg.q1 + d) else old(grid[a, b, c, d])
  {
    var pl := cfg.Plane3();
    var vals := seq(cfg.P, j requires 0 <= j < cfg.P => MeanPow(S[j], cfg.q1 + p));
    Round4(pl, ix, xs, ys, z, p, vals, grid);
    forall a, b | 0 <= a < cfg.Nx / 2 && 0 <= b < cfg.Ny / 2 && RowOwner(pl, a, b).1 == ix
      ensures vals[RowOwner(pl, a, b).0] == PllSF3(cfg, root, Ux, Uy, Uz, a, b, z, cfg.q1 + p)
    {
      var o := RowOwner(pl, a, b);
      assert (xs[o.0], ys[o.0]) == (a, b);
    }
  }

  /** One order p of the 3-D transverse moment for table row ix and z-displacement z. */
  method PerpRound3(cfg: Config, root: real -> real, ix: int, xs: seq<int>, ys: seq<int>, z: int,
      S: seq<seq<real>>, p: int, Ux: array3<real>, Uy: array3<real>, Uz: array3<real>, grid: array4<real>)
    requires cfg.Valid3D() && 0 <= ix < cfg.Plane3().ListSize() && 0 <= z < cfg.Nz / 2 && 0 <= p < cfg.Orders()
    requires |xs| == cfg.P && |ys| == cfg.P && |S| == cfg.P
    requires forall j :: 0 <= j < cfg.P ==> (xs[j], ys[j]) == Row(cfg.Plane3(), j, ix)
    requires forall j :: 0 <= j < cfg.P ==> 0 <= xs[j] < cfg.Nx / 2 && 0 <= ys[j] < cfg.Ny / 2
    requires Ux.Length0 == cfg.Nx && Ux.Length1 == cfg.Ny && Ux.Length2 == cfg.Nz
    requires Uy.Length0 == cfg.Nx && Uy.Length1 == cfg.Ny && Uy.Length2 == cfg.Nz
    requires Uz.Length0 == cfg.Nx && Uz.Length1 == cfg.Ny && Uz.Length2 == cfg.Nz
    requires forall j :: 0 <= j < cfg.P ==> S[j] == PerpSamples3(cfg, root, Ux, Uy, Uz, xs[j], ys[j], z)
    requires grid.Length0 == cfg.Nx / 2 && grid.Length1 == cfg.Ny / 2 && grid.Length2 == cfg.Nz / 2 && grid.Length3 == cfg.Orders()
    modifies grid
    ensures forall a, b, c, d :: 0 <= a < cfg.Nx / 2 && 0 <= b < cfg.Ny / 2 && 0 <= c < cfg.Nz / 2 && 0 <= d < cfg.Orders() ==>
      grid[a, b, c, d] == if c == z && d == p && RowOwner(cfg.Plane3(), a, b).1 == ix then PerpSF3(cfg, root, Ux, Uy, Uz, a, b, c, cfg.q1 + d) else old(grid[a, b, c, d])
  {
    var pl := cfg.Plane3();
    var vals := seq(cfg.P, j requires 0 <= j < cfg.P => MeanPow(S[j], cfg.q1 + p));
    Round4(pl, ix, xs, ys, z, p, vals, grid);
    forall a, b | 0 <= a < cfg.Nx / 2 && 0 <= b < cfg.Ny / 2 && RowOwner(pl, a, b).1 == ix
      ensures vals[RowOwner(pl, a, b).0] == PerpSF3(cfg, root, Ux, Uy, Uz, a, b, z, cfg.q1 + p)
    {
      var o := RowOwner(pl, a, b);
      assert (xs[o.0], ys[o.0]) == (a, b);
    }
  }

  /** `SFunc2D` for table row ix: every rank cuts the velocity increments of its
      displacement and splits them into longitudinal and transverse parts, then one gather round per
      order fills both grids. Exactly the cells whose owner row is ix are set. */
  method VectorRow2(cfg: Config, root: real -> real, table: array3<int>, ix: int, Ux: array2<real>, Uz: array2<real>, pll: array3<real>, perp: array3<real>) returns (ghost rounds: int)
    requires cfg.Valid2D() && 0 <= ix < cfg.Plane2().ListSize()
    requires table.Length0 == cfg.Plane2().ListSize() && table.Length1 == 2 && table.Length2 == cfg.P
    requires forall r, k :: 0 <= r < cfg.P && 0 <= k < cfg.Plane2().ListSize() ==>
      table[k, 0, r] == Row(cfg.Plane2(), r, k).0 && table[k, 1, r] == Row(cfg.Plane2(), r, k).1
    requires Ux.Length0 == cfg.Nx && Ux.Length1 == cfg.Nz
    requires Uz.Length0 == cfg.Nx && Uz.Length1 == cfg.Nz
    requires pll.Length0 == cfg.Nx / 2 && pll.Length1 == cfg.Nz / 2 && pll.Length2 == cfg.Orders()
    requires perp.Length0 == cfg.Nx / 2 && perp.Length1 == cfg.Nz / 2 && perp.Length2 == cfg.Orders()
    requires pll != perp
    modifies pll, perp
    ensures rounds == cfg.Orders()
    ensures forall a, b, d :: 0 <= a < cfg.Nx / 2 && 0 <= b < cfg.Nz / 2 && 0 <= d < cfg.Orders() ==>
      pll[a, b, d] == if RowOwner(cfg.Plane2(), a, b).1 == ix then PllSF2(cfg, root, Ux, Uz, a, b, cfg.q1 + d) else old(pll[a, b, d])
    ensures forall a, b, d :: 0 <= a < cfg.Nx / 2 && 0 <= b < cfg.Nz / 2 && 0 <= d < cfg.Orders() ==>
      perp[a, b, d] == if RowOwner(cfg.Plane2(), a, b).1 == ix then PerpSF2(cfg, root, Ux, Uz, a, b, cfg.q1 + d) else old(perp[a, b, d])
  {
    var pl := cfg.Plane2();
    var xs, zs := RankRows(pl, table, ix);
    var pllS, perpS := SplitRanks2(cfg, root, Ux, Uz, xs, zs);
    rounds := 0;
    for p := 0 to cfg.Orders()
      invariant rounds == p
      invariant forall a, b, d :: 0 <= a < cfg.Nx / 2 && 0 <= b < cfg.Nz / 2 && 0 <= d < cfg.Orders() ==>
        pll[a, b, d] == if RowOwner(pl, a, b).1 == ix && d < p then PllSF2(cfg, root, Ux, Uz, a, b, cfg.q1 + d) else old(pll[a, b, d])
      invariant forall a, b, d :: 0 <= a < cfg.Nx / 2 && 0 <= b < cfg.Nz / 2 && 0 <= d < cfg.Orders() ==>
        perp[a, b, d] == if RowOwner(pl, a, b).1 == ix && d < p then PerpSF2(cfg, root, Ux, Uz, a, b, cfg.q1 + d) else old(perp[a, b, d])
    {
      PllRound2(cfg, root, ix, xs, zs, pllS, p, Ux, Uz, pll);
      PerpRound2(cfg, root, ix, xs, zs, perpS, p, Ux, Uz, perp);
      rounds := rounds + 1;
    }
  }

  /** `SFunc2D`: every rank runs `p_per_proc * (q2-q1+1)` rounds, and afterwards
      every cell of the (Nx/2, Nz/2, q2-q1+1) grids other than the zero
      displacement holds the longitudinal and transverse moments of its increments. */
  method SFunc2D(cfg: Config, root: real -> real, Ux: array2<real>, Uz: array2<real>, pll: array3<real>, perp: array3<real>) returns (ghost rounds: int)
    requires cfg.Valid2D()
    requires Ux.Length0 == cfg.Nx && Ux.Length1 == cfg.Nz
    requires Uz.Length0 == cfg.Nx && Uz.Length1 == cfg.Nz
    requires pll.Length0 == cfg.Nx / 2 && pll.Length1 == cfg.Nz / 2 && pll.Length2 == cfg.Orders()
    requires perp.Length0 == cfg.Nx / 2 && perp.Length1 == cfg.Nz / 2 && perp.Length2 == cfg.Orders()
    requires pll != perp
    modifies pll, perp
    ensures rounds == cfg.Plane2().ListSize() * cfg.Orders()
    ensures forall a, b, d :: 0 <= a < cfg.Nx / 2 && 0 <= b < cfg.Nz / 2 && 0 <= d < cfg.Orders() ==>
      pll[a, b, d] == if a == 0 && b == 0 then 0.0 else PllSF2(cfg, root, Ux, Uz, a, b, cfg.q1 + d)
    ensures forall a, b, d :: 0 <= a < cfg.Nx / 2 && 0 <= b < cfg.Nz / 2 && 0 <= d < cfg.Orders() ==>
      perp[a, b, d] == if a == 0 && b == 0 then 0.0 else PerpSF2(cfg, root, Ux, Uz, a, b, cfg.q1 + d)
  {
    var pl := cfg.Plane2();
    var perProc := cfg.Nx * cfg.Nz / (4 * cfg.P);
    var table := BuildTable(pl);
    rounds := 0;
    for ix := 0 to perProc
      modifies pll, perp
      invariant rounds == ix * cfg.Orders()
      invariant forall a, b, d :: 0 <= a < cfg.Nx / 2 && 0 <= b < cfg.Nz / 2 && 0 <= d < cfg.Orders() ==>
        pll[a, b, d] == if RowOwner(pl, a, b).1 < ix then PllSF2(cfg, root, Ux, Uz, a, b, cfg.q1 + d) else old(pll[a, b, d])
      invariant forall a, b, d :: 0 <= a < cfg.Nx / 2 && 0 <= b < cfg.Nz / 2 && 0 <= d < cfg.Orders() ==>
        perp[a, b, d] == if RowOwner(pl, a, b).1 < ix then PerpSF2(cfg, root, Ux, Uz, a, b, cfg.q1 + d) else old(perp[a, b, d])
    {
      ghost var n := VectorRow2(cfg, root, table, ix, Ux, Uz, pll, perp);
      rounds := rounds + n;
    }
    ZeroOrigin3(pll);
    ZeroOrigin3(perp);
  }

  /** `SFunc_long_2D` for table row ix: every rank cuts the velocity increments of its
      displacement and splits them into longitudinal parts, then one gather round per
      order. Exactly the cells whose owner row is ix are set. */
  method LongRow2(cfg: Config, root: real -> real, table: array3<int>, ix: int, Ux: array2<real>, Uz: array2<real>, pll: array3<real>) returns (ghost rounds: int)
    requires cfg.Valid2D() && 0 <= ix < cfg.Plane2().ListSize()
    requires table.Length0 == cfg.Plane2().ListSize() && table.Length1 == 2 && table.Length2 == cfg.P
    requires forall r, k :: 0 <= r < cfg.P && 0 <= k < cfg.Plane2().ListSize() ==>
      table[k, 0, r] == Row(cfg.Plane2(), r, k).0 && table[k, 1, r] == Row(cfg.Plane2(), r, k).1
    requires Ux.Length0 == cfg.Nx && Ux.Length1 == cfg.Nz
    requires Uz.Length0 == cfg.Nx && Uz.Length1 == cfg.Nz
    requires pll.Length0 == cfg.Nx / 2 && pll.Length1 == cfg.Nz / 2 && pll.Length2 == cfg.Orders()
    modifies pll
    ensures rounds == cfg.Orders()
    ensures forall a, b, d :: 0 <= a < cfg.Nx / 2 && 0 <= b < cfg.Nz / 2 && 0 <= d < cfg.Orders() ==>
      pll[a, b, d] == if RowOwner(cfg.Plane2(), a, b).1 == ix then PllSF2(cfg, root, Ux, Uz, a, b, cfg.q1 + d) else old(pll[a, b, d])
  {
    var pl := cfg.Plane2();
    var xs, zs := RankRows(pl, table, ix);
    var pllS := PllRanks2(cfg, root, Ux, Uz, xs, zs);
    rounds := 0;
    for p := 0 to cfg.Orders()
      invariant rounds == p
      invariant forall a, b, d :: 0 <= a < cfg.Nx / 2 && 0 <= b < cfg.Nz / 2 && 0 <= d < cfg.Orders() ==>
        pll[a, b, d] == if RowOwner(pl, a, b).1 == ix && d < p then PllSF2(cfg, root, Ux, Uz, a, b, cfg.q1 + d) else old(pll[a, b, d])
    {
      PllRound2(cfg, root, ix, xs, zs, pllS, p, Ux, Uz, pll);
      rounds := rounds + 1;
    }
  }

  /** `SFunc_long_2D`: every rank runs `p_per_proc * (q2-q1+1)` rounds, and afterwards
      every cell of the (Nx/2, Nz/2, q2-q1+1) grid other than the zero
      displacement holds the longitudinal moment of its increments. */
  method SFuncLong2D(cfg: Config, root: real -> real, Ux: array2<real>, Uz: array2<real>, pll: array3<real>) returns (ghost rounds: int)
    requires cfg.Valid2D()
    requires Ux.Length0 == cfg.Nx && Ux.Length1 == cfg.Nz
    requires Uz.Length0 == cfg.Nx && Uz.Length1 == cfg.Nz
    requires pll.Length0 == cfg.Nx / 2 && pll.Length1 == cfg.Nz / 2 && pll.Length2 == cfg.Orders()
    modifies pll
    ensures rounds == cfg.Plane2().ListSize() * cfg.Orders()
    ensures forall a, b, d :: 0 <= a < cfg.Nx / 2 && 0 <= b < cfg.Nz / 2 && 0 <= d < cfg.Orders() ==>
      pll[a, b, d] == if a == 0 && b == 0 then 0.0 else PllSF2(cfg, root, Ux, Uz, a, b, cfg.q1 + d)
  {
    var pl := cfg.Plane2();
    var perProc := cfg.Nx * cfg.Nz / (4 * cfg.P);
    var table := BuildTable(pl);
    rounds := 0;
    for ix := 0 to perProc
      modifies pll
      invariant rounds == ix * cfg.Orders()
      invariant forall a, b, d :: 0 <= a < cfg.Nx / 2 && 0 <= b < cfg.Nz / 2 && 0 <= d < cfg.Orders() ==>
        pll[a, b, d] == if RowOwner(pl, a, b).1 < ix then PllSF2(cfg, root, Ux, Uz, a, b, cfg.q1 + d) else old(pll[a, b, d])
    {
      ghost var n := LongRow2(cfg, root, table, ix, Ux, Uz, pll);
      rounds := rounds + n;
    }
    ZeroOrigin3(pll);
  }

  /** `SFunc3D` for table row ix and z: every rank cuts the velocity increments of its
      displacement and splits them into longitudinal and transverse parts, then one gather round per
      order fills both grids. Exactly the cells at z whose owner row is ix are set. */
  method VectorSlab3(cfg: Config, root: real -> real, table: array3<int>, ix: int, z: int, Ux: array3<real>, Uy: array3<real>, Uz: array3<real>, pll: array4<real>, perp: array4<real>) returns (ghost rounds: int)
    requires cfg.Valid3D() && 0 <= ix < cfg.Plane3().ListSize() && 0 <= z < cfg.Nz / 2
    requires table.Length0 == cfg.Plane3().ListSize() && table.Length1 == 2 && table.Length2 == cfg.P
    requires forall r, k :: 0 <= r < cfg.P && 0 <= k < cfg.Plane3().ListSize() ==>
      table[k, 0, r] == Row(cfg.Plane3(), r, k).0 && table[k, 1, r] == Row(cfg.Plane3(), r, k).1
    requires Ux.Length0 == cfg.Nx && Ux.Length1 == cfg.Ny && Ux.Length2 == cfg.Nz
    requires Uy.Length0 == cfg.Nx && Uy.Length1 == cfg.Ny && Uy.Length2 == cfg.Nz
    requires Uz.Length0 == cfg.Nx && Uz.Length1 == cfg.Ny && Uz.Length2 == cfg.Nz
    requires pll.Length0 == cfg.Nx / 2 && pll.Length1 == cfg.Ny / 2 && pll.Length2 == cfg.Nz / 2 && pll.Length3 == cfg.Orders()
    requires perp.Length0 == cfg.Nx / 2 && perp.Length1 == cfg.Ny / 2 && perp.Length2 == cfg.Nz / 2 && perp.Length3 == cfg.Orders()
    requires pll != perp
    modifies pll, perp
    ensures rounds == cfg.Orders()
    ensures forall a, b, c, d :: 0 <= a < cfg.Nx / 2 && 0 <= b < cfg.Ny / 2 && 0 <= c < cfg.Nz / 2 && 0 <= d < cfg.Orders() ==>
      pll[a, b, c, d] == if c == z && RowOwner(cfg.Plane3(), a, b).1 == ix then PllSF3(cfg, root, Ux, Uy, Uz, a, b, c, cfg.q1 + d) else old(pll[a, b, c, d])
    ensures forall a, b, c, d :: 0 <= a < cfg.Nx / 2 && 0 <= b < cfg.Ny / 2 && 0 <= c < cfg.Nz / 2 && 0 <= d < cfg.Orders() ==>
      perp[a, b, c, d] == if c == z && RowOwner(cfg.Plane3(), a, b).1 == ix then PerpSF3(cfg, root, Ux, Uy, Uz, a, b, c, cfg.q1 + d) else old(perp[a, b, c, d])
  {
    var pl := cfg.Plane3();
    var xs, ys := RankRows(pl, table, ix);
    var pllS, perpS := SplitRanks3(cfg, root, Ux, Uy, Uz, xs, ys, z);
    rounds := 0;
    for p := 0 to cfg.Orders()
      invariant rounds == p
      invariant forall a, b, c, d :: 0 <= a < cfg.Nx / 2 && 0 <= b < cfg.Ny / 2 && 0 <= c < cfg.Nz / 2 && 0 <= d < cfg.Orders() ==>
        pll[a, b, c, d] == if c == z && RowOwner(pl, a, b).1 == ix && d < p then PllSF3(cfg, root, Ux, Uy, Uz, a, b, c, cfg.q1 + d) else old(pll[a, b, c, d])
      invariant forall a, b, c, d :: 0 <= a < cfg.Nx / 2 && 0 <= b < cfg.Ny / 2 && 0 <= c < cfg.Nz / 2 && 0 <= d < cfg.Orders() ==>
        perp[a, b, c, d] == if c == z && RowOwner(pl, a, b).1 == ix && d < p then PerpSF3(cfg, root, Ux, Uy, Uz, a, b, c, cfg.q1 + d) else old(perp[a, b, c, d])
    {
      PllRound3(cfg, root, ix, xs, ys, z, pllS, p, Ux, Uy, Uz, pll);
      PerpRound3(cfg, root, ix, xs, ys, z, perpS, p, Ux, Uy, Uz, perp);
      rounds := rounds + 1;
    }
  }

  /** `SFunc3D` for table row ix: one slab per z in [0, Nz/2), so exactly the
      cells whose owner row is ix are set in both grids, at every z. */
  method VectorRow3(cfg: Config, root: real -> real, table: array3<int>, ix: int, Ux: array3<real>, Uy: array3<real>, Uz: array3<real>, pll: array4<real>, perp: array4<real>) returns (ghost rounds: int)
    requires cfg.Valid3D() && 0 <= ix < cfg.Plane3().ListSize()
    requires table.Length0 == cfg.Plane3().ListSize() && table.Length1 == 2 && table.Length2 == cfg.P
    requires forall r, k :: 0 <= r < cfg.P && 0 <= k < cfg.Plane3().ListSize() ==>
      table[k, 0, r] == Row(cfg.Plane3(), r, k).0 && table[k, 1, r] == Row(cfg.Plane3(), r, k).1
    requires Ux.Length0 == cfg.Nx && Ux.Length1 == cfg.Ny && Ux.Length2 == cfg.Nz
    requires Uy.Length0 == cfg.Nx && Uy.Length1 == cfg.Ny && Uy.Length2 == cfg.Nz
    requires Uz.Length0 == cfg.Nx && Uz.Length1 == cfg.Ny && Uz.Length2 == cfg.Nz
    requires pll.Length0 == cfg.Nx / 2 && pll.Length1 == cfg.Ny / 2 && pll.Length2 == cfg.Nz / 2 && pll.Length3 == cfg.Orders()
    requires perp.Length0 == cfg.Nx / 2 && perp.Length1 == cfg.Ny / 2 && perp.Length2 == cfg.Nz / 2 && perp.Length3 == cfg.Orders()
    requires pll != perp
    modifies pll, perp
    ensures rounds == (cfg.Nz / 2) * cfg.Orders()
    ensures forall a, b, c, d :: 0 <= a < cfg.Nx / 2 && 0 <= b < cfg.Ny / 2 && 0 <= c < cfg.Nz / 2 && 0 <= d < cfg.Orders() ==>
      pll[a, b, c, d] == if RowOwner(cfg.Plane3(), a, b).1 == ix then PllSF3(cfg, root, Ux, Uy, Uz, a, b, c, cfg.q1 + d) else old(pll[a, b, c, d])
    ensures forall a, b, c, d :: 0 <= a < cfg.Nx / 2 && 0 <= b < cfg.Ny / 2 && 0 <= c < cfg.Nz / 2 && 0 <= d < cfg.Orders() ==>
      perp[a, b, c, d] == if RowOwner(cfg.Plane3(), a, b).1 == ix then PerpSF3(cfg, root, Ux, Uy, Uz, a, b, c, cfg.q1 + d) else old(perp[a, b, c, d])
  {
    var pl := cfg.Plane3();
    rounds := 0;
    for z := 0 to cfg.Nz / 2
      invariant rounds == z * cfg.Orders()
      invariant forall a, b, c, d :: 0 <= a < cfg.Nx / 2 && 0 <= b < cfg.Ny / 2 && 0 <= c < cfg.Nz / 2 && 0 <= d < cfg.Orders() ==>
        pll[a, b, c, d] == if RowOwner(pl, a, b).1 == ix && c < z then PllSF3(cfg, root, Ux, Uy, Uz, a, b, c, cfg.q1 + d) else old(pll[a, b, c, d])
      invariant forall a, b, c, d :: 0 <= a < cfg.Nx / 2 && 0 <= b < cfg.Ny / 2 && 0 <= c < cfg.Nz / 2 && 0 <= d < cfg.Orders() ==>
        perp[a, b, c, d] == if RowOwner(pl, a, b).1 == ix && c < z then PerpSF3(cfg, root, Ux, Uy, Uz, a, b, c, cfg.q1 + d) else old(perp[a, b, c, d])
    {
      ghost var n := VectorSlab3(cfg, root, table, ix, z, Ux, Uy, Uz, pll, perp);
      rounds := rounds + n;
    }
  }

  /** `SFunc3D`: every rank runs `c_per_proc * (Nz/2) * (q2-q1+1)` rounds, and afterwards
      every cell of the (Nx/2, Ny/2, Nz/2, q2-q1+1) grids other than the zero
      displacement holds the longitudinal and transverse moments of its increments. */
  method SFunc3D(cfg: Config, root: real -> real, Ux: array3<real>, Uy: array3<real>, Uz: array3<real>, pll: array4<real>, perp: array4<real>) returns (ghost rounds: int)
    requires cfg.Valid3D()
    requires Ux.Length0 == cfg.Nx && Ux.Length1 == cfg.Ny && Ux.Length2 == cfg.Nz
    requires Uy.Length0 == cfg.Nx && Uy.Length1 == cfg.Ny && Uy.Length2 == cfg.Nz
    requires Uz.Length0 == cfg.Nx && Uz.Length1 == cfg.Ny && Uz.Length2 == cfg.Nz
    requires pll.Length0 == cfg.Nx / 2 && pll.Length1 == cfg.Ny / 2 && pll.Length2 == cfg.Nz / 2 && pll.Length3 == cfg.Orders()
    requires perp.Length0 == cfg.Nx / 2 && perp.Length1 == cfg.Ny / 2 && perp.Length2 == cfg.Nz / 2 && perp.Length3 == cfg.Orders()
    requires pll != perp
    modifies pll, perp
    ensures rounds == cfg.Plane3().ListSize() * (cfg.Nz / 2) * cfg.Orders()
    ensures forall a, b, c, d :: 0 <= a < cfg.Nx / 2 && 0 <= b < cfg.Ny / 2 && 0 <= c < cfg.Nz / 2 && 0 <= d < cfg.Orders() ==>
      pll[a, b, c, d] == if a == 0 && b == 0 && c == 0 then 0.0 else PllSF3(cfg, root, Ux, Uy, Uz, a, b, c, cfg.q1 + d)
    ensures forall a, b, c, d :: 0 <= a < cfg.Nx / 2 && 0 <= b < cfg.Ny / 2 && 0 <= c < cfg.Nz / 2 && 0 <= d < cfg.Orders() ==>
      perp[a, b, c, d] == if a == 0 && b == 0 && c == 0 then 0.0 else PerpSF3(cfg, root, Ux, Uy, Uz, a, b, c, cfg.q1 + d)
  {
    var pl := cfg.Plane3();
    var perProc := cfg.Nx * cfg.Ny / (4 * cfg.P);
    var table := BuildTable(pl);
    rounds := 0;
    for ix := 0 to perProc
      modifies pll, perp
      invariant rounds == ix * (cfg.Nz / 2) * cfg.Orders()
      invariant forall a, b, c, d :: 0 <= a < cfg.Nx / 2 && 0 <= b < cfg.Ny / 2 && 0 <= c < cfg.Nz / 2 && 0 <= d < cfg.Orders() ==>
        pll[a, b, c, d] == if RowOwner(pl, a, b).1 < ix then PllSF3(cfg, root, Ux, Uy, Uz, a, b, c, cfg.q1 + d) else old(pll[a, b, c, d])
      invariant forall a, b, c, d :: 0 <= a < cfg.Nx / 2 && 0 <= b < cfg.Ny / 2 && 0 <= c < cfg.Nz / 2 && 0 <= d < cfg.Orders() ==>
        perp[a, b, c, d] == if RowOwner(pl, a, b).1 < ix then PerpSF3(cfg, root, Ux, Uy, Uz, a, b, c, cfg.q1 + d) else old(perp[a, b, c, d])
    {
      ghost var n := VectorRow3(cfg, root, table, ix, Ux, Uy, Uz, pll, perp);
      rounds := rounds + n;
    }
    ZeroOrigin4(pll);
    ZeroOrigin4(perp);
  }

  /** `SFunc_long_3D` for table row ix and z: every rank cuts the velocity increments of its
      displacement and splits them into longitudinal parts, then one gather round per
      order. Exactly the cells at z whose owner row is ix are set. */
  method LongSlab3(cfg: Config, root: real -> real, table: array3<int>, ix: int, z: int, Ux: array3<real>, Uy: array3<real>, Uz: array3<real>, pll: array4<real>) returns (ghost rounds: int)
    requires cfg.Valid3D() && 0 <= ix < cfg.Plane3().ListSize() && 0 <= z < cfg.Nz / 2
    requires table.Length0 == cfg.Plane3().ListSize() && table.Length1 == 2 && table.Length2 == cfg.P
    requires forall r, k :: 0 <= r < cfg.P && 0 <= k < cfg.Plane3().ListSize() ==>
      table[k, 0, r] == Row(cfg.Plane3(), r, k).0 && table[k, 1, r] == Row(cfg.Plane3(), r, k).1
    requires Ux.Length0 == cfg.Nx && Ux.Length1 == cfg.Ny && Ux.Length2 == cfg.Nz
    requires Uy.Length0 == cfg.Nx && Uy.Length1 == cfg.Ny && Uy.Length2 == cfg.Nz
    requires Uz.Length0 == cfg.Nx && Uz.Length1 == cfg.Ny && Uz.Length2 == cfg.Nz
    requires pll.Length0 == cfg.Nx / 2 && pll.Length1 == cfg.Ny / 2 && pll.Length2 == cfg.Nz / 2 && pll.Length3 == cfg.Orders()
    modifies pll
    ensures rounds == cfg.Orders()
    ensures forall a, b, c, d :: 0 <= a < cfg.Nx / 2 && 0 <= b < cfg.Ny / 2 && 0 <= c < cfg.Nz / 2 && 0 <= d < cfg.Orders() ==>
      pll[a, b, c, d] == if c == z && RowOwner(cfg.Plane3(), a, b).1 == ix then PllSF3(cfg, root, Ux, Uy, Uz, a, b, c, cfg.q1 + d) else old(pll[a, b, c, d])
  {
    var pl := cfg.Plane3();
    var xs, ys := RankRows(pl, table, ix);
    var pllS := PllRanks3(cfg, root, Ux, Uy, Uz, xs, ys, z);
    rounds := 0;
    for p := 0 to cfg.Orders()
      invariant rounds == p
      invariant forall a, b, c, d :: 0 <= a < cfg.Nx / 2 && 0 <= b < cfg.Ny / 2 && 0 <= c < cfg.Nz / 2 && 0 <= d < cfg.Orders() ==>
        pll[a, b, c, d] == if c == z && RowOwner(pl, a, b).1 == ix && d < p then PllSF3(cfg, root, Ux, Uy, Uz, a, b, c, cfg.q1 + d) else old(pll[a, b, c, d])
    {
      PllRound3(cfg, root, ix, xs, ys, z, pllS, p, Ux, Uy, Uz, pll);
      rounds := rounds + 1;
    }
  }

  /** `SFunc_long_3D` for table row ix: one slab per z in [0, Nz/2), so exactly
      the cells whose owner row is ix are set, at every z. */
  method LongRow3(cfg: Config, root: real -> real, table: array3<int>, ix: int, Ux: array3<real>, Uy: array3<real>, Uz: array3<real>, pll: array4<real>) returns (ghost rounds: int)
    requires cfg.Valid3D() && 0 <= ix < cfg.Plane3().ListSize()
    requires table.Length0 == cfg.Plane3().ListSize() && table.Length1 == 2 && table.Length2 == cfg.P
    requires forall r, k :: 0 <= r < cfg.P && 0 <= k < cfg.Plane3().ListSize() ==>
      table[k, 0, r] == Row(cfg.Plane3(), r, k).0 && table[k, 1, r] == Row(cfg.Plane3(), r, k).1
    requires Ux.Length0 == cfg.Nx && Ux.Length1 == cfg.Ny && Ux.Length2 == cfg.Nz
    requires Uy.Length0 == cfg.Nx && Uy.Length1 == cfg.Ny && Uy.Length2 == cfg.Nz
    requires Uz.Length0 == cfg.Nx && Uz.Length1 == cfg.Ny && Uz.Length2 == cfg.Nz
    requires pll.Length0 == cfg.Nx / 2 && pll.Length1 == cfg.Ny / 2 && pll.Length2 == cfg.Nz / 2 && pll.Length3 == cfg.Orders()
    modifies pll
    ensures rounds == (cfg.Nz / 2) * cfg.Orders()
    ensures forall a, b, c, d :: 0 <= a < cfg.Nx / 2 && 0 <= b < cfg.Ny / 2 && 0 <= c < cfg.Nz / 2 && 0 <= d < cfg.Orders() ==>
      pll[a, b, c, d] == if RowOwner(cfg.Plane3(), a, b).1 == ix then PllSF3(cfg, root, Ux, Uy, Uz, a, b, c, cfg.q1 + d) else old(pll[a, b, c, d])
  {
    var pl := cfg.Plane3();
    rounds := 0;
    for z := 0 to cfg.Nz / 2
      invariant rounds == z * cfg.Orders()
      invariant forall a, b, c, d :: 0 <= a < cfg.Nx / 2 && 0 <= b < cfg.Ny / 2 && 0 <= c < cfg.Nz / 2 && 0 <= d < cfg.Orders() ==>
        pll[a, b, c, d] == if RowOwner(pl, a, b).1 == ix && c < z then PllSF3(cfg, root, Ux, Uy, Uz, a, b, c, cfg.q1 + d) else old(pll[a, b, c, d])
    {
      ghost var n := LongSlab3(cfg, root, table, ix, z, Ux, Uy, Uz, pll);
      rounds := rounds + n;
    }
  }

  /** `SFunc_long_3D`: every rank runs `c_per_proc * (Nz/2) * (q2-q1+1)` rounds, and afterwards
      every cell of the (Nx/2, Ny/2, Nz/2, q2-q1+1) grid other than the zero
      displacement holds the longitudinal moment of its increments. */
  method SFuncLong3D(cfg: Config, root: real -> real, Ux: array3<real>, Uy: array3<real>, Uz: array3<real>, pll: array4<real>) returns (ghost rounds: int)
    requires cfg.Valid3D()
    requires Ux.Length0 == cfg.Nx && Ux.Length1 == cfg.Ny && Ux.Length2 == cfg.Nz
    requires Uy.Length0 == cfg.Nx && Uy.Length1 == cfg.Ny && Uy.Length2 == cfg.Nz
    requires Uz.Length0 == cfg.Nx && Uz.Length1 == cfg.Ny && Uz.Length2 == cfg.Nz
    requires pll.Length0 == cfg.Nx / 2 && pll.Length1 == cfg.Ny / 2 && pll.Length2 == cfg.Nz / 2 && pll.Length3 == cfg.Orders()
    modifies pll
    ensures rounds == cfg.Plane3().ListSize() * (cfg.Nz / 2) * cfg.Orders()
    ensures forall a, b, c, d :: 0 <= a < cfg.Nx / 2 && 0 <= b < cfg.Ny / 2 && 0 <= c < cfg.Nz / 2 && 0 <= d < cfg.Orders() ==>
      pll[a, b, c, d] == if a == 0 && b == 0 && c == 0 then 0.0 else PllSF3(cfg, root, Ux, Uy, Uz, a, b, c, cfg.q1 + d)
  {
    var pl := cfg.Plane3();
    var perProc := cfg.Nx * cfg.Ny / (4 * cfg.P);
    var table := BuildTable(pl);
    rounds := 0;
    for ix := 0 to perProc
      modifies pll
      invariant rounds == ix * (cfg.Nz / 2) * cfg.Orders()
      invariant forall a, b, c, d :: 0 <= a < cfg.Nx / 2 && 0 <= b < cfg.Ny / 2 && 0 <= c < cfg.Nz / 2 && 0 <= d < cfg.Orders() ==>
        pll[a, b, c, d] == if RowOwner(pl, a, b).1 < ix then PllSF3(cfg, root, Ux, Uy, Uz, a, b, c, cfg.q1 + d) else old(pll[a, b, c, d])
    {
      ghost var n := LongRow3(cfg, root, table, ix, Ux, Uy, Uz, pll);
      rounds := rounds + n;
    }
    ZeroOrigin4(pll);
  }
}
