/** The displacement enumerator (`compute_index_list` on the 3-D table).

    Two axes are partitioned: the x axis (Nx/2 half-displacements) across px
    ranks, and the second axis (Ny/2, or Nz/2 for 2-D fields) across
    py = P/px ranks. Every rank's slice of the table is the Cartesian product
    of its two ladders. */
module Enumerator {
  import opened Arith
  import opened Topology
  import opened Partition

  /** The grid extents of the two partitioned axes and the process layout:
      `Nx`, `Ny` (or `Nz`), the total process count `P` and `px`. */
  datatype Plane = Plane(Nx: int, Ny: int, P: int, px: int) {

    /** `py = P/px`. */
    function Py(): int
      requires px >= 1
    {
      P / px
    }

    /** `nx = Nx/(2*px)`: length of a rank's x-ladder. */
    function RowsX(): int
      requires px >= 1
    {
      Nx / (2 * px)
    }

    /** `ny = Ny/(2*py)`: length of a rank's y-ladder. */
    function RowsY(): int
      requires px >= 1 && P / px >= 1
    {
      Ny / (2 * Py())
    }

    /** `list_size = (Nx*Ny)/(4*P)`: rows of the table per rank, also the
        kernels' `c_per_proc` / `p_per_proc`. */
    function ListSize(): int
      requires P >= 1
    {
      (Nx * Ny) / (4 * P)
    }

    /** The configuration the table is correct for: px divides P, both
        half-extents suit the ladder, and the nx*ny rows a rank writes are
        exactly the list_size rows of its slice. Even extents give the last
        clause (EvenExtentsFill); an odd extent may or may not. */
    predicate Valid()
    {
      && P >= 1 && px >= 1 && P % px == 0
      && Nx >= 0 && Ny >= 0
      && AxisValid(Nx / 2, px) && AxisValid(Ny / 2, P / px)
      && ListSize() == RowsX() * RowsY()
    }
  }

  /** Row k of rank `rank`'s slice: the (x, y) displacement pair
      (x-ladder[k / ny], y-ladder[k % ny]). */
  function Row(pl: Plane, rank: int, k: int): (int, int)
    requires pl.Valid() && pl.Ny >= 2 && rank >= 0
  {
    PlaneRows(pl);
    var c := GetRank(rank, pl.Py());
    (LadderAt(pl.Nx / 2, pl.px, c.0, k / pl.RowsY()), LadderAt(pl.Ny / 2, pl.Py(), c.1, k % pl.RowsY()))
  }

  /** With Ny >= 2 every rank's y-ladder is non-empty. */
  lemma PlaneRows(pl: Plane)
    requires pl.Valid() && pl.Ny >= 2
    ensures pl.Py() >= 1 && pl.RowsY() >= 1
  {
    PlaneShape(pl);
    AxisShape(pl.Ny / 2, pl.Py());
  }

  /** The ladders' lengths are nx and ny, and for a valid plane nx*ny fills every one of the list_size rows. */
  lemma PlaneShape(pl: Plane)
    requires pl.Valid()
    ensures pl.Py() >= 1 && pl.P == pl.px * pl.Py() && pl.P / pl.Py() == pl.px
    ensures (pl.Nx / 2) / pl.px == pl.RowsX() && (pl.Ny / 2) / pl.Py() == pl.RowsY()
    ensures pl.RowsX() >= 0 && pl.RowsY() >= 0
    ensures pl.RowsX() * pl.RowsY() == pl.ListSize()
  {
    DivModUnique(pl.P, pl.px, pl.Py(), 0);
    DivModUnique(pl.P, pl.Py(), pl.px, 0);
    NestedDiv(pl.Nx, 2, pl.px);
    NestedDiv(pl.Ny, 2, pl.Py());
  }

  /** With both extents even, the ladders tile the (Nx/2, Ny/2) box exactly:
      (Nx*Ny)/(4P) == nx*ny, so every configuration with even extents that
      suits the ladders is valid. */
  lemma EvenExtentsFill(pl: Plane)
    requires pl.P >= 1 && pl.px >= 1 && pl.P % pl.px == 0
    requires pl.Nx >= 0 && pl.Ny >= 0 && pl.Nx % 2 == 0 && pl.Ny % 2 == 0
    requires AxisValid(pl.Nx / 2, pl.px) && AxisValid(pl.Ny / 2, pl.P / pl.px)
    ensures pl.Valid()
  {
    var py := pl.P / pl.px;
    var a, b := pl.RowsX(), pl.RowsY();
    assert pl.P == pl.px * py by {
      DivModUnique(pl.P, pl.px, py, 0);
    }
    assert pl.Nx == 2 * pl.px * a by {
      NestedDiv(pl.Nx, 2, pl.px);
      AxisShape(pl.Nx / 2, pl.px);
    }
    assert pl.Ny == 2 * py * b by {
      NestedDiv(pl.Ny, 2, py);
      AxisShape(pl.Ny / 2, py);
    }
    assert a >= 0 && b >= 0;
    TileProduct(pl.Nx, pl.Ny, pl.px, py, a, b);
  }

  /** Two extents of 2*p1*a and 2*p2*b points hold (4*p1*p2)*(a*b) pairs exactly. */
  lemma TileProduct(n1: int, n2: int, p1: int, p2: int, a: int, b: int)
    requires p1 >= 1 && p2 >= 1 && a >= 0 && b >= 0
    requires n1 == 2 * p1 * a && n2 == 2 * p2 * b
    ensures (n1 * n2) / (4 * (p1 * p2)) == a * b
  {
    assert n1 * n2 == (4 * (p1 * p2)) * (a * b);
    MulMonotone(a, 0, b);
    MulMonotone(p1, 1, p2);
    DivModUnique(n1 * n2, 4 * (p1 * p2), a * b, 0);
  }

  /** Odd extents are not excluded as such: the 9-point test grid on 8 ranks
      with px = 2 has 2-slot x-ladders and 1-slot y-ladders, and its
      list_size (81/32 = 2) is exactly nx*ny. */
  lemma NinePointGridValid()
    ensures Plane(9, 9, 8, 2).Valid()
    ensures MainAccepts(Plane(9, 9, 8, 2))
  {
  }

  /** `compute_index_list(index_list, Nx, Ny)`: allocates a (list_size, 2, P)
      table and fills every rank's slice of it. */
  method BuildTable(pl: Plane) returns (table: array3<int>)
    requires pl.Valid() && pl.Ny >= 2
    ensures fresh(table)
    ensures table.Length0 == pl.ListSize() && table.Length1 == 2 && table.Length2 == pl.P
    ensures forall r, k :: 0 <= r < pl.P && 0 <= k < pl.ListSize() ==>
      table[k, 0, r] == Row(pl, r, k).0 && table[k, 1, r] == Row(pl, r, k).1
  {
    var listSize := (pl.Nx * pl.Ny) / (4 * pl.P);
    assert listSize >= 0 by {
      PlaneShape(pl);
      MulMonotone(pl.RowsX(), 0, pl.RowsY());
    }
    table := new int[listSize, 2, pl.P];
    for rankId := 0 to pl.P
      invariant forall r, k :: 0 <= r < rankId && 0 <= k < listSize ==>
        table[k, 0, r] == Row(pl, r, k).0 && table[k, 1, r] == Row(pl, r, k).1
    {
      FillSlice(pl, table, rankId);
    }
  }

  /** One iteration of the rank loop of `compute_index_list(index_list, Nx, Ny)`:
      computes the rank's two ladders and writes their Cartesian product into
      rows 0..nx*ny-1 of its slice, one x-slot (a range of ny rows) at a time.
      The slices of the other ranks are left as they were. */
  method FillSlice(pl: Plane, table: array3<int>, rankId: int)
    requires pl.Valid() && pl.Ny >= 2 && 0 <= rankId < pl.P
    requires table.Length0 == pl.ListSize() && table.Length1 == 2 && table.Length2 == pl.P
    modifies table
    ensures forall k :: 0 <= k < pl.ListSize() ==>
      table[k, 0, rankId] == Row(pl, rankId, k).0 && table[k, 1, rankId] == Row(pl, rankId, k).1
    ensures forall k, e, r :: 0 <= k < table.Length0 && 0 <= e < 2 && 0 <= r < table.Length2 && r != rankId ==>
      table[k, e, r] == old(table[k, e, r])
  {
    var py := pl.P / pl.px;
    var nx, ny := pl.Nx / (2 * pl.px), pl.Ny / (2 * py);
    var c := GetRank(rankId, py);
    assert py == pl.Py() && nx == pl.RowsX() && ny == pl.RowsY();
    SliceShape(pl, rankId);
    var x := ComputeIndexList(pl.Nx / 2, pl.px, c.0);
    var y := ComputeIndexList(pl.Ny / 2, py, c.1);
    ghost var xs, ys := x[..], y[..];
    for i := 0 to nx
      invariant x[..] == xs && y[..] == ys
      invariant ny * i <= table.Length0
      invariant forall k :: 0 <= k < ny * i ==>
        table[k, 0, rankId] == Row(pl, rankId, k).0 && table[k, 1, rankId] == Row(pl, rankId, k).1
      invariant forall k, e, r :: 0 <= k < table.Length0 && 0 <= e < 2 && 0 <= r < table.Length2 && r != rankId ==>
        table[k, e, r] == old(table[k, e, r])
    {
      SlotBound(nx, ny, i);
      SlotRows(pl, rankId, i, xs, ys);
      AssignRange(table, rankId, ny * i, x[i], y);
    }
  }

  /** The shape facts one rank's iteration relies on: its grid cell is inside
      the px-by-py grid, and its two ladders have nx and ny slots, which fill
      the nx*ny == list_size rows of its slice. */
  lemma SliceShape(pl: Plane, rankId: int)
    requires pl.Valid() && pl.Ny >= 2 && 0 <= rankId < pl.P
    ensures pl.Py() >= 1
    ensures 0 <= GetRank(rankId, pl.Py()).0 < pl.px && 0 <= GetRank(rankId, pl.Py()).1 < pl.Py()
    ensures (pl.Nx / 2) / pl.px == pl.RowsX() >= 0 && (pl.Ny / 2) / pl.Py() == pl.RowsY() >= 0
    ensures pl.RowsY() * pl.RowsX() == pl.ListSize()
  {
    PlaneShape(pl);
    GetRankInGrid(rankId, pl.P, pl.Py());
  }

  /** Slot i < nx of the x-ladder covers rows ny*i .. ny*i+ny-1, all below nx*ny. */
  lemma SlotBound(nx: int, ny: int, i: int)
    requires 0 <= i < nx && ny >= 0
    ensures ny * (i + 1) == ny * i + ny && ny * (i + 1) <= ny * nx
  {
    MulSucc(ny, i);
    MulMonotone(ny, i + 1, nx);
  }

  /** `index_list(Range(lo, lo+ny-1), 0, rank_id) = xi` followed by
      `index_list(Range(lo, lo+ny-1), 1, rank_id) = y(Range::all())`, with ny the
      length of y: rows lo..lo+ny-1 of the rank's slice get xi and the
      successive entries of y; every other cell keeps its value. */
  method AssignRange(table: array3<int>, rankId: int, lo: int, xi: int, y: array<int>)
    requires 0 <= rankId < table.Length2 && table.Length1 == 2
    requires 0 <= lo && lo + y.Length <= table.Length0
    modifies table
    ensures forall k :: lo <= k < lo + y.Length ==> table[k, 0, rankId] == xi
    ensures forall k :: lo <= k < lo + y.Length ==> table[k, 1, rankId] == y[k - lo]
    ensures forall k, e, r :: 0 <= k < table.Length0 && 0 <= e < 2 && 0 <= r < table.Length2 && !(lo <= k < lo + y.Length && r == rankId) ==>
      table[k, e, r] == old(table[k, e, r])
  {
    forall k | lo <= k < lo + y.Length {
      table[k, 0, rankId] := xi;
    }
    forall k | lo <= k < lo + y.Length {
      table[k, 1, rankId] := y[k - lo];
    }
  }

  /** Row ny*i + j of a rank pairs slot i of its x-ladder with slot j of its y-ladder. */
  lemma RowOfLadders(pl: Plane, rank: int, i: int, j: int)
    requires pl.Valid() && pl.Ny >= 2 && rank >= 0 && i >= 0 && 0 <= j < pl.RowsY()
    ensures Row(pl, rank, pl.RowsY() * i + j) ==
      (LadderAt(pl.Nx / 2, pl.px, GetRank(rank, pl.Py()).0, i), LadderAt(pl.Ny / 2, pl.Py(), GetRank(rank, pl.Py()).1, j))
  {
    RowMajor(pl.RowsY(), i, j);
  }

  /** A filled row k of a rank in [0, P) reads slot k / ny of an x-ladder of
      one of the px x-ranks and slot k % ny of a y-ladder of one of the py
      y-ranks. */
  lemma RowSlots(pl: Plane, rank: int, k: int)
    requires pl.Valid() && pl.Ny >= 2 && 0 <= rank < pl.P && 0 <= k < pl.ListSize()
    ensures pl.Py() >= 1 && pl.RowsY() >= 1
    ensures 0 <= GetRank(rank, pl.Py()).0 < pl.px && 0 <= GetRank(rank, pl.Py()).1 < pl.Py()
    ensures 0 <= k / pl.RowsY() < (pl.Nx / 2) / pl.px && 0 <= k % pl.RowsY() < (pl.Ny / 2) / pl.Py()
    ensures k == pl.RowsY() * (k / pl.RowsY()) + k % pl.RowsY()
  {
    PlaneShape(pl);
    SplitBelow(k, pl.RowsX(), pl.RowsY());
    GetRankInGrid(rank, pl.P, pl.Py());
  }

  /** Rows ny*i .. ny*(i+1)-1 of a rank pair slot i of its x-ladder with
      the successive slots of its y-ladder. */
  lemma SlotRows(pl: Plane, rank: int, i: int, xs: seq<int>, ys: seq<int>)
    requires pl.Valid() && pl.Ny >= 2 && rank >= 0 && 0 <= i < |xs|
    requires xs == Ladder(pl.Nx / 2, pl.px, GetRank(rank, pl.Py()).0)
    requires ys == Ladder(pl.Ny / 2, pl.Py(), GetRank(rank, pl.Py()).1)
    ensures forall k :: pl.RowsY() * i <= k < pl.RowsY() * (i + 1) ==>
      0 <= k - pl.RowsY() * i < |ys| && Row(pl, rank, k) == (xs[i], ys[k - pl.RowsY() * i])
  {
    var ny := pl.RowsY();
    assert |ys| == ny by {
      PlaneShape(pl);
    }
    forall k | ny * i <= k < ny * (i + 1)
      ensures 0 <= k - ny * i < |ys| && Row(pl, rank, k) == (xs[i], ys[k - ny * i])
    {
      MulSucc(ny, i);
      RowOfLadders(pl, rank, i, k - ny * i);
    }
  }

  /** Every filled row of a rank in [0, P) is a displacement pair in [0, Nx/2) x [0, Ny/2). */
  lemma RowInBox(pl: Plane, rank: int, k: int)
    requires pl.Valid() && pl.Ny >= 2 && 0 <= rank < pl.P && 0 <= k < pl.ListSize()
    ensures 0 <= Row(pl, rank, k).0 < pl.Nx / 2
    ensures 0 <= Row(pl, rank, k).1 < pl.Ny / 2
  {
    RowSlots(pl, rank, k);
    var c := GetRank(rank, pl.Py());
    LadderInRange(pl.Nx / 2, pl.px, c.0, k / pl.RowsY());
    LadderInRange(pl.Ny / 2, pl.Py(), c.1, k % pl.RowsY());
  }

  /** The rank and row that own displacement pair (x, y). Coverage: every pair
      of [0, Nx/2) x [0, Ny/2) is a filled row of a rank in [0, P). */
  function RowOwner(pl: Plane, x: int, y: int): (o: (int, int))
    requires pl.Valid() && pl.Ny >= 2
    requires 0 <= x < pl.Nx / 2 && 0 <= y < pl.Ny / 2
    ensures 0 <= o.0 < pl.P && 0 <= o.1 < pl.ListSize()
    ensures Row(pl, o.0, o.1) == (x, y)
  {
    var ox := LadderOwner(pl.Nx / 2, pl.px, x);
    var oy := LadderOwner(pl.Ny / 2, pl.Py(), y);
    OwnerRow(pl, x, y, ox, oy);
    (LinearRank(ox.0, oy.0, pl.Py()), pl.RowsY() * ox.1 + oy.1)
  }

  /** The pair built from the owners of x and y along the two axes is a filled
      row of a rank in [0, P), and that row holds (x, y). */
  lemma OwnerRow(pl: Plane, x: int, y: int, ox: (int, int), oy: (int, int))
    requires pl.Valid() && pl.Ny >= 2
    requires 0 <= x < pl.Nx / 2 && 0 <= y < pl.Ny / 2
    requires ox == LadderOwner(pl.Nx / 2, pl.px, x) && oy == LadderOwner(pl.Ny / 2, pl.Py(), y)
    ensures 0 <= LinearRank(ox.0, oy.0, pl.Py()) < pl.P
    ensures 0 <= pl.RowsY() * ox.1 + oy.1 < pl.ListSize()
    ensures Row(pl, LinearRank(ox.0, oy.0, pl.Py()), pl.RowsY() * ox.1 + oy.1) == (x, y)
  {
    var py, nx, ny := pl.Py(), pl.RowsX(), pl.RowsY();
    assert pl.P == pl.px * py && nx * ny == pl.ListSize()
      && (pl.Nx / 2) / pl.px == nx && (pl.Ny / 2) / py == ny by {
      PlaneShape(pl);
    }
    assert 0 <= ox.0 < pl.px && 0 <= ox.1 < nx && LadderAt(pl.Nx / 2, pl.px, ox.0, ox.1) == x by {
      LadderOwnerHolds(pl.Nx / 2, pl.px, x);
    }
    assert 0 <= oy.0 < py && 0 <= oy.1 < ny && LadderAt(pl.Ny / 2, py, oy.0, oy.1) == y by {
      LadderOwnerHolds(pl.Ny / 2, py, y);
    }
    GridCell(pl.px, py, pl.P, nx, ny, ox.0, oy.0, ox.1, oy.1);
    RowOfLadders(pl, LinearRank(ox.0, oy.0, py), ox.1, oy.1);
  }

  /** Grid cell (a, b) of a p1-by-p2 process grid is a rank in [0, P) that
      maps back to (a, b), and slot (i, j) of an nx-by-ny slice is a row
      below nx*ny. */
  lemma GridCell(p1: int, p2: int, P: int, nx: int, ny: int, a: int, b: int, i: int, j: int)
    requires P == p1 * p2 && 0 <= a < p1 && 0 <= b < p2 && 0 <= i < nx && 0 <= j < ny
    ensures 0 <= LinearRank(a, b, p2) < P && GetRank(LinearRank(a, b, p2), p2) == (a, b)
    ensures 0 <= ny * i + j < nx * ny
  {
    DivModUnique(P, p2, p1, 0);
    GetRankOfLinear(a, b, P, p2);
    SlotBelow(ny, nx, i, j);
    assert ny * nx == nx * ny;
  }

  /** Exactly once: a filled row of a rank is owned by that very rank and row,
      so no pair appears twice in the table. */
  lemma RowOwnerUnique(pl: Plane, rank: int, k: int)
    requires pl.Valid() && pl.Ny >= 2 && 0 <= rank < pl.P && 0 <= k < pl.ListSize()
    ensures 0 <= Row(pl, rank, k).0 < pl.Nx / 2 && 0 <= Row(pl, rank, k).1 < pl.Ny / 2
    ensures RowOwner(pl, Row(pl, rank, k).0, Row(pl, rank, k).1) == (rank, k)
  {
    RowInBox(pl, rank, k);
    RowSlots(pl, rank, k);
    var py, ny := pl.Py(), pl.RowsY();
    var c := GetRank(rank, py);
    var i, j := k / ny, k % ny;
    LadderOwnerUnique(pl.Nx / 2, pl.px, c.0, i);
    LadderOwnerUnique(pl.Ny / 2, py, c.1, j);
    assert Row(pl, rank, k) == (Ladder(pl.Nx / 2, pl.px, c.0)[i], Ladder(pl.Ny / 2, py, c.1)[j]);
  }

  /** Two filled rows of the table (of any ranks) hold the same pair only if they are the same row. */
  lemma RowsDistinct(pl: Plane, r1: int, k1: int, r2: int, k2: int)
    requires pl.Valid() && pl.Ny >= 2
    requires 0 <= r1 < pl.P && 0 <= k1 < pl.ListSize()
    requires 0 <= r2 < pl.P && 0 <= k2 < pl.ListSize()
    requires Row(pl, r1, k1) == Row(pl, r2, k2)
    ensures r1 == r2 && k1 == k2
  {
    RowOwnerUnique(pl, r1, k1);
    RowOwnerUnique(pl, r2, k2);
  }

  /** The configuration checks `main` performs before any work: px <= P,
      (Nx/2) % px == 0 and (N2/2) % (P/px) == 0, where N2 is Ny (Nz for 2-D
      fields); px >= 1 is taken for granted. */
  predicate MainAccepts(pl: Plane)
  {
    pl.px >= 1 && pl.px <= pl.P && (pl.Nx / 2) % pl.px == 0 && (pl.Ny / 2) % (pl.P / pl.px) == 0
  }

  /** The configurations the model accepts are among those `main` accepts. */
  lemma ValidIsAccepted(pl: Plane)
    requires pl.Valid()
    ensures MainAccepts(pl)
  {
    PlaneShape(pl);
    if pl.px > pl.P {
      MulMonotone(pl.px, 1, pl.Py());
    }
  }

  /** `main` accepts Nx = 12, Ny = 4, P = px = 2, yet the x-ladder has 6/2 = 3
      slots and iteration i = 2 writes its mirror to slot 3. */
  lemma OddLadderAccepted()
    ensures MainAccepts(Plane(12, 4, 2, 2))
    ensures 2 % 2 == 0 && 2 < (12 / 2) / 2 && !MirrorWriteInBounds(12 / 2, 2, 2)
  {
  }

  /** `main` accepts Nx = Ny = 9 on one rank, yet the table has 20 rows of which
      only nx*ny = 16 are written; the kernels still read all 20. */
  lemma OddExtentLeavesRowsUnset()
    ensures MainAccepts(Plane(9, 9, 1, 1))
    ensures Plane(9, 9, 1, 1).ListSize() == 20
    ensures Plane(9, 9, 1, 1).RowsX() * Plane(9, 9, 1, 1).RowsY() == 16
  {
  }

  /** `main` accepts Nx = Ny = 8 on P = 3 ranks with px = 2 (P % px != 0), yet
      each rank writes nx*ny = 8 rows into a 5-row table, and rank 2 gets the
      x-rank 2, outside [0, px). */
  lemma UnevenGridOverruns()
    ensures MainAccepts(Plane(8, 8, 3, 2))
    ensures Plane(8, 8, 3, 2).ListSize() == 5
    ensures Plane(8, 8, 3, 2).RowsX() * Plane(8, 8, 3, 2).RowsY() == 8
    ensures GetRank(2, 3 / 2).0 == 2
  {
  }
}
