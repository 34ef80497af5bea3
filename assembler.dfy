/** Result assembly on the coordinator (rank 0): the result grids that
    `resize_SFs` shapes and zeroes, the gather of one value per rank into
    arrays of length P, the scatter of the gathered (index, order, value)
    tuples into a grid, and the final zeroing of the zero-displacement cell. */
module Assembler {

  /** The grid cell a sequence of (cell, value) writes leaves behind, starting
      from `prior`: the value of the last write to `c`, if any. */
  function Scattered<K(==)>(entries: seq<(K, real)>, c: K, prior: real): real
  {
    if |entries| == 0 then prior
    else if entries[|entries| - 1].0 == c then entries[|entries| - 1].1
    else Scattered(entries[..|entries| - 1], c, prior)
  }

  /** A cell written by exactly one of the writes holds that write's value. */
  lemma {:induction false} ScatteredHit<K>(entries: seq<(K, real)>, j: int, c: K, prior: real)
    requires 0 <= j < |entries| && entries[j].0 == c
    requires forall i :: 0 <= i < |entries| && i != j ==> entries[i].0 != c
    ensures Scattered(entries, c, prior) == entries[j].1
  {
    var n := |entries|;
    if j < n - 1 {
      ScatteredHit(entries[..n - 1], j, c, prior);
    }
  }

  /** A cell no write names keeps its prior value. */
  lemma {:induction false} ScatteredMiss<K>(entries: seq<(K, real)>, c: K, prior: real)
    requires forall i :: 0 <= i < |entries| ==> entries[i].0 != c
    ensures Scattered(entries, c, prior) == prior
  {
    if |entries| > 0 {
      ScatteredMiss(entries[..|entries| - 1], c, prior);
    }
  }

  predicate DistinctCells<K(==)>(entries: seq<(K, real)>)
  {
    forall i, j :: 0 <= i < |entries| && 0 <= j < |entries| && entries[i].0 == entries[j].0 ==> i == j
  }

  /** When no two writes of a round name the same cell, the grid does not
      depend on the order of the gather slots: any arrangement of the same
      writes leaves the same value in every cell. */
  lemma ScatterOrderIrrelevant<K>(e1: seq<(K, real)>, e2: seq<(K, real)>, c: K, prior: real)
    requires DistinctCells(e1) && DistinctCells(e2)
    requires forall w :: w in e1 <==> w in e2
    ensures Scattered(e1, c, prior) == Scattered(e2, c, prior)
  {
    if j :| 0 <= j < |e1| && e1[j].0 == c {
      assert e1[j] in e2;
      var i :| 0 <= i < |e2| && e2[i] == e1[j];
      ScatteredHit(e1, j, c, prior);
      ScatteredHit(e2, i, c, prior);
    } else {
      forall i | 0 <= i < |e2| ensures e2[i].0 != c {
        assert e2[i] in e1;
      }
      ScatteredMiss(e1, c, prior);
      ScatteredMiss(e2, c, prior);
    }
  }

  /** `MPI_Gather` of one value per rank to the root: slot i of the root's
      buffer holds the contribution of rank i. */
  method Gather<T(0)>(contrib: seq<T>) returns (buf: array<T>)
    ensures fresh(buf)
    ensures buf[..] == contrib
  {
    buf := new T[|contrib|];
    for i := 0 to |contrib|
      invariant forall k :: 0 <= k < i ==> buf[k] == contrib[k]
    {
      buf[i] := contrib[i];
    }
  }

  /** The writes of one 3-D round as the coordinator issues them. */
  function Entries4(X: seq<int>, Y: seq<int>, Z: seq<int>, pArr: seq<int>, S: seq<real>): (e: seq<((int, int, int, int), real)>)
    requires |X| == |Y| == |Z| == |pArr| == |S|
  {
    seq(|X|, i requires 0 <= i < |X| => ((X[i], Y[i], Z[i], pArr[i]), S[i]))
  }

  /** The writes of one 2-D round. */
  function Entries3(X: seq<int>, Z: seq<int>, pArr: seq<int>, S: seq<real>): (e: seq<((int, int, int), real)>)
    requires |X| == |Z| == |pArr| == |S|
  {
    seq(|X|, i requires 0 <= i < |X| => ((X[i], Z[i], pArr[i]), S[i]))
  }

  /** `for i < P: SF_Grid(X(i), Y(i), Z(i), p_arr(i)) = S_arr(i)`: every cell
      ends up as the last gathered write to it, or unchanged. */
  method Scatter4(grid: array4<real>, X: array<int>, Y: array<int>, Z: array<int>, pArr: array<int>, S: array<real>)
    requires X.Length == Y.Length == Z.Length == pArr.Length == S.Length
    requires forall i :: 0 <= i < X.Length ==>
      0 <= X[i] < grid.Length0 && 0 <= Y[i] < grid.Length1 && 0 <= Z[i] < grid.Length2 && 0 <= pArr[i] < grid.Length3
    modifies grid
    ensures forall a, b, c, d :: 0 <= a < grid.Length0 && 0 <= b < grid.Length1 && 0 <= c < grid.Length2 && 0 <= d < grid.Length3 ==>
      grid[a, b, c, d] == Scattered(Entries4(X[..], Y[..], Z[..], pArr[..], S[..]), (a, b, c, d), old(grid[a, b, c, d]))
  {
    ghost var e := Entries4(X[..], Y[..], Z[..], pArr[..], S[..]);
    for i := 0 to X.Length
      invariant e == Entries4(X[..], Y[..], Z[..], pArr[..], S[..])
      invariant forall a, b, c, d :: 0 <= a < grid.Length0 && 0 <= b < grid.Length1 && 0 <= c < grid.Length2 && 0 <= d < grid.Length3 ==>
        grid[a, b, c, d] == Scattered(e[..i], (a, b, c, d), old(grid[a, b, c, d]))
    {
      grid[X[i], Y[i], Z[i], pArr[i]] := S[i];
      assert e[..i + 1][..i] == e[..i];
    }
    assert e[..X.Length] == e;
  }

  /** `for i < P: SF_Grid2D(X(i), Z(i), p_arr(i)) = S_arr(i)`. */
  method Scatter3(grid: array3<real>, X: array<int>, Z: array<int>, pArr: array<int>, S: array<real>)
    requires X.Length == Z.Length == pArr.Length == S.Length
    requires forall i :: 0 <= i < X.Length ==>
      0 <= X[i] < grid.Length0 && 0 <= Z[i] < grid.Length1 && 0 <= pArr[i] < grid.Length2
    modifies grid
    ensures forall a, b, d :: 0 <= a < grid.Length0 && 0 <= b < grid.Length1 && 0 <= d < grid.Length2 ==>
      grid[a, b, d] == Scattered(Entries3(X[..], Z[..], pArr[..], S[..]), (a, b, d), old(grid[a, b, d]))
  {
    ghost var e := Entries3(X[..], Z[..], pArr[..], S[..]);
    for i := 0 to X.Length
      invariant e == Entries3(X[..], Z[..], pArr[..], S[..])
      invariant forall a, b, d :: 0 <= a < grid.Length0 && 0 <= b < grid.Length1 && 0 <= d < grid.Length2 ==>
        grid[a, b, d] == Scattered(e[..i], (a, b, d), old(grid[a, b, d]))
    {
      grid[X[i], Z[i], pArr[i]] := S[i];
      assert e[..i + 1][..i] == e[..i];
    }
    assert e[..X.Length] == e;
  }

  /** `resize_SFs` for 3-D fields: an (Nx/2, Ny/2, Nz/2, q2-q1+1) grid set to 0. */
  method NewGrid4(n0: nat, n1: nat, n2: nat, n3: nat) returns (grid: array4<real>)
    ensures fresh(grid)
    ensures grid.Length0 == n0 && grid.Length1 == n1 && grid.Length2 == n2 && grid.Length3 == n3
    ensures forall a, b, c, d :: 0 <= a < n0 && 0 <= b < n1 && 0 <= c < n2 && 0 <= d < n3 ==> grid[a, b, c, d] == 0.0
  {
    grid := new real[n0, n1, n2, n3];
    forall a, b, c, d | 0 <= a < n0 && 0 <= b < n1 && 0 <= c < n2 && 0 <= d < n3 {
      grid[a, b, c, d] := 0.0;
    }
  }

  /** `resize_SFs` for 2-D fields: an (Nx/2, Nz/2, q2-q1+1) grid set to 0. */
  method NewGrid3(n0: nat, n1: nat, n2: nat) returns (grid: array3<real>)
    ensures fresh(grid)
    ensures grid.Length0 == n0 && grid.Length1 == n1 && grid.Length2 == n2
    ensures forall a, b, d :: 0 <= a < n0 && 0 <= b < n1 && 0 <= d < n2 ==> grid[a, b, d] == 0.0
  {
    grid := new real[n0, n1, n2];
    forall a, b, d | 0 <= a < n0 && 0 <= b < n1 && 0 <= d < n2 {
      grid[a, b, d] := 0.0;
    }
  }

  /** `SF_Grid(0, 0, 0, Range::all()) = 0`: the zero-displacement cell is 0 for
      every order; every other cell is unchanged. */
  method ZeroOrigin4(grid: array4<real>)
    requires grid.Length0 >= 1 && grid.Length1 >= 1 && grid.Length2 >= 1
    modifies grid
    ensures forall a, b, c, d :: 0 <= a < grid.Length0 && 0 <= b < grid.Length1 && 0 <= c < grid.Length2 && 0 <= d < grid.Length3 ==>
      grid[a, b, c, d] == if a == 0 && b == 0 && c == 0 then 0.0 else old(grid[a, b, c, d])
  {
    forall d | 0 <= d < grid.Length3 {
      grid[0, 0, 0, d] := 0.0;
    }
  }

  /** `SF_Grid2D(0, 0, Range::all()) = 0`. */
  method ZeroOrigin3(grid: array3<real>)
    requires grid.Length0 >= 1 && grid.Length1 >= 1
    modifies grid
    ensures forall a, b, d :: 0 <= a < grid.Length0 && 0 <= b < grid.Length1 && 0 <= d < grid.Length2 ==>
      grid[a, b, d] == if a == 0 && b == 0 then 0.0 else old(grid[a, b, d])
  {
    forall d | 0 <= d < grid.Length2 {
      grid[0, 0, d] := 0.0;
    }
  }
}
