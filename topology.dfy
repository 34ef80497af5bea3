/** Process topology: a linear MPI rank seen as a cell of a px-by-py process grid,
    row-major (the y-rank varies fastest). */
module Topology {
  import opened Arith

  /** `get_rank`: splits `rank` into (x-rank, y-rank) for `py` processes along y.
      The result is the row-major decomposition of `rank`. */
  function GetRank(rank: int, py: int): (c: (int, int))
    requires rank >= 0 && py > 0
    ensures c.0 >= 0 && 0 <= c.1 < py
    ensures c.0 * py + c.1 == rank
  {
    var ranky := rank % py;
    DivModUnique(rank - ranky, py, rank / py, 0);
    ((rank - ranky) / py, ranky)
  }

  /** The inverse direction: the linear rank of grid cell (rankx, ranky). */
  function LinearRank(rankx: int, ranky: int, py: int): int
  {
    rankx * py + ranky
  }

  /** For `0 <= rank < P` with `py` dividing `P`, the x-rank lies below `P/py`:
      every rank lands inside the px-by-py grid. */
  lemma GetRankInGrid(rank: int, P: int, py: int)
    requires py > 0 && P % py == 0 && 0 <= rank < P
    ensures 0 <= GetRank(rank, py).0 < P / py
    ensures 0 <= GetRank(rank, py).1 < py
  {
    var c := GetRank(rank, py);
    DivModUnique(P, py, P / py, 0);
    if c.0 >= P / py {
      MulMonotone(py, P / py, c.0);
    }
  }

  /** Round trip grid cell -> linear rank -> grid cell, and the linear rank lies in [0, P). */
  lemma GetRankOfLinear(rankx: int, ranky: int, P: int, py: int)
    requires py > 0 && P % py == 0
    requires 0 <= rankx < P / py && 0 <= ranky < py
    ensures 0 <= LinearRank(rankx, ranky, py) < P
    ensures GetRank(LinearRank(rankx, ranky, py), py) == (rankx, ranky)
  {
    var r := LinearRank(rankx, ranky, py);
    assert r == py * rankx + ranky;
    assert 0 <= r < P by {
      SlotBelow(py, P / py, rankx, ranky);
      assert py * (P / py) == P;
    }
    var c := GetRank(r, py);
    DivModUnique(r, py, rankx, ranky);
    DivModUnique(r, py, c.0, c.1);
  }
}
