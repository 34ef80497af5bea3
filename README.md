# fastSF structure-function kernels in Dafny

fastSF computes velocity and scalar structure functions of a turbulent field
on a regular grid. For every displacement `l = (x*dx, y*dy, z*dz)`
with `0 <= x < Nx/2`, `0 <= y < Ny/2`, `0 <= z < Nz/2`, it averages a power
`q` of the field differences between points `l` apart:

- the longitudinal increment `dU . l / |l|` for velocity fields;
- the transverse increment magnitude for velocity fields;
- the plain increment `dT` for scalar fields.

The work is spread over `P` MPI ranks laid out on a `px`-by-`P/px` process
grid. Each axis is dealt out as a "ladder":

- rank `r` takes indices `r, H-1-r, 2p+r, H-1-(2p+r), ...`;
- short and long displacements therefore alternate;
- every rank gets the same total amount of work.

Each rank walks its rows of a per-rank index table. For every order it
computes one moment, and rank 0 gathers the `P` moments and scatters them
into its result grid.

The project models that core of `src/fastSF.cc`:

| file | models |
|---|---|
| `topology.dfy` | `get_rank` |
| `partition.dfy` | the 1-D `compute_index_list`: the ladder, exact partition, balance |
| `enumerator.dfy` | the 3-D `compute_index_list`: the per-rank table, its coverage and uniqueness; the parameter checks of `main` |
| `overlap.dfy` | the overlap sub-arrays `F(i+l) - F(i)` and the sample count |
| `moments.dfy` | `sum(pow(d, q))/count` and the longitudinal/transverse split |
| `assembler.dfy` | `resize_SFs`, `MPI_Gather`, the scatter into the grid, the zeroing of the zero-displacement cell |
| `kernels.dfy` | the six drivers `SFunc3D`, `SFunc_long_3D`, `SFunc2D`, `SFunc_long_2D`, `SF_scalar_3D`, `SF_scalar_2D` |
| `validation.dfy` | what the drivers compute on the linear test fields that the built-in test cases use |
| `arith.dfy` | integer helper lemmas (division, products, row-major indices) |

The drivers are specified cell by cell. After a driver returns, every grid
cell other than the zero displacement holds the q-th moment of its own
difference field. This holds whatever the number of ranks. The proof runs
through four facts:

- the ladder partitions each axis;
- the table gives every cell exactly one (rank, row) owner;
- no two writes of one gather round hit the same cell;
- the rounds run in table-row order.

## Model

| member | source | states |
|---|---|---|
| Topology.GetRank | src/fastSF.cc:834-837 | the (x-rank, y-rank) pair is the row-major decomposition of the linear rank: y-rank in [0, py), `rankx*py + ranky == rank` |
| Topology.GetRankInGrid | src/fastSF.cc:834-837 | every rank below P lands inside the px-by-(P/py) grid when py divides P |
| Topology.GetRankOfLinear | src/fastSF.cc:834-837 | round trip: a grid cell's linear rank lies in [0, P) and `get_rank` maps it back to the same cell |
| Partition.ComputeIndexList | src/fastSF.cc:851-858 | the filled index list equals the ladder of `rank` (`rank + i*p` at even slots, its mirror `H-1-...` at odd slots); with one index per rank it is `[rank]` |
| Partition.LadderPair | src/fastSF.cc:854-857 | iteration i writes slot i as `rank + i*p` and, when p != H, slot i+1 as its mirror `H-1-(rank + i*p)`, inside the list |
| Partition.LadderSingle | src/fastSF.cc:852-855 | with one index per rank (p == H) the list is the single entry `rank` |
| Partition.MirrorWritesInBounds | src/fastSF.cc:854-857 | under the evenness the command-line checks are meant to give, the mirrored write `index_list(i+1)` stays inside the list |
| Partition.LadderInRange | src/fastSF.cc:851-858 | every entry of every rank's list is an index in [0, H) |
| Partition.LadderOwnerHolds | src/fastSF.cc:851-858 | every index v in [0, H) is at some slot of some rank's list |
| Partition.LadderOwnerUnique | src/fastSF.cc:851-858 | the (rank, slot) that holds an index is unique: the owner of a list entry is that entry's own rank and slot |
| Partition.OwnerOfEven | src/fastSF.cc:855 | the index written at an even slot 2j is owned by that rank and slot |
| Partition.OwnerOfOdd | src/fastSF.cc:857 | the mirrored index written at an odd slot 2j+1 is owned by that rank and slot |
| Partition.LadderPartition | src/fastSF.cc:851-858 | the lists of all p ranks together are exactly [0, H), and no index appears twice |
| Partition.AxisShape | src/fastSF.cc:852 | on a valid axis `H == p*(H/p)`, and H/p is 1 or even |
| Partition.LadderPrefixSum | src/fastSF.cc:854-857 | each pair of slots sums to H-1, so the first 2j entries sum to j*(H-1) |
| Partition.LadderBalanced | src/fastSF.cc:854-857 | load balance: every rank's indices sum to the same value (H/p/2)*(H-1) |
| Enumerator.PlaneShape | src/fastSF.cc:875-883 | for a valid configuration, `P == px*py`, the two ladders have nx and ny entries, and the nx-by-ny block per rank has exactly `list_size = Nx*Ny/(4P)` rows |
| Enumerator.EvenExtentsFill | src/fastSF.cc:875-883 | with both extents even (and px dividing P, ladders well formed), `Nx*Ny/(4P) == nx*ny`, so the configuration is valid |
| Enumerator.NinePointGridValid | src/fastSF.cc:875-883 | the odd 9x9 grid on P=8, px=2 passes `main` and is valid: its list_size of 2 equals nx*ny, so every row is filled |
| Enumerator.BuildTable | src/fastSF.cc:874-895 | the table is `(list_size, 2, P)` and row `ny*i + j` of rank r is `(x(i), y(j))` from r's two ladders |
| Enumerator.FillSlice | src/fastSF.cc:886-894 | one pass of the rank loop fills all `list_size` rows of that rank's slice with its rows and leaves every other rank's slice unchanged |
| Enumerator.AssignRange | src/fastSF.cc:891-892 | the two range assignments set rows `ny*i .. ny*i+ny-1` of the rank's slice to `x(i)` and to `y(0) .. y(ny-1)`; no other cell changes |
| Enumerator.SliceShape | src/fastSF.cc:878-883 | a rank below P sits inside the px-by-py grid, its ladders have nx and ny entries, and `ny*nx == list_size` |
| Enumerator.SlotRows | src/fastSF.cc:890-892 | rows `ny*i .. ny*i+ny-1` of a rank are `(x(i), y(k - ny*i))`, the rows the table must hold |
| Enumerator.RowOfLadders | src/fastSF.cc:890-892 | row `ny*i + j` of a rank pairs entry i of its x-ladder with entry j of its y-ladder |
| Enumerator.RowInBox | src/fastSF.cc:886-893 | every table row names a displacement inside the (Nx/2, Ny/2) result box |
| Enumerator.RowOwner | src/fastSF.cc:886-893 | coverage: every displacement of the box is some rank's table row |
| Enumerator.RowOwnerUnique | src/fastSF.cc:886-893 | the owner of a table row's displacement is that row's own (rank, row index) |
| Enumerator.RowsDistinct | src/fastSF.cc:886-893 | no two (rank, row) pairs name the same displacement |
| Enumerator.ValidIsAccepted | src/fastSF.cc:500-532 | every configuration the model calls valid passes the checks of `main` |
| Enumerator.OddLadderAccepted | src/fastSF.cc:508-532 | `main` accepts Nx=12, px=2 although the ladder's mirrored write falls outside the 3-entry list |
| Enumerator.OddExtentLeavesRowsUnset | src/fastSF.cc:875-893 | `main` accepts a 9x9 grid on one rank; the table has 20 rows, but only 16 are filled |
| Enumerator.UnevenGridOverruns | src/fastSF.cc:500-532 | `main` accepts Nx=Ny=8 on P=3, px=2; each rank then writes nx*ny = 8 rows into a 5-row table, and `get_rank` gives rank 2 an x-rank of 2, outside the two-column grid |
| Overlap.Diff2D | src/fastSF.cc:2040 | the difference array has extents (Nx-x, Nz-z); entry (i, k) is `F(i+x, k+z) - F(i, k)`; its row-major contents are the difference field |
| Overlap.Diff3D | src/fastSF.cc:1653-1655 | the 3-D difference array has extents (Nx-x, Ny-y, Nz-z); entry (i,j,k) is `F(i+x, j+y, k+z) - F(i,j,k)` |
| Overlap.FlattenDiff2 | src/fastSF.cc:2040 | an array holding the pointwise differences flattens, row-major, to the difference field |
| Overlap.FlattenDiff3 | src/fastSF.cc:1653-1655 | the same for 3-D arrays |
| Overlap.OverlapCount2 | src/fastSF.cc:2038 | the 2-D field has `count = (Nx-x)*(Nz-z)` samples, and this is positive, so the division by `count` is defined |
| Overlap.OverlapCount3 | src/fastSF.cc:1647 | the 3-D field has `count = (Nx-x)*(Ny-y)*(Nz-z)` samples, positive |
| Overlap.Wrap32 | src/fastSF.cc:1647 | C `int` reduction: the result is in the 32-bit range and congruent to the input modulo 2^32 |
| Overlap.Count32Overflows | src/fastSF.cc:1647 | on a 2048^3 grid at displacement (0,0,1), the `int` count is -4194304, while the true count is 8585740288 |
| Overlap.Count32Agrees | src/fastSF.cc:1647 | the 32-bit count equals the true one whenever the product fits in `int` |
| Moments.SumPowConstant | src/fastSF.cc:2043 | a field of identical samples c has `sum(pow(d, q)) == n * c^q` |
| Moments.MeanPowConstant | src/fastSF.cc:2043 | a non-empty field of identical samples c has q-th moment `c^q` |
| Moments.PowZero | src/fastSF.cc:1669 | a zero increment has zero moment for every non-zero order |
| Moments.Decomposition | src/fastSF.cc:1658-1665 | the split is orthogonal: longitudinal^2 + transverse^2 == the squared increment, and the transverse part is orthogonal to l |
| Moments.AlignedIncrement | src/fastSF.cc:1658-1665 | an increment equal to the displacement has longitudinal part r and transverse part 0 |
| Moments.ConstantSamples | src/fastSF.cc:1658-1665 | a field of identical increments has identical longitudinal and transverse samples, namely those of the one increment |
| Moments.AlignedSamples | src/fastSF.cc:1658-1665 | when every increment equals the displacement, every longitudinal sample is the length r and every transverse sample is 0 |
| Assembler.ScatteredHit | src/fastSF.cc:1690-1693 | a cell written by exactly one gathered write holds that write's value |
| Assembler.ScatteredMiss | src/fastSF.cc:1690-1693 | a cell no gathered write names keeps its prior value |
| Assembler.ScatterOrderIrrelevant | src/fastSF.cc:1690-1693 | when a round's writes name distinct cells, the order of the gather slots does not change the grid |
| Assembler.Gather | src/fastSF.cc:1682-1687 | the root's buffer holds rank i's contribution at slot i |
| Assembler.Scatter4 | src/fastSF.cc:1690-1693 | every 4-D cell ends as the last gathered write to it, or unchanged |
| Assembler.Scatter3 | src/fastSF.cc:1856-1859 | every 3-D cell ends as the last gathered write to it, or unchanged |
| Assembler.NewGrid4 | src/fastSF.cc:684-694 | a fresh (Nx/2, Ny/2, Nz/2, q2-q1+1) grid, all zero |
| Assembler.NewGrid3 | src/fastSF.cc:699-709 | a fresh (Nx/2, Nz/2, q2-q1+1) grid, all zero |
| Assembler.ZeroOrigin4 | src/fastSF.cc:1700-1701 | the zero-displacement cell is 0 for every order; every other cell is unchanged |
| Assembler.ZeroOrigin3 | src/fastSF.cc:1864-1865 | the 2-D counterpart |
| Kernels.Round3 | src/fastSF.cc:1849-1859 | one 2-D gather round sets exactly the cells of order p whose owner row is ix, each to its owner rank's value |
| Kernels.Round4 | src/fastSF.cc:1682-1693 | one 3-D gather round sets exactly the cells (., ., z, p) whose owner row is ix, each to its owner rank's value |
| Kernels.RoundCell3 | src/fastSF.cc:1856-1859 | a cell after a 2-D round: its owner rank's value if its owner row is ix and its order is p, its prior value otherwise |
| Kernels.RoundCell4 | src/fastSF.cc:1690-1693 | a cell after a 3-D round: its owner rank's value if its owner row is ix, its plane z and its order p, its prior value otherwise |
| Kernels.RoundCellsDistinct3 | src/fastSF.cc:1849-1859 | the P writes of one 2-D round name pairwise distinct cells |
| Kernels.RoundCellsDistinct4 | src/fastSF.cc:1682-1693 | the P writes of one 3-D round name pairwise distinct cells |
| Kernels.RankRows | src/fastSF.cc:1638-1639 | each rank's `(index_list(ix,0,rank), index_list(ix,1,rank))` is its row ix and lies in the result box |
| Kernels.CutIncrements2 | src/fastSF.cc:1827-1828 | the increments cut from the arrays are the 2-D field's increments for (x, z) |
| Kernels.CutIncrements3 | src/fastSF.cc:1653-1655 | the increments cut from the arrays are the 3-D field's increments for (x, y, z) |
| Kernels.SplitRanks2 | src/fastSF.cc:1825-1833 | rank j's longitudinal and transverse samples are those of its own displacement |
| Kernels.PllRanks2 | src/fastSF.cc:1905-1909 | rank j's longitudinal samples are those of its own displacement |
| Kernels.SplitRanks3 | src/fastSF.cc:1652-1665 | the 3-D counterpart of SplitRanks2 |
| Kernels.PllRanks3 | src/fastSF.cc:1748-1752 | the 3-D counterpart of PllRanks2 |
| Kernels.PllRound2 | src/fastSF.cc:1836-1859 | one round of order p sets each cell owned by row ix to the longitudinal moment of that cell's own displacement |
| Kernels.PerpRound2 | src/fastSF.cc:1837-1859 | the same for the transverse moment |
| Kernels.PllRound3 | src/fastSF.cc:1668-1693 | the 3-D counterpart of PllRound2, at plane z |
| Kernels.PerpRound3 | src/fastSF.cc:1669-1693 | the 3-D counterpart of PerpRound2, at plane z |
| Kernels.ScalarRow2 | src/fastSF.cc:2033-2063 | after table row ix, the cells owned by row ix hold their scalar moments for every order; all others are unchanged; q2-q1+1 rounds |
| Kernels.SFScalar2D | src/fastSF.cc:2021-2069 | afterwards every cell except the zero displacement holds the q-th moment of the scalar differences at its own displacement; the origin is 0; `p_per_proc*(q2-q1+1)` rounds |
| Kernels.ScalarSlab3 | src/fastSF.cc:1966-2002 | after row ix and plane z, the cells at z owned by row ix hold their scalar moments; all others are unchanged |
| Kernels.ScalarRow3 | src/fastSF.cc:1965-2005 | after row ix, the cells owned by row ix hold their scalar moments at every z and order; all others are unchanged; `(Nz/2)*(q2-q1+1)` rounds |
| Kernels.SFScalar3D | src/fastSF.cc:1952-2011 | the 3-D scalar grid holds the moment of every non-zero displacement, the origin is 0, `c_per_proc*(Nz/2)*(q2-q1+1)` rounds |
| Kernels.VectorRow2 | src/fastSF.cc:1816-1861 | after row ix, the cells owned by row ix hold their longitudinal and transverse moments; all others are unchanged |
| Kernels.SFunc2D | src/fastSF.cc:1800-1868 | both 2-D grids hold the longitudinal and transverse moments of every non-zero displacement; the origin is 0 |
| Kernels.LongRow2 | src/fastSF.cc:1895-1933 | after row ix, the cells owned by row ix hold their longitudinal moments |
| Kernels.SFuncLong2D | src/fastSF.cc:1879-1939 | the 2-D longitudinal grid holds the moment of every non-zero displacement; the origin is 0 |
| Kernels.VectorSlab3 | src/fastSF.cc:1640-1697 | after row ix and plane z, the owned cells at z hold their longitudinal and transverse moments |
| Kernels.VectorRow3 | src/fastSF.cc:1637-1698 | after row ix, the cells owned by row ix hold their longitudinal and transverse moments at every z; all others are unchanged |
| Kernels.ThinGridAccepted | src/fastSF.cc:500-533 | `main` accepts an 8x8x1 field on one rank and its table is valid, yet the grid's z extent Nz/2 is 0, so the origin write has no cell |
| Kernels.OriginInGrid3 | src/fastSF.cc:1700-1701 | with every extent at least 2, the origin cell `(0, 0, 0)` that the 3-D drivers zero lies inside the result grid |
| Kernels.OriginInGrid2 | src/fastSF.cc:1864-1865 | the 2-D counterpart: the origin cell `(0, 0)` lies inside the 2-D result grid |
| Kernels.SFunc3D | src/fastSF.cc:1620-1703 | both 3-D grids hold the moments of every non-zero displacement; the origin is 0; `c_per_proc*(Nz/2)*(q2-q1+1)` rounds |
| Kernels.LongSlab3 | src/fastSF.cc:1736-1780 | after row ix and plane z, the owned cells at z hold their longitudinal moments |
| Kernels.LongRow3 | src/fastSF.cc:1733-1781 | after row ix, the cells owned by row ix hold their longitudinal moments at every z; all others are unchanged |
| Kernels.SFuncLong3D | src/fastSF.cc:1715-1786 | the 3-D longitudinal grid holds the moment of every non-zero displacement; the origin is 0 |
| Validation.LinearDiff2 | src/fastSF.cc:1574 | for the linear test field `T = i*dx + k*dz`, every difference at displacement (x, z) equals `x*dx + z*dz` |
| Validation.LinearDiff3 | src/fastSF.cc:1599 | for `T = i*dx + j*dy + k*dz`, every difference equals `x*dx + y*dy + z*dz` |
| Validation.LinearStep3 | src/fastSF.cc:1599 | one pointwise difference of a linear 3-D field is the displacement's linear value |
| Validation.LinearScalar2 | src/fastSF.cc:1130-1131 | on the 2-D scalar test field, the moment is `pow(lx+lz, q)`, the value the test compares against |
| Validation.LinearScalar3 | src/fastSF.cc:1187-1188 | on the 3-D scalar test field, the moment is `pow(lx+ly+lz, q)` |
| Validation.LinearIncrements2 | src/fastSF.cc:1549-1550 | on the velocity test field `U = (i*dx, k*dz)`, every increment equals the displacement vector |
| Validation.ConstantIncrements2 | src/fastSF.cc:1549-1550 | constant component differences give the constant increment `(cx, 0, cz)` |
| Validation.ConstantIncrements3 | src/fastSF.cc:1520-1523 | constant component differences give constant increments |
| Validation.LinearIncrements3 | src/fastSF.cc:1520-1523 | on `U = (i*dx, j*dy, k*dz)`, every increment equals the displacement vector |
| Validation.LinearVelocity2 | src/fastSF.cc:1066-1072 | on the 2-D velocity test field, the longitudinal moment is `|l|^q` and the transverse one is `0^q`: 0 for q != 0, as the test expects, but 1 at order 0, where the test also expects 0 |
| Validation.LinearVelocity3 | src/fastSF.cc:968-974 | the 3-D counterpart: longitudinal moment `|l|^q`, transverse moment `0^q` (0 for q != 0, 1 at order 0) |
| Validation.LinearScalarRun2 | src/fastSF.cc:1118-1135 | `SF_scalar_2D` on the 2-D scalar test field leaves `pow(lx+lz, q)` in every cell but the origin, which holds 0: the values `SCALAR_TEST_CASE_2D` accepts |
| Validation.LinearScalarRun3 | src/fastSF.cc:1178-1192 | `SF_scalar_3D` on the 3-D scalar test field leaves `pow(lx+ly+lz, q)` in every cell but the origin, which holds 0 |

## Left out

- MPI: the ranks run in lock-step inside one sequential program. Each round computes every rank's contribution and then gathers them. Communication failures, timing and process placement are not modelled.
- In the vector drivers the longitudinal and transverse values of one round are gathered and scattered as two consecutive rounds, one per grid. The grids are distinct arrays, so the final contents are the same.
- HDF5 input and output (`read_2D`, `read_3D`, `write_SFs`), YAML and command-line parsing, timing and console messages are left out. Fields are parameters and grids are the results.
- Floating point: moments are computed in exact real arithmetic. `sqrt` and `pow(.., 0.5)` are the parameter `root`, constrained only where a lemma says so, and the summation order of `sum` does not matter in the model.
- Moments.Pow: a zero base with a negative order gives 0, where IEEE `pow` gives infinity. For negative orders, a difference field with a zero sample has an infinite moment in the source and a finite one in the model.
- Moments.Longitudinal: at r == 0 the model yields 0; the source divides by zero there (NaN). For positive dx, dy and dz only the origin has r == 0, and the drivers overwrite it with 0; the model does not constrain the spacings, and for other spacings a non-origin displacement can also have r == 0.
- Kernels.SFScalar2D, Kernels.SFScalar3D, Kernels.SFunc2D, Kernels.SFuncLong2D, Kernels.SFunc3D, Kernels.SFuncLong3D: require every extent to be at least 2 (Nx, Ny, Nz in 3-D; Nx, Nz in 2-D). `main` accepts an extent of 1 (Nz is never checked, and `Nx/2 % px == 0` holds when Nx/2 is 0). The result grid then has an empty axis, and the origin writes at src/fastSF.cc:1700-1701, 1784, 2007, 1864-1865, 1936 and 2067 fall outside it. That run indexes out of bounds (see Findings), so it is not modelled as a run.
- Enumerator.ValidIsAccepted: states only that the modelled validity implies the checks of `main`. The model additionally requires `px >= 1`, `P % px == 0` and `list_size == nx*ny`, which `main` does not check (see Findings). The last clause excludes only the grids whose table would have unfilled rows, such as 9x9 on one rank (20 rows, 16 filled). Odd grids where list_size equals nx*ny, such as 9x9 on P=8, px=2 (NinePointGridValid), are valid, and all even grids are (EvenExtentsFill).
- Kernels.SFScalar2D, Kernels.SFScalar3D, Kernels.SFunc2D, Kernels.SFuncLong2D, Kernels.SFunc3D, Kernels.SFuncLong3D: each moment is divided by the exact sample count. The source's `int count` (src/fastSF.cc:1647, 1742, 1822, 1901, 1971, 2038) overflows 32 bits on large grids (see Findings), so there the drivers state what the source evidently intends, not what it computes.
- Validation.LinearVelocity2, Validation.LinearVelocity3: the vector tests expect a transverse value of 0 at every order (src/fastSF.cc:974, 1072), but at order 0 the transverse moment is `pow(0, 0) = 1`, so with `q1 = 0` the source's own test reports an error of 1. The lemmas state the value 1 there.
- Partition.ComputeIndexList: requires `H/p` to be 1 or even. The odd case writes outside the list (see Findings) and is not modelled as a run.
- The test drivers' reporting (`test_switch`, the maximum relative error, the pass/fail message) is left out. Validation proves the exact values those tests compare against.
- `SF_scalar_3D` computes an unused distance `r`; it does not affect the result and is not modelled.
- The doc comment of `SCALAR_TEST_CASE_2D` describes the expected value as a square root of squares, but the code compares against `pow(lx+lz, q)` at src/fastSF.cc:1130-1131. The model follows the code.
- Kernels.SFScalar2D, Kernels.SFScalar3D, Kernels.SFunc2D, Kernels.SFuncLong2D, Kernels.SFunc3D, Kernels.SFuncLong3D: the round count is a ghost result, so it documents the rank-local work but is not compiled.
- `calc_SFs` (the dispatch on the field type and the flags) and `resize_SFs`'s choice among grids are not modelled. Each driver is stated separately.

## Findings

| source | as written | input that shows it | evidently intended | confidence | as-written member | corrected member |
|---|---|---|---|---|---|---|
| src/fastSF.cc:851-858 with 508-532 | `main` checks only that px divides Nx/2; the ladder then writes `index_list(i+1)` for every even i | Nx=12, Ny=4, P=2, px=2: the x-list has 3 entries and slot 3 is written | reject or handle an odd `Nx/2/px` (other than 1) | not executed | Enumerator.OddLadderAccepted | Partition.MirrorWritesInBounds |
| src/fastSF.cc:875-893 | `list_size = Nx*Ny/(4P)` while `nx*ny = (Nx/2/px)*(Ny/2/py)` rows are filled | Nx=Ny=9, P=px=1: 20 rows listed, 16 filled, 4 left undefined | list_size equal to the filled rows, `nx*ny` (which even extents guarantee) | not executed | Enumerator.OddExtentLeavesRowsUnset | Enumerator.PlaneShape |
| src/fastSF.cc:500-532 with 834-837 | `P % px` is never checked, so `py = P/px` truncates | Nx=Ny=8, P=3, px=2: list_size is 5, yet every rank writes nx*ny = 8 rows, and `get_rank(2, 1)` gives x-rank 2, outside the two columns | require px to divide P | not executed | Enumerator.UnevenGridOverruns | Topology.GetRankInGrid |
| src/fastSF.cc:500-533 with 1700-1701 | `main` never checks Nz, nor that any half-extent is non-zero | Nx=Ny=8, Nz=1, P=px=1, 3-D: every check passes, the grid's z extent is Nz/2 = 0, and `SF_Grid_pll(0,0,0,Range::all())=0` writes outside it | reject extents below 2 | not executed | Kernels.ThinGridAccepted | Kernels.OriginInGrid3 |
| src/fastSF.cc:1647 | `int count` is a 32-bit product | Nx=Ny=Nz=2048, displacement (0,0,1): count is -4194304 instead of 8585740288 | a 64-bit count | not executed | Overlap.Count32Overflows | Overlap.Count32Agrees |
