/** The cost-balancing 1-D work partitioner (`compute_index_list` on a 1-D list).

    Along one axis there are H displacement indices 0..H-1 and p ranks. Rank r
    receives H/p indices laid out as a "ladder": the even slots climb
    r, r+2p, r+4p, ... and each odd slot holds the mirror H-1-v of the slot
    before it, so every rank mixes cheap (large) and expensive (small)
    displacements. When p == H each rank gets the single index r. */
module Partition {
  import opened Arith

  /** What the ladder needs of (H, p): p divides H, and H/p is even unless p == H. */
  predicate AxisValid(H: int, p: int)
  {
    H >= 0 && p >= 1 && H % p == 0 && (p == H || (H / p) % 2 == 0)
  }

  /** Slot k of rank `rank`'s ladder. */
  function LadderAt(H: int, p: int, rank: int, k: int): int
  {
    if k % 2 == 0 then rank + k * p else H - 1 - (rank + (k - 1) * p)
  }

  /** The whole list of rank `rank`: H/p slots. */
  function Ladder(H: int, p: int, rank: int): seq<int>
    requires H >= 0 && p >= 1
  {
    seq(H / p, k => LadderAt(H, p, rank, k))
  }

  /** `compute_index_list(index_list, Nx, px, rank)`: allocates a list of H/p
      entries and fills it two slots at a time. The mirror write at slot i+1 is
      in bounds only because H/p is even whenever p != H. */
  method ComputeIndexList(H: int, p: int, rank: int) returns (indexList: array<int>)
    requires H >= 0 && p >= 1 && (p == H || (H / p) % 2 == 0)
    ensures fresh(indexList)
    ensures indexList[..] == Ladder(H, p, rank)
    ensures p == H ==> indexList[..] == [rank]
  {
    var listSize := H / p;
    indexList := new int[listSize];
    assert p == H ==> listSize == 1 by {
      if p == H {
        DivModUnique(H, p, 1, 0);
      }
    }
    var i := 0;
    while i < listSize
      invariant 0 <= i && i % 2 == 0
      invariant i <= listSize || (p == H && i == listSize + 1)
      invariant forall k :: 0 <= k < i && k < listSize ==> indexList[k] == LadderAt(H, p, rank, k)
    {
      LadderPair(H, p, rank, i);
      indexList[i] := rank + i * p;
      if p != H {
        indexList[i + 1] := H - 1 - indexList[i];
      }
      i := i + 2;
    }
    if p == H {
      LadderSingle(H, rank);
    }
  }

  /** With one rank per point the ladder is the single slot `rank`. */
  lemma LadderSingle(H: int, rank: int)
    requires H >= 1
    ensures Ladder(H, H, rank) == [rank]
  {
    DivModUnique(H, H, 1, 0);
    assert Ladder(H, H, rank)[0] == rank;
  }

  /** Iteration i of `compute_index_list` writes the ladder's slots i and,
      when p != H, i + 1, and the latter is in bounds. */
  lemma LadderPair(H: int, p: int, rank: int, i: int)
    requires H >= 0 && p >= 1 && (p == H || (H / p) % 2 == 0)
    requires 0 <= i < H / p && i % 2 == 0
    ensures LadderAt(H, p, rank, i) == rank + i * p
    ensures p != H ==> i + 1 < H / p && LadderAt(H, p, rank, i + 1) == H - 1 - (rank + i * p)
  {
    MirrorWritesInBounds(H, p, i);
    assert (i + 1) % 2 == 1;
  }

  /** Whether the mirror write `index_list(i+1)` of iteration i stays inside
      the H/p slots of the list (it is only issued when p != H). */
  predicate MirrorWriteInBounds(H: int, p: int, i: int)
    requires p >= 1
  {
    p == H || i + 1 < H / p
  }

  /** Under the evenness requirement every iteration's mirror write is in bounds. */
  lemma MirrorWritesInBounds(H: int, p: int, i: int)
    requires H >= 0 && p >= 1 && (p == H || (H / p) % 2 == 0)
    requires 0 <= i < H / p && i % 2 == 0
    ensures MirrorWriteInBounds(H, p, i)
  {
  }

  /** Facts about a valid axis used throughout: H == p*n, and n == 2*h when p != H. */
  lemma AxisShape(H: int, p: int)
    requires AxisValid(H, p)
    ensures H == p * (H / p)
    ensures p == H ==> H / p == 1
    ensures p != H ==> H == (2 * p) * (H / p / 2) && H / p == 2 * (H / p / 2)
  {
    DivModUnique(H, p, H / p, 0);
    if p == H {
      DivModUnique(H, p, 1, 0);
    }
  }

  /** Every ladder entry of a rank in [0, p) lies in [0, H). */
  lemma LadderInRange(H: int, p: int, rank: int, k: int)
    requires AxisValid(H, p) && 0 <= rank < p && 0 <= k < H / p
    ensures 0 <= Ladder(H, p, rank)[k] < H
  {
    if p == H {
      assert k == 0 by {
        AxisShape(H, p);
      }
    } else {
      var n, h, j := 2 * p, H / p / 2, k / 2;
      assert H == n * h by {
        AxisShape(H, p);
      }
      SlotBelow(n, h, j, rank);
      LadderAtSlots(H, p, rank, j);
      if k % 2 == 0 {
        assert k == 2 * j;
      } else {
        assert k == 2 * j + 1;
      }
    }
  }

  /** The rank and slot that hold index v: the explicit inverse of the ladder. */
  function LadderOwner(H: int, p: int, v: int): (int, int)
    requires AxisValid(H, p)
  {
    if p == H then (v, 0)
    else
      var m := v % (2 * p);
      if m < p then (m, 2 * (v / (2 * p)))
      else
        var w := H - 1 - v;
        (w % (2 * p), 2 * (w / (2 * p)) + 1)
  }

  /** An even slot 2j holds rank + (2p)*j; an odd slot 2j+1 holds its mirror. */
  lemma LadderAtSlots(H: int, p: int, rank: int, j: int)
    ensures LadderAt(H, p, rank, 2 * j) == (2 * p) * j + rank
    ensures LadderAt(H, p, rank, 2 * j + 1) == H - 1 - ((2 * p) * j + rank)
  {
    assert (2 * j) * p == (2 * p) * j;
    assert (2 * j + 1 - 1) * p == (2 * p) * j;
  }

  /** The owner of an index whose residue modulo 2p lies below p: an even slot. */
  lemma OwnerLow(H: int, p: int, v: int)
    requires AxisValid(H, p) && p != H && 0 <= v < H && v % (2 * p) < p
    ensures LadderOwner(H, p, v) == (v % (2 * p), 2 * (v / (2 * p)))
    ensures 0 <= 2 * (v / (2 * p)) < H / p
    ensures LadderAt(H, p, v % (2 * p), 2 * (v / (2 * p))) == v
  {
    var n := 2 * p;
    var h, q, m := H / p / 2, v / n, v % n;
    assert H == n * h by {
      AxisShape(H, p);
    }
    MirrorDecomp(H, n, h, v, q, m);
    LadderAtSlots(H, p, m, q);
  }

  /** The owner of an index whose residue modulo 2p is at least p: an odd (mirror) slot. */
  lemma OwnerHigh(H: int, p: int, v: int)
    requires AxisValid(H, p) && p != H && 0 <= v < H && v % (2 * p) >= p
    ensures var w := H - 1 - v;
      LadderOwner(H, p, v) == (w % (2 * p), 2 * (w / (2 * p)) + 1) &&
      0 <= w % (2 * p) < p &&
      2 * (w / (2 * p)) + 1 < H / p &&
      LadderAt(H, p, w % (2 * p), 2 * (w / (2 * p)) + 1) == v
  {
    var n := 2 * p;
    var h, q, m := H / p / 2, v / n, v % n;
    assert H == n * h by {
      AxisShape(H, p);
    }
    MirrorDecomp(H, n, h, v, q, m);
    DivModUnique(H - 1 - v, n, h - q - 1, n - 1 - m);
    LadderAtSlots(H, p, n - 1 - m, h - q - 1);
  }

  /** `LadderOwner` names a rank in [0, p) and a slot below H/p whose entry is v. */
  predicate HeldByOwner(H: int, p: int, v: int)
    requires AxisValid(H, p)
  {
    var o := LadderOwner(H, p, v);
    0 <= o.0 < p && 0 <= o.1 < H / p && Ladder(H, p, o.0)[o.1] == v
  }

  lemma HeldLow(H: int, p: int, v: int)
    requires AxisValid(H, p) && p != H && 0 <= v < H && v % (2 * p) < p
    ensures HeldByOwner(H, p, v)
  {
    OwnerLow(H, p, v);
  }

  lemma HeldHigh(H: int, p: int, v: int)
    requires AxisValid(H, p) && p != H && 0 <= v < H && v % (2 * p) >= p
    ensures HeldByOwner(H, p, v)
  {
    OwnerHigh(H, p, v);
  }

  lemma HeldSingle(H: int, p: int, v: int)
    requires AxisValid(H, p) && p == H && 0 <= v < H
    ensures HeldByOwner(H, p, v)
  {
    DivModUnique(H, p, 1, 0);
  }

  /** Completeness: every index v in [0, H) is held by its owner, a rank in [0, p), at a slot below H/p. */
  lemma LadderOwnerHolds(H: int, p: int, v: int)
    requires AxisValid(H, p) && 0 <= v < H
    ensures 0 <= LadderOwner(H, p, v).0 < p
    ensures 0 <= LadderOwner(H, p, v).1 < H / p
    ensures Ladder(H, p, LadderOwner(H, p, v).0)[LadderOwner(H, p, v).1] == v
  {
    if p == H {
      HeldSingle(H, p, v);
    } else if v % (2 * p) < p {
      HeldLow(H, p, v);
    } else {
      HeldHigh(H, p, v);
    }
  }

  /** No repeats: the only (rank, slot) holding an index is its owner. */
  lemma LadderOwnerUnique(H: int, p: int, rank: int, k: int)
    requires AxisValid(H, p) && 0 <= rank < p && 0 <= k < H / p
    ensures LadderOwner(H, p, Ladder(H, p, rank)[k]) == (rank, k)
  {
    if p == H {
      assert k == 0 by {
        AxisShape(H, p);
      }
    } else if k % 2 == 0 {
      assert k == 2 * (k / 2);
      OwnerOfEven(H, p, rank, k / 2);
    } else {
      assert k == 2 * (k / 2) + 1;
      OwnerOfOdd(H, p, rank, k / 2);
    }
  }

  /** The owner of the value in even slot 2j of a rank's ladder is that rank and slot. */
  lemma OwnerOfEven(H: int, p: int, rank: int, j: int)
    requires AxisValid(H, p) && p != H && 0 <= rank < p && 0 <= 2 * j < H / p
    ensures LadderOwner(H, p, LadderAt(H, p, rank, 2 * j)) == (rank, 2 * j)
  {
    var n, h := 2 * p, H / p / 2;
    assert H == n * h && H / p == 2 * h by {
      AxisShape(H, p);
    }
    LadderAtSlots(H, p, rank, j);
    SlotBelow(n, h, j, rank);
    DivModUnique(n * j + rank, n, j, rank);
    OwnerLow(H, p, n * j + rank);
  }

  /** The owner of the value in odd slot 2j+1 of a rank's ladder is that rank and slot. */
  lemma OwnerOfOdd(H: int, p: int, rank: int, j: int)
    requires AxisValid(H, p) && p != H && 0 <= rank < p && 0 <= 2 * j + 1 < H / p
    ensures LadderOwner(H, p, LadderAt(H, p, rank, 2 * j + 1)) == (rank, 2 * j + 1)
  {
    var n, h := 2 * p, H / p / 2;
    assert H == n * h && H / p == 2 * h by {
      AxisShape(H, p);
    }
    LadderAtSlots(H, p, rank, j);
    var w := n * j + rank;
    SlotBelow(n, h, j, rank);
    MirrorDecomp(H, n, h, w, j, rank);
    DivModUnique(H - 1 - w, n, h - j - 1, n - 1 - rank);
    DivModUnique(w, n, j, rank);
    OwnerHigh(H, p, H - 1 - w);
  }

  /** The union over ranks 0..p-1 of their lists. */
  function AllLists(H: int, p: int): set<int>
    requires H >= 0 && p >= 1
  {
    set r, k | 0 <= r < p && 0 <= k < H / p :: Ladder(H, p, r)[k]
  }

  /** Exact partition: over ranks 0..p-1 the lists hold every index of [0, H),
      and no index twice, within one list or across lists. */
  lemma LadderPartition(H: int, p: int)
    requires AxisValid(H, p)
    ensures forall v :: v in AllLists(H, p) <==> 0 <= v < H
    ensures forall r1, k1, r2, k2 ::
      (0 <= r1 < p && 0 <= k1 < H / p && 0 <= r2 < p && 0 <= k2 < H / p &&
       Ladder(H, p, r1)[k1] == Ladder(H, p, r2)[k2]) ==> r1 == r2 && k1 == k2
  {
    forall v | v in AllLists(H, p) ensures 0 <= v < H {
      var r, k :| 0 <= r < p && 0 <= k < H / p && v == Ladder(H, p, r)[k];
      LadderInRange(H, p, r, k);
    }
    forall v | 0 <= v < H ensures v in AllLists(H, p) {
      LadderOwnerHolds(H, p, v);
    }
    forall r1, k1, r2, k2 |
      0 <= r1 < p && 0 <= k1 < H / p && 0 <= r2 < p && 0 <= k2 < H / p &&
      Ladder(H, p, r1)[k1] == Ladder(H, p, r2)[k2]
      ensures r1 == r2 && k1 == k2
    {
      LadderOwnerUnique(H, p, r1, k1);
      LadderOwnerUnique(H, p, r2, k2);
    }
  }

  function Sum(s: seq<int>): int
  {
    if |s| == 0 then 0 else Sum(s[..|s| - 1]) + s[|s| - 1]
  }

  /** The first j (index, mirror) pairs of a ladder add up to j*(H-1). */
  lemma {:induction false} LadderPrefixSum(H: int, p: int, rank: int, j: int)
    requires AxisValid(H, p) && p != H && 0 <= j <= H / p / 2
    ensures 2 * j <= |Ladder(H, p, rank)|
    ensures Sum(Ladder(H, p, rank)[..2 * j]) == j * (H - 1)
  {
    var s := Ladder(H, p, rank);
    if j > 0 {
      LadderPrefixSum(H, p, rank, j - 1);
      LadderAtSlots(H, p, rank, j - 1);
      assert s[2 * j - 2] + s[2 * j - 1] == H - 1;
      assert s[..2 * j][..2 * j - 1] == s[..2 * j - 1];
      assert s[..2 * j - 1][..2 * j - 2] == s[..2 * (j - 1)];
      assert j * (H - 1) == (j - 1) * (H - 1) + (H - 1);
    }
  }

  /** Balance: when p != H every rank's indices sum to (H/p/2)*(H-1), the same for every rank. */
  lemma LadderBalanced(H: int, p: int, rank: int)
    requires AxisValid(H, p) && p != H
    ensures Sum(Ladder(H, p, rank)) == (H / p / 2) * (H - 1)
  {
    AxisShape(H, p);
    LadderPrefixSum(H, p, rank, H / p / 2);
    assert Ladder(H, p, rank)[..2 * (H / p / 2)] == Ladder(H, p, rank);
  }
}
