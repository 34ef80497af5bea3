/** Integer facts about Euclidean division that the index bookkeeping relies on.
    Every operand here is non-negative, where C's truncating `/` and `%` agree
    with Dafny's. */
module Arith {

  /** Division and remainder are determined by any decomposition v == a*q + r with 0 <= r < a. */
  lemma DivModUnique(v: int, a: int, q: int, r: int)
    requires a > 0 && 0 <= r < a && v == a * q + r
    ensures v / a == q && v % a == r
  {
    var q' := v / a;
    if q' > q {
      MulMonotone(a, q + 1, q');
    } else if q' < q {
      MulMonotone(a, q' + 1, q);
    }
  }

  lemma MulMonotone(a: int, b: int, c: int)
    requires a >= 0 && b <= c
    ensures a * b <= a * c
  {
    assert a * c - a * b == a * (c - b);
  }

  lemma MulSucc(a: int, b: int)
    ensures a * (b + 1) == a * b + a
  {
  }

  /** A slot j below h with offset r below n lies in [0, n*h). */
  lemma SlotBelow(n: int, h: int, j: int, r: int)
    requires n > 0 && 0 <= j < h && 0 <= r < n
    ensures 0 <= n * j + r < n * h
  {
    MulMonotone(n, j + 1, h);
    MulMonotone(n, 0, j);
    assert n * (j + 1) == n * j + n;
  }

  /** Mirroring a decomposition: when H == n*h and v == n*q + m lies in [0, H),
      the quotient q is below h and H-1-v decomposes as n*(h-q-1) + (n-1-m). */
  lemma MirrorDecomp(H: int, n: int, h: int, v: int, q: int, m: int)
    requires n > 0 && H == n * h && v == n * q + m && 0 <= m < n && 0 <= v < H
    ensures 0 <= q < h
    ensures H - 1 - v == n * (h - q - 1) + (n - 1 - m)
  {
    if q >= h {
      MulMonotone(n, h, q);
    }
    if q < 0 {
      MulMonotone(n, q, -1);
    }
    assert n * (h - q - 1) == n * h - n * q - n;
  }

  /** A row-major pair (i, j) with j < n is recovered from n*i + j. */
  lemma RowMajor(n: int, i: int, j: int)
    requires n > 0 && i >= 0 && 0 <= j < n
    ensures (n * i + j) / n == i && (n * i + j) % n == j
  {
    DivModUnique(n * i + j, n, i, j);
  }

  /** An index below m*n splits into a row below m and a column below n. */
  lemma SplitBelow(k: int, m: int, n: int)
    requires m >= 0 && n >= 0 && 0 <= k < m * n
    ensures n > 0 && 0 <= k / n < m && 0 <= k % n < n && k == n * (k / n) + k % n
  {
    if n > 0 && k / n >= m {
      MulMonotone(n, m, k / n);
    }
  }

  /** Nested halving: (2*a)/(2*b) == a/b and (2*a/2)/b == a/b. */
  lemma NestedDiv(a: int, b: int, c: int)
    requires a >= 0 && b > 0 && c > 0
    ensures (a / b) / c == a / (b * c)
  {
    var q := a / b;
    var q2 := q / c;
    var r2 := q % c;
    var r := a % b;
    assert a == b * q + r;
    assert q == c * q2 + r2;
    assert a == (b * c) * q2 + (b * r2 + r) by {
      assert b * q == b * (c * q2 + r2) == (b * c) * q2 + b * r2;
    }
    assert b * r2 + r < b * c by {
      MulMonotone(b, r2, c - 1);
      assert b * (c - 1) == b * c - b;
    }
    assert 0 <= b * r2 by { MulMonotone(b, 0, r2); }
    DivModUnique(a, b * c, q2, b * r2 + r);
  }
}
