/** The moments the kernels reduce each difference field to, in exact real
    arithmetic: `sum(pow(d, q)) / count`, and for vector fields the split of
    each velocity increment into its component along the displacement
    (longitudinal) and the magnitude of the rest (transverse). */
module Moments {

  /** `pow(b, n)` for an integer exponent. A zero base with a negative
      exponent gives 0 here. */
  function Pow(b: real, n: int): real
    decreases if n >= 0 then n else 1 - n
  {
    if n == 0 then 1.0
    else if n > 0 then b * Pow(b, n - 1)
    else if b == 0.0 then 0.0
    else Pow(1.0 / b, -n)
  }

  /** `sum(pow(d, q))` over the samples of a difference field. */
  function SumPow(s: seq<real>, q: int): real
  {
    if |s| == 0 then 0.0 else SumPow(s[..|s| - 1], q) + Pow(s[|s| - 1], q)
  }

  /** `sum(pow(d, q)) / count`, with `count == |s|`; an empty field has moment 0. */
  function MeanPow(s: seq<real>, q: int): real
  {
    if |s| == 0 then 0.0 else SumPow(s, q) / (|s| as real)
  }

  /** A field whose samples all equal c sums to |s| * c^q. */
  lemma {:induction false} SumPowConstant(s: seq<real>, c: real, q: int)
    requires forall i :: 0 <= i < |s| ==> s[i] == c
    ensures SumPow(s, q) == (|s| as real) * Pow(c, q)
  {
    if |s| > 0 {
      SumPowConstant(s[..|s| - 1], c, q);
    }
  }

  /** A non-empty field whose samples all equal c has q-th moment c^q. */
  lemma MeanPowConstant(s: seq<real>, c: real, q: int)
    requires |s| > 0
    requires forall i :: 0 <= i < |s| ==> s[i] == c
    ensures MeanPow(s, q) == Pow(c, q)
  {
    SumPowConstant(s, c, q);
  }

  /** A zero increment has zero moment for every non-zero order. */
  lemma {:induction false} PowZero(n: int)
    requires n != 0
    ensures Pow(0.0, n) == 0.0
  {
    if n > 1 {
      PowZero(n - 1);
    }
  }

  /** A three-component vector; 2-D fields use y == 0. */
  datatype Vec = Vec(x: real, y: real, z: real)

  function Dot(a: Vec, b: Vec): real
  {
    a.x * b.x + a.y * b.y + a.z * b.z
  }

  /** `dUpll = (lx*dUx + ly*dUy + lz*dUz) / r`: the component of the increment
      `du` along the displacement `l` of length `r`. At r == 0 (the origin,
      whose result is overwritten) the model yields 0. */
  function Longitudinal(du: Vec, l: Vec, r: real): real
  {
    if r == 0.0 then 0.0 else Dot(l, du) / r
  }

  /** `dU - dUpll * l / r`: what is left of `du` after removing its longitudinal part. */
  function Transverse(du: Vec, l: Vec, r: real): Vec
  {
    if r == 0.0 then du
    else
      var s := Longitudinal(du, l, r) / r;
      Vec(du.x - s * l.x, du.y - s * l.y, du.z - s * l.z)
  }

  /** Orthogonal split: with r the length of l, the squared longitudinal part
      and the squared transverse magnitude add up to |du|^2, and the
      transverse part is orthogonal to l. */
  lemma Decomposition(du: Vec, l: Vec, r: real)
    requires r > 0.0 && r * r == Dot(l, l)
    ensures Longitudinal(du, l, r) * Longitudinal(du, l, r) + Dot(Transverse(du, l, r), Transverse(du, l, r)) == Dot(du, du)
    ensures Dot(l, Transverse(du, l, r)) == 0.0
  {
    var a := Dot(l, du);
    var pll := a / r;
    var s := pll / r;
    assert s * (r * r) == a;
    var t := Transverse(du, l, r);
    assert t == Vec(du.x - s * l.x, du.y - s * l.y, du.z - s * l.z);
    RemoveMultiple(du, l, s);
    assert pll * pll == s * a;
  }

  /** Removing s times l from u: the inner products of the remainder with l
      and with itself, expanded. */
  lemma RemoveMultiple(u: Vec, l: Vec, s: real)
    ensures var t := Vec(u.x - s * l.x, u.y - s * l.y, u.z - s * l.z);
      Dot(l, t) == Dot(l, u) - s * Dot(l, l) &&
      Dot(t, t) == Dot(u, u) - 2.0 * s * Dot(l, u) + s * s * Dot(l, l)
  {
  }

  /** The linear test velocity field U = position has increment du == l for
      displacement l: the longitudinal part is the full length r and the
      transverse part vanishes. */
  lemma AlignedIncrement(l: Vec, r: real)
    requires r > 0.0 && r * r == Dot(l, l)
    ensures Longitudinal(l, l, r) == r
    ensures Transverse(l, l, r) == Vec(0.0, 0.0, 0.0)
  {
    assert Dot(l, l) / r == r;
    assert Longitudinal(l, l, r) / r == 1.0;
  }

  /** A field of identical increments u has identical samples: pv along l
      and tv across it, when those are u's longitudinal and transverse values. */
  lemma ConstantSamples(du: seq<Vec>, u: Vec, l: Vec, r: real, root: real -> real, pv: real, tv: real)
    requires forall n :: 0 <= n < |du| ==> du[n] == u
    requires Longitudinal(u, l, r) == pv && root(Dot(Transverse(u, l, r), Transverse(u, l, r))) == tv
    ensures |PllSeq(du, l, r)| == |du| && |PerpSeq(du, l, r, root)| == |du|
    ensures forall n :: 0 <= n < |du| ==> PllSeq(du, l, r)[n] == pv
    ensures forall n :: 0 <= n < |du| ==> PerpSeq(du, l, r, root)[n] == tv
  {
  }

  /** A field whose every increment equals the displacement l: each
      longitudinal sample is the length r and each transverse sample is
      root(0) == 0. */
  lemma AlignedSamples(du: seq<Vec>, l: Vec, r: real, root: real -> real)
    requires r > 0.0 && r * r == Dot(l, l) && root(0.0) == 0.0
    requires forall n :: 0 <= n < |du| ==> du[n] == l
    ensures |PllSeq(du, l, r)| == |du| && |PerpSeq(du, l, r, root)| == |du|
    ensures forall n :: 0 <= n < |du| ==> PllSeq(du, l, r)[n] == r
    ensures forall n :: 0 <= n < |du| ==> PerpSeq(du, l, r, root)[n] == 0.0
  {
    var t := Transverse(l, l, r);
    assert Longitudinal(l, l, r) == r && Dot(t, t) == 0.0 by {
      AlignedIncrement(l, r);
    }
    ConstantSamples(du, l, l, r, root, r, 0.0);
  }

  /** The longitudinal samples of a field of increments. */
  function PllSeq(du: seq<Vec>, l: Vec, r: real): seq<real>
  {
    seq(|du|, i requires 0 <= i < |du| => Longitudinal(du[i], l, r))
  }

  /** The transverse samples `pow(dUx*dUx + dUy*dUy + dUz*dUz, 0.5)` of a field
      of increments; `root` stands for the square root. */
  function PerpSeq(du: seq<Vec>, l: Vec, r: real, root: real -> real): seq<real>
  {
    seq(|du|, i requires 0 <= i < |du| => root(Dot(Transverse(du[i], l, r), Transverse(du[i], l, r))))
  }

  /** Bundles the component difference fields into increments (2-D fields: y == 0). */
  function Increments3(ux: seq<real>, uy: seq<real>, uz: seq<real>): seq<Vec>
    requires |ux| == |uy| == |uz|
  {
    seq(|ux|, i requires 0 <= i < |ux| => Vec(ux[i], uy[i], uz[i]))
  }

  function Increments2(ux: seq<real>, uz: seq<real>): seq<Vec>
    requires |ux| == |uz|
  {
    seq(|ux|, i requires 0 <= i < |ux| => Vec(ux[i], 0.0, uz[i]))
  }
}
