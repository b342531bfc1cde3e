/** Shapes, positions and row-major order: the vocabulary shared by the in-memory
    arrays (src/MultiVector.h) and by the HDF5 hyperslab writes. */
module Shapes {

  type Shape = seq<nat>

  function Max(a: nat, b: nat): nat { if a >= b then a else b }

  /** Number of positions of a shape. */
  function Size(s: Shape): nat {
    if s == [] then 1 else s[0] * Size(s[1..])
  }

  predicate InBounds(s: Shape, p: seq<nat>) {
    |p| == |s| && forall i :: 0 <= i < |s| ==> p[i] < s[i]
  }

  predicate AllPositive(s: Shape) {
    forall i :: 0 <= i < |s| ==> s[i] >= 1
  }

  /** Row-major index as a sum of strides. */
  function RowMajor(s: Shape, p: seq<nat>): nat
    requires |p| == |s|
  {
    if s == [] then 0 else p[0] * Size(s[1..]) + RowMajor(s[1..], p[1..])
  }

  /** Row-major index in Horner form, the textbook definition. */
  function Horner(s: Shape, p: seq<nat>, acc: nat): nat
    requires |p| == |s|
  {
    if s == [] then acc else Horner(s[1..], p[1..], acc * s[0] + p[0])
  }

  lemma HornerStep(acc: nat, n: nat, q: nat, t: nat)
    ensures (acc * n + q) * t == acc * (n * t) + q * t
  {
    assert (acc * n + q) * t == (acc * n) * t + q * t;
    assert (acc * n) * t == acc * (n * t);
  }

  lemma {:induction false} HornerIsRowMajor(s: Shape, p: seq<nat>, acc: nat)
    requires |p| == |s|
    ensures Horner(s, p, acc) == acc * Size(s) + RowMajor(s, p)
  {
    if s != [] {
      var t := Size(s[1..]);
      HornerIsRowMajor(s[1..], p[1..], acc * s[0] + p[0]);
      HornerStep(acc, s[0], p[0], t);
    }
  }

  lemma MulMonotone(a: nat, b: nat, t: nat)
    requires a <= b
    ensures a * t <= b * t
  {
    assert b * t == a * t + (b - a) * t;
  }

  lemma {:induction false} RowMajorBelowSize(s: Shape, p: seq<nat>)
    requires InBounds(s, p)
    ensures RowMajor(s, p) < Size(s)
  {
    if s != [] {
      var t := Size(s[1..]);
      RowMajorBelowSize(s[1..], p[1..]);
      MulMonotone(p[0] + 1, s[0], t);
      assert (p[0] + 1) * t == p[0] * t + t;
    }
  }

  lemma DivModOfRow(q: nat, t: nat, r: nat)
    requires r < t
    ensures (q * t + r) / t == q && (q * t + r) % t == r
  {
    var n := q * t + r;
    var d, m := n / t, n % t;
    assert d * t + m == q * t + r;
    if d > q {
      MulMonotone(q + 1, d, t);
    } else if d < q {
      MulMonotone(d + 1, q, t);
    }
  }

  lemma QuotientBelow(i: nat, n: nat, t: nat)
    requires i < n * t
    ensures t > 0 && i / t < n
  {
    if t > 0 && i / t >= n {
      MulMonotone(n, i / t, t);
    }
  }

  /** The position that a linear index stands for. */
  function Unflatten(s: Shape, i: nat): (p: seq<nat>)
    requires i < Size(s)
    ensures InBounds(s, p)
  {
    if s == [] then []
    else
      var t := Size(s[1..]);
      QuotientBelow(i, s[0], t);
      [i / t] + Unflatten(s[1..], i % t)
  }

  lemma DivModRecombine(i: nat, t: nat)
    requires t > 0
    ensures (i / t) * t + i % t == i
  {
  }

  lemma {:induction false} FlattenUnflatten(s: Shape, i: nat)
    requires i < Size(s)
    ensures RowMajor(s, Unflatten(s, i)) == i
  {
    if s != [] {
      var t := Size(s[1..]);
      QuotientBelow(i, s[0], t);
      DivModRecombine(i, t);
      FlattenUnflatten(s[1..], i % t);
      var p := Unflatten(s, i);
      assert p[0] == i / t && p[1..] == Unflatten(s[1..], i % t);
    }
  }

  lemma {:induction false} UnflattenFlatten(s: Shape, p: seq<nat>)
    requires InBounds(s, p)
    ensures RowMajor(s, p) < Size(s)
    ensures Unflatten(s, RowMajor(s, p)) == p
  {
    RowMajorBelowSize(s, p);
    if s != [] {
      var r := RowMajor(s[1..], p[1..]);
      RowMajorBelowSize(s[1..], p[1..]);
      DivModOfRow(p[0], Size(s[1..]), r);
      UnflattenFlatten(s[1..], p[1..]);
      assert p == [p[0]] + p[1..];
    }
  }

  /** Distinct positions have distinct indexes. */
  lemma RowMajorInjective(s: Shape, p: seq<nat>, q: seq<nat>)
    requires InBounds(s, p) && InBounds(s, q)
    requires RowMajor(s, p) == RowMajor(s, q)
    ensures p == q
  {
    UnflattenFlatten(s, p);
    UnflattenFlatten(s, q);
  }
}
