/** In-memory multi-dimensional arrays (src/MultiVector.h). */
module MultiVectors {
  import opened MachineInts
  import opened Shapes

  function Reversed<T>(s: seq<T>): (r: seq<T>)
    ensures |r| == |s|
    ensures forall i :: 0 <= i < |s| ==> r[i] == s[|s| - 1 - i]
  {
    seq(|s|, i requires 0 <= i < |s| => s[|s| - 1 - i])
  }

  /** Product of dimensions as an `int` accumulator holds it: each step multiplies in
      `size_t` and converts back to `int`, starting from the last dimension. */
  function IntProduct(s: Shape): int {
    if s == [] then 1 else ToInt32(ToUInt64(ToUInt64(IntProduct(s[1..])) * s[0]))
  }

  /** What the index arithmetic yields, with every conversion and wrap-around written out. */
  function MachineIndex(s: Shape, p: seq<nat>): nat
    requires |p| == |s|
  {
    if s == [] then 0
    else ToUInt64(ToUInt64(ToUInt64(IntProduct(s[1..])) * p[0]) + MachineIndex(s[1..], p[1..]))
  }

  /** The product of the first `count` reversed dimensions in an `int`. */
  method Accumulate(ghost dimensions: Shape, dims: Shape, count: nat) returns (acc: int)
    requires dims == Reversed(dimensions) && count <= |dimensions|
    ensures acc == IntProduct(dimensions[|dimensions| - count..])
  {
    ghost var n := |dimensions|;
    acc := 1;
    for k := 0 to count
      invariant acc == IntProduct(dimensions[n - k..])
    {
      assert dimensions[n - k - 1..][1..] == dimensions[n - k..];
      acc := ToInt32(ToUInt64(ToUInt64(acc) * dims[k]));
    }
  }

  /** The index of a position, computed on reversed copies as the source does it. */
  method PosToIndex(dimensions: Shape, pos: seq<nat>) returns (index: nat)
    requires |pos| == |dimensions|
    ensures index == MachineIndex(dimensions, pos)
  {
    var dims, rpos := Reversed(dimensions), Reversed(pos);
    var n := |pos|;
    index := 0;
    for i := 0 to n
      invariant index == MachineIndex(dimensions[n - i..], pos[n - i..])
    {
      var acc := Accumulate(dimensions, dims, i);
      assert dimensions[n - i - 1..][1..] == dimensions[n - i..];
      assert pos[n - i - 1..][1..] == pos[n - i..];
      index := ToUInt64(index + ToUInt64(ToUInt64(acc) * rpos[i]));
    }
    assert dimensions[n - n..] == dimensions && pos[n - n..] == pos;
  }

  lemma Distribute(t: int, k: int, m: int, x: int)
    ensures (t + k * m) * x == t * x + (k * x) * m
  {
  }

  /** Multiplying a truncated product in `size_t` and truncating again loses nothing modulo 2^32. */
  lemma ProductStep(t: int, x: int)
    ensures ToInt32(ToUInt64(ToUInt64(ToInt32(t)) * x)) == ToInt32(t * x)
  {
    var k1 := ToInt32Offset(t);
    var u := ToUInt64(ToInt32(t));
    var k2 := ToUInt64Offset(ToInt32(t));
    var k3 := ToUInt64Offset(u * x);
    var k := k1 + k2 * TWO_32;
    assert u == t + k * TWO_32;
    Distribute(t, k, TWO_32, x);
    ToInt32Congruent(ToUInt64(u * x), t * x, k * x + k3 * TWO_32);
  }

  lemma {:induction false} IntProductIsSize(s: Shape)
    ensures IntProduct(s) == ToInt32(Size(s))
  {
    if s != [] {
      IntProductIsSize(s[1..]);
      ProductStep(Size(s[1..]), s[0]);
      assert Size(s[1..]) * s[0] == s[0] * Size(s[1..]);
    }
  }

  /** The sum of the strides as they stand in the `int`, before it is reduced to 64 bits. */
  function StrideSum(s: Shape, p: seq<nat>): int
    requires |p| == |s|
  {
    if s == [] then 0 else p[0] * ToInt32(Size(s[1..])) + StrideSum(s[1..], p[1..])
  }

  lemma SumStep(c: int, q: nat, r: int)
    ensures ToUInt64(ToUInt64(ToUInt64(c) * q) + ToUInt64(r)) == ToUInt64(q * c + r)
  {
    var k1 := ToUInt64Offset(c);
    var k2 := ToUInt64Offset(ToUInt64(c) * q);
    var k3 := ToUInt64Offset(r);
    Distribute(c, k1, TWO_64, q);
    ToUInt64Congruent(ToUInt64(ToUInt64(c) * q) + ToUInt64(r), q * c + r, k1 * q + k2 + k3);
  }

  /** The index is the sum of the truncated strides modulo 2^64. */
  lemma {:induction false} MachineIndexIsSum(s: Shape, p: seq<nat>)
    requires |p| == |s|
    ensures MachineIndex(s, p) == ToUInt64(StrideSum(s, p))
  {
    if s != [] {
      MachineIndexIsSum(s[1..], p[1..]);
      IntProductIsSize(s[1..]);
      SumStep(ToInt32(Size(s[1..])), p[0], StrideSum(s[1..], p[1..]));
    }
  }

  /** Every stride that a position can actually use fits in the `int` accumulator. */
  ghost predicate Addressable(s: Shape) {
    forall k :: 0 <= k < |s| && s[k] >= 2 ==> Size(s[k + 1..]) < TWO_31
  }

  lemma AddressableTail(s: Shape)
    requires s != [] && Addressable(s)
    ensures Addressable(s[1..])
  {
    forall k | 0 <= k < |s[1..]| && s[1..][k] >= 2
      ensures Size(s[1..][k + 1..]) < TWO_31
    {
      assert s[1..][k + 1..] == s[(k + 1) + 1..];
      assert s[k + 1] == s[1..][k];
    }
  }

  lemma {:induction false} SumIsRowMajor(s: Shape, p: seq<nat>)
    requires InBounds(s, p) && Addressable(s)
    ensures StrideSum(s, p) == RowMajor(s, p)
  {
    if s != [] {
      AddressableTail(s);
      SumIsRowMajor(s[1..], p[1..]);
    }
  }

  lemma MachineIndexIsRowMajor(s: Shape, p: seq<nat>)
    requires InBounds(s, p) && Addressable(s) && Size(s) <= TWO_64
    ensures MachineIndex(s, p) == RowMajor(s, p)
  {
    RowMajorBelowSize(s, p);
    MachineIndexIsSum(s, p);
    SumIsRowMajor(s, p);
  }

  function Unit(n: nat, k: nat): (p: seq<nat>)
    ensures |p| == n
  {
    seq(n, i => if i == k then 1 else 0)
  }

  lemma {:induction false} SumOfOrigin(s: Shape, p: seq<nat>)
    requires |p| == |s| && forall i :: 0 <= i < |p| ==> p[i] == 0
    ensures StrideSum(s, p) == 0 && RowMajor(s, p) == 0
  {
    if s != [] { SumOfOrigin(s[1..], p[1..]); }
  }

  lemma {:induction false} SumOfUnit(s: Shape, k: nat)
    requires k < |s| && AllPositive(s)
    ensures RowMajor(s, Unit(|s|, k)) == Size(s[k + 1..])
    ensures StrideSum(s, Unit(|s|, k)) == ToInt32(Size(s[k + 1..]))
    ensures s[k] * Size(s[k + 1..]) <= Size(s)
  {
    var p := Unit(|s|, k);
    if k == 0 {
      SumOfOrigin(s[1..], p[1..]);
    } else {
      assert p[1..] == Unit(|s[1..]|, k - 1);
      assert s[1..][k..] == s[k + 1..];
      MulMonotone(1, s[0], Size(s[1..]));
      SumOfUnit(s[1..], k - 1);
    }
  }

  /** A stride that does not fit is not read back from the `int`. */
  lemma LongStrideWraps(t: nat)
    requires TWO_31 <= t <= TWO_63
    ensures ToUInt64(ToInt32(t)) != t
  {
  }

  lemma MisplacedPosition(s: Shape) returns (p: seq<nat>)
    requires AllPositive(s) && Size(s) <= TWO_64 && !Addressable(s)
    ensures InBounds(s, p) && MachineIndex(s, p) != RowMajor(s, p)
  {
    var k :| 0 <= k < |s| && s[k] >= 2 && Size(s[k + 1..]) >= TWO_31;
    p := Unit(|s|, k);
    SumOfUnit(s, k);
    MachineIndexIsSum(s, p);
    MulMonotone(2, s[k], Size(s[k + 1..]));
    LongStrideWraps(Size(s[k + 1..]));
  }

  /** Beyond 2^64 positions the last one cannot have its index. */
  lemma FarPosition(s: Shape) returns (p: seq<nat>)
    requires Size(s) > TWO_64
    ensures InBounds(s, p) && MachineIndex(s, p) != RowMajor(s, p)
  {
    p := Unflatten(s, Size(s) - 1);
    FlattenUnflatten(s, Size(s) - 1);
    MachineIndexIsSum(s, p);
  }

  lemma AllPlacedIfAddressable(s: Shape)
    requires Addressable(s) && Size(s) <= TWO_64
    ensures forall p :: InBounds(s, p) ==> MachineIndex(s, p) == RowMajor(s, p)
  {
    forall p | InBounds(s, p) ensures MachineIndex(s, p) == RowMajor(s, p) {
      MachineIndexIsRowMajor(s, p);
    }
  }

  /** The index computed with an `int` accumulator is the row-major index of every position
      in range exactly when the shape is addressable and has at most 2^64 positions. */
  lemma IndexCorrectIffAddressable(s: Shape)
    requires AllPositive(s)
    ensures (forall p :: InBounds(s, p) ==> MachineIndex(s, p) == RowMajor(s, p))
            <==> Addressable(s) && Size(s) <= TWO_64
  {
    if Size(s) > TWO_64 {
      var p := FarPosition(s);
    } else if Addressable(s) {
      AllPlacedIfAddressable(s);
    } else {
      var p := MisplacedPosition(s);
    }
  }

  /** On an addressable shape the index is a bijection from positions onto `[0, Size)`. */
  lemma IndexBijection(s: Shape)
    requires Addressable(s) && Size(s) <= TWO_64
    ensures forall p :: InBounds(s, p) ==> MachineIndex(s, p) < Size(s) && MachineIndex(s, p) == Horner(s, p, 0)
    ensures forall p, q :: InBounds(s, p) && InBounds(s, q) && MachineIndex(s, p) == MachineIndex(s, q) ==> p == q
    ensures forall i: nat :: i < Size(s) ==> InBounds(s, Unflatten(s, i)) && MachineIndex(s, Unflatten(s, i)) == i
  {
    forall p | InBounds(s, p)
      ensures MachineIndex(s, p) == RowMajor(s, p) < Size(s) && MachineIndex(s, p) == Horner(s, p, 0)
    {
      MachineIndexIsRowMajor(s, p);
      RowMajorBelowSize(s, p);
      HornerIsRowMajor(s, p, 0);
    }
    forall p, q | InBounds(s, p) && InBounds(s, q) && MachineIndex(s, p) == MachineIndex(s, q) ensures p == q {
      RowMajorInjective(s, p, q);
    }
    forall i: nat | i < Size(s) ensures InBounds(s, Unflatten(s, i)) && MachineIndex(s, Unflatten(s, i)) == i {
      FlattenUnflatten(s, i);
    }
  }

  // ---- Shapes that are not addressable ----

  /** Every accepted position has its index inside the buffer that is allocated for the shape. */
  ghost predicate InsideBuffer(s: Shape) {
    forall p :: InBounds(s, p) ==> MachineIndex(s, p) < ToUInt64(Size(s))
  }

  /** No stride that a position can actually use turns negative in the `int`. */
  ghost predicate NoNegativeStride(s: Shape) {
    forall k :: 0 <= k < |s| && s[k] >= 2 ==> ToInt32(Size(s[k + 1..])) >= 0
  }

  /** The index of the last position. */
  function FarIndex(s: Shape): int {
    if s == [] then 0 else (s[0] - 1) * ToInt32(Size(s[1..])) + FarIndex(s[1..])
  }

  lemma NoNegativeTail(s: Shape)
    requires s != [] && NoNegativeStride(s)
    ensures NoNegativeStride(s[1..])
  {
    forall k | 0 <= k < |s[1..]| && s[1..][k] >= 2 ensures ToInt32(Size(s[1..][k + 1..])) >= 0 {
      assert s[1..][k + 1..] == s[(k + 1) + 1..];
      assert s[k + 1] == s[1..][k];
    }
  }

  lemma TermUpToFar(q: nat, n: nat, c: int)
    requires q < n && (n >= 2 ==> c >= 0)
    ensures 0 <= q * c <= (n - 1) * c
  {
    if n >= 2 { MulMonotone(q, n - 1, c); }
  }

  lemma {:induction false} SumUpToFar(s: Shape, p: seq<nat>)
    requires InBounds(s, p) && NoNegativeStride(s)
    ensures 0 <= StrideSum(s, p) <= FarIndex(s)
  {
    if s != [] {
      NoNegativeTail(s);
      SumUpToFar(s[1..], p[1..]);
      TermUpToFar(p[0], s[0], ToInt32(Size(s[1..])));
    }
  }

  lemma FarIndexNonNegative(s: Shape)
    requires AllPositive(s) && NoNegativeStride(s)
    ensures FarIndex(s) >= 0
  {
    SumUpToFar(s, seq(|s|, _ => 0));
  }

  /** The first multiple of a stride that reaches a target together with what lies beyond it. */
  lemma Reach(n: nat, c: nat, rest: nat, target: nat) returns (q: nat)
    requires rest < target <= n * c + rest
    ensures 0 < q <= n && (q - 1) * c + rest < target <= q * c + rest
  {
    q := 0;
    while q * c + rest < target
      invariant q <= n && (q > 0 ==> (q - 1) * c + rest < target)
      decreases n - q
    {
      if q == n { assert false; }
      q := q + 1;
    }
  }

  /** The indexes leave no gap of 2^31 or more below the last one. */
  lemma {:induction false} PositionNear(s: Shape, target: nat) returns (p: seq<nat>)
    requires AllPositive(s) && NoNegativeStride(s) && target <= FarIndex(s)
    ensures InBounds(s, p) && target <= StrideSum(s, p) < target + TWO_31
  {
    if s == [] { return []; }
    var tail, c, rest := s[1..], ToInt32(Size(s[1..])), FarIndex(s[1..]);
    NoNegativeTail(s);
    FarIndexNonNegative(tail);
    if target <= rest {
      var p' := PositionNear(tail, target);
      p := [0] + p';
    } else {
      var q := Reach(s[0] - 1, c, rest, target);
      assert (q - 1) * c == q * c - c;
      if q * c >= target {
        p := Unit(|s|, 0)[0 := q];
        SumOfOrigin(tail, p[1..]);
      } else {
        var p' := PositionNear(tail, target - q * c);
        p := [q] + p';
      }
    }
  }

  /** A negative stride leads far outside any buffer. */
  lemma NegativeStrideLeaves(s: Shape) returns (p: seq<nat>)
    requires AllPositive(s) && !NoNegativeStride(s)
    ensures InBounds(s, p) && MachineIndex(s, p) >= TWO_63
  {
    var k :| 0 <= k < |s| && s[k] >= 2 && ToInt32(Size(s[k + 1..])) < 0;
    p := Unit(|s|, k);
    SumOfUnit(s, k);
    MachineIndexIsSum(s, p);
    NegativeWraps(ToInt32(Size(s[k + 1..])));
    assert forall i :: 0 <= i < |s| ==> s[i] >= 1;
  }

  lemma NegativeWraps(c: int)
    requires -TWO_31 <= c < 0
    ensures ToUInt64(c) >= TWO_63
  {
    assert c + TWO_64 == c % TWO_64;
  }

  lemma SmallSumIsIndex(s: Shape, p: seq<nat>)
    requires |p| == |s| && 0 <= StrideSum(s, p) < TWO_64
    ensures MachineIndex(s, p) == StrideSum(s, p)
  {
    MachineIndexIsSum(s, p);
  }

  /** Which shapes keep every accepted index inside the buffer, among all whose buffer can be allocated:
      exactly those with no negative stride whose last index is inside. */
  lemma InsideBufferIff(s: Shape)
    requires AllPositive(s) && ToUInt64(Size(s)) <= TWO_63
    ensures InsideBuffer(s) <==> NoNegativeStride(s) && FarIndex(s) < ToUInt64(Size(s))
  {
    var length := ToUInt64(Size(s));
    if !NoNegativeStride(s) {
      var p := NegativeStrideLeaves(s);
    } else if FarIndex(s) >= length {
      var p := PositionNear(s, length);
      SmallSumIsIndex(s, p);
    } else {
      forall p | InBounds(s, p) ensures MachineIndex(s, p) < length {
        SumUpToFar(s, p);
        SmallSumIsIndex(s, p);
      }
    }
  }

  lemma {:induction false} FarIndexBelowSize(s: Shape)
    requires AllPositive(s) && NoNegativeStride(s)
    ensures FarIndex(s) < Size(s)
  {
    if s != [] {
      NoNegativeTail(s);
      FarIndexBelowSize(s[1..]);
      FarTermBelow(s[0], Size(s[1..]));
    }
  }

  lemma FarTermBelow(n: nat, t: nat)
    requires n >= 1 && (n >= 2 ==> ToInt32(t) >= 0)
    ensures (n - 1) * ToInt32(t) + t <= n * t
  {
    if n >= 2 {
      MulMonotone(ToInt32(t), t, n - 1);
    }
    assert n * t == (n - 1) * t + t;
  }

  /** A shape whose size fits the buffer length only needs its strides checked. */
  lemma InsideBufferIffStrides(s: Shape)
    requires AllPositive(s) && Size(s) <= TWO_63
    ensures InsideBuffer(s) <==> NoNegativeStride(s)
  {
    InsideBufferIff(s);
    if NoNegativeStride(s) { FarIndexBelowSize(s); }
  }

  lemma SumCons(s: Shape, a: nat, p: seq<nat>)
    requires s != [] && |p| == |s| - 1
    ensures StrideSum(s, [a] + p) == a * ToInt32(Size(s[1..])) + StrideSum(s[1..], p)
  {
    assert ([a] + p)[1..] == p;
  }

  /** Where only the first stride does not fit, one step along it meets a position below it. */
  lemma FirstStrideCollides(s: Shape) returns (p: seq<nat>, q: seq<nat>)
    requires s != [] && AllPositive(s) && s[0] >= 2 && Addressable(s[1..])
    requires 0 <= ToInt32(Size(s[1..])) < Size(s[1..])
    ensures InBounds(s, p) && InBounds(s, q) && p != q && StrideSum(s, p) == StrideSum(s, q)
  {
    var tail, c := s[1..], ToInt32(Size(s[1..]));
    var origin, other := seq(|tail|, _ => 0), Unflatten(tail, c);
    p, q := [1] + origin, [0] + other;
    SumCons(s, 1, origin);
    SumCons(s, 0, other);
    SumOfOrigin(tail, origin);
    FlattenUnflatten(tail, c);
    SumIsRowMajor(tail, other);
    assert p[0] != q[0];
  }

  /** Two positions that share a cell, where a stride does not fit. */
  lemma {:induction false} Collision(s: Shape) returns (p: seq<nat>, q: seq<nat>)
    requires AllPositive(s) && NoNegativeStride(s) && !Addressable(s)
    ensures InBounds(s, p) && InBounds(s, q) && p != q && StrideSum(s, p) == StrideSum(s, q)
  {
    var tail := s[1..];
    NoNegativeTail(s);
    if Addressable(tail) {
      AddressableCons(s);
      p, q := FirstStrideCollides(s);
    } else {
      var p', q' := Collision(tail);
      p, q := [0] + p', [0] + q';
      SumCons(s, 0, p');
      SumCons(s, 0, q');
      assert p[1..] == p' && q[1..] == q';
    }
  }

  lemma AddressableCons(s: Shape)
    requires s != [] && Addressable(s[1..])
    ensures Addressable(s) <==> (s[0] >= 2 ==> Size(s[1..]) < TWO_31)
  {
    forall k | 0 < k < |s| && s[k] >= 2 ensures Size(s[k + 1..]) < TWO_31 {
      assert s[1..][k - 1] == s[k] && s[1..][k - 1 + 1..] == s[k + 1..];
    }
  }

  /** Where the index stays inside a buffer that can be allocated, different positions have different cells
      exactly when the shape is addressable. */
  lemma DistinctIffAddressable(s: Shape)
    requires AllPositive(s) && ToUInt64(Size(s)) <= TWO_63 && InsideBuffer(s)
    ensures (forall p, q :: InBounds(s, p) && InBounds(s, q) && MachineIndex(s, p) == MachineIndex(s, q) ==> p == q)
            <==> Addressable(s)
  {
    InsideBufferIff(s);
    if Addressable(s) {
      forall p, q | InBounds(s, p) && InBounds(s, q) && MachineIndex(s, p) == MachineIndex(s, q) ensures p == q {
        IndexInside(s, p);
        IndexInside(s, q);
        RowMajorInjective(s, p, q);
      }
    } else {
      var p, q := Collision(s);
      MachineIndexIsSum(s, p);
      MachineIndexIsSum(s, q);
    }
  }

  lemma IndexInside(s: Shape, p: seq<nat>)
    requires InBounds(s, p) && Addressable(s) && NoNegativeStride(s) && FarIndex(s) < TWO_64
    ensures MachineIndex(s, p) == RowMajor(s, p)
  {
    SumUpToFar(s, p);
    SmallSumIsIndex(s, p);
    SumIsRowMajor(s, p);
  }

  /** Four levels of 65536: the size wraps to zero, so that no accepted index is inside. */
  lemma WrappedSizeLeavesBuffer()
    ensures var s := [65536, 65536, 65536, 65536];
            ToUInt64(Size(s)) == 0 && InBounds(s, [0, 0, 0, 0]) && !InsideBuffer(s)
  {
    var s := [65536, 65536, 65536, 65536];
    assert s[1..] == [65536, 65536, 65536] && s[1..][1..] == [65536, 65536] && s[1..][1..][1..] == [65536];
    assert Size(s) == TWO_64;
    assert InBounds(s, [0, 0, 0, 0]);
  }

  // ---- The array ----

  /** Number of elements of a new array; an empty shape is rejected by `S.at(0)`. */
  method ExtentToSize(s: Shape) returns (size: Option<nat>)
    ensures size.None? <==> s == []
    ensures s != [] ==> size == Some(ToUInt64(Size(s)))
  {
    if s == [] { return None; }
    var acc := ToUInt64(s[0]);
    assert PrefixSize(s, 0) == 1 && PrefixSize(s, 1) == s[0];
    for i := 1 to |s|
      invariant acc == WrappedPrefix(s, i)
    {
      PrefixWraps(s, i);
      acc := ToUInt64(acc * s[i]);
    }
    WholePrefix(s);
    return Some(acc);
  }

  /** Product of the first dimensions, in the order in which the source multiplies. */
  ghost function PrefixSize(s: Shape, i: nat): nat
    requires i <= |s|
  {
    if i == 0 then 1 else PrefixSize(s, i - 1) * s[i - 1]
  }

  ghost function WrappedPrefix(s: Shape, i: nat): nat
    requires i <= |s|
  {
    ToUInt64(PrefixSize(s, i))
  }

  lemma PrefixWraps(s: Shape, i: nat)
    requires i < |s|
    ensures ToUInt64(WrappedPrefix(s, i) * s[i]) == WrappedPrefix(s, i + 1)
  {
    ProductWraps(PrefixSize(s, i), s[i]);
  }

  lemma WholePrefix(s: Shape)
    ensures WrappedPrefix(s, |s|) == ToUInt64(Size(s))
  {
    PrefixSplits(s, |s|);
    assert s[|s|..] == [];
  }

  lemma {:induction false} PrefixSplits(s: Shape, i: nat)
    requires i <= |s|
    ensures PrefixSize(s, i) * Size(s[i..]) == Size(s)
  {
    if i > 0 {
      PrefixSplits(s, i - 1);
      var p, x, t := PrefixSize(s, i - 1), s[i - 1], Size(s[i..]);
      assert s[i - 1..][0] == x && s[i - 1..][1..] == s[i..];
      MulAssociative(p, x, t);
    }
  }

  lemma MulAssociative(a: nat, b: nat, c: nat)
    ensures a * (b * c) == (a * b) * c
  {
  }

  lemma ProductWraps(p: nat, x: nat)
    ensures ToUInt64(ToUInt64(p) * x) == ToUInt64(p * x)
  {
    var k := p / TWO_64;
    var m := p % TWO_64;
    assert p * x == m * x + (k * x) * TWO_64;
    assert (m * x + (k * x) * TWO_64) % TWO_64 == (m * x) % TWO_64;
  }

  /** Shapes on which positions and cells correspond. */
  ghost predicate Sound(s: Shape) {
    Size(s) < TWO_64 && Addressable(s)
  }

  /** A multi-dimensional array stored in one flat buffer. */
  class MultiVector<T(0)> {
    var data: array<T>
    const shape: Shape

    ghost predicate Valid()
      reads this
    {
      data.Length == ToUInt64(Size(shape))
    }

    /** The element at a position, by row-major order. */
    ghost function At(p: seq<nat>): T
      reads this, data
      requires Valid() && Sound(shape) && InBounds(shape, p)
    {
      RowMajorBelowSize(shape, p);
      data[RowMajor(shape, p)]
    }

    constructor (extent: Shape, zero: T)
      requires extent != []
      ensures Valid() && fresh(data) && shape == extent
      ensures forall i :: 0 <= i < data.Length ==> data[i] == zero
      ensures Sound(shape) ==> forall p :: InBounds(shape, p) ==> At(p) == zero
    {
      var size := ExtentToSize(extent);
      data := new T[size.value](_ => zero);
      shape := extent;
      new;
      if Sound(shape) {
        forall p | InBounds(shape, p) ensures At(p) == zero {
          RowMajorBelowSize(shape, p);
        }
      }
    }

    /** False where the source throws `std::out_of_range`. */
    method CheckIndex(index: seq<nat>) returns (ok: bool)
      ensures ok <==> InBounds(shape, index)
    {
      if |index| != |shape| { return false; }
      for i := 0 to |shape|
        invariant forall k :: 0 <= k < i ==> index[k] < shape[k]
      {
        if index[i] >= shape[i] { return false; }
      }
      return true;
    }

    /** The index of an accepted position has to lie inside the buffer, which is not tested. */
    method SetValue(index: seq<nat>, value: T) returns (ok: bool)
      requires Valid() && (InBounds(shape, index) ==> MachineIndex(shape, index) < data.Length)
      modifies data
      ensures ok <==> InBounds(shape, index)
      ensures ok ==> data[..] == old(data[..])[MachineIndex(shape, index) := value]
      ensures ok && Sound(shape) ==>
                forall p :: InBounds(shape, p) ==> At(p) == if p == index then value else old(At(p))
      ensures !ok ==> data[..] == old(data[..])
    {
      ok := CheckIndex(index);
      if ok {
        var i := PosToIndex(shape, index);
        data[i] := value;
        if Sound(shape) {
          MachineIndexIsRowMajor(shape, index);
          forall p | InBounds(shape, p)
            ensures At(p) == if p == index then value else old(At(p))
          {
            RowMajorBelowSize(shape, p);
            if p != index && RowMajor(shape, p) == i {
              RowMajorInjective(shape, p, index);
            }
          }
        }
      }
    }

    method GetValue(index: seq<nat>) returns (r: Option<T>)
      requires Valid() && (InBounds(shape, index) ==> MachineIndex(shape, index) < data.Length)
      ensures r == if InBounds(shape, index) then Some(data[MachineIndex(shape, index)]) else None
      ensures Sound(shape) && InBounds(shape, index) ==> r == Some(At(index))
    {
      var ok := CheckIndex(index);
      if ok {
        var i := PosToIndex(shape, index);
        r := Some(data[i]);
        if Sound(shape) { MachineIndexIsRowMajor(shape, index); }
      } else {
        r := None;
      }
    }
  }
}
