/** Conversion of nested, possibly ragged JSON arrays to multi-dimensional arrays
    (src/HDFOperations.h, src/HDFOperations.cpp). A leaf is any element that is not an
    array, already converted to the element type. */
module JsonArrays {
  import opened MachineInts
  import opened Shapes
  import opened MultiVectors

  datatype Json<T> = Leaf(value: T) | Arr(elements: seq<Json<T>>)

  // ---- Reading the tree by paths: what the conversion is measured against ----

  /** The node that a path leads to. */
  function At<T>(j: Json<T>, path: seq<nat>): Option<Json<T>>
    decreases |path|
  {
    if path == [] then Some(j)
    else if j.Arr? && path[0] < |j.elements| then At(j.elements[path[0]], path[1..])
    else None
  }

  predicate IsLeaf<T>(j: Json<T>, path: seq<nat>) {
    At(j, path).Some? && At(j, path).value.Leaf?
  }

  function LeafValue<T>(j: Json<T>, path: seq<nat>): T
    requires IsLeaf(j, path)
  {
    At(j, path).value.value
  }

  ghost predicate ArrayAt<T>(j: Json<T>, path: seq<nat>, es: seq<Json<T>>) {
    At(j, path) == Some(Arr(es))
  }

  /** A path followed by zeros up to the rank of the array. */
  function Pad(path: seq<nat>, rank: nat): (p: seq<nat>)
    requires |path| <= rank
    ensures |p| == rank
  {
    path + seq(rank - |path|, _ => 0)
  }

  // ---- Depth-wise measures ----

  /** Number of array levels. */
  function Rank<T>(j: Json<T>): nat
    decreases j, 1
  {
    if j.Leaf? then 0 else 1 + RankSeq(j.elements)
  }

  function RankSeq<T>(es: seq<Json<T>>): nat
    decreases es, 0
  {
    if es == [] then 0 else Max(RankSeq(es[..|es| - 1]), Rank(es[|es| - 1]))
  }

  /** Largest array length at a depth, zero if there is none. */
  function LengthAt<T>(j: Json<T>, depth: nat): nat
    decreases j, 1
  {
    if j.Leaf? then 0
    else if depth == 0 then |j.elements|
    else LengthAtSeq(j.elements, depth - 1)
  }

  function LengthAtSeq<T>(es: seq<Json<T>>, depth: nat): nat
    decreases es, 0
  {
    if es == [] then 0 else Max(LengthAtSeq(es[..|es| - 1], depth), LengthAt(es[|es| - 1], depth))
  }

  predicate HasLeaf<T>(j: Json<T>)
    decreases j, 1
  {
    j.Leaf? || HasLeafSeq(j.elements)
  }

  predicate HasLeafSeq<T>(es: seq<Json<T>>)
    decreases es, 0
  {
    es != [] && (HasLeafSeq(es[..|es| - 1]) || HasLeaf(es[|es| - 1]))
  }

  lemma {:induction false} SeqMeasuresBound<T>(es: seq<Json<T>>, i: nat)
    requires i < |es|
    ensures Rank(es[i]) <= RankSeq(es)
    ensures forall d: nat :: LengthAt(es[i], d) <= LengthAtSeq(es, d)
    ensures HasLeaf(es[i]) ==> HasLeafSeq(es)
    decreases |es|
  {
    if i < |es| - 1 {
      SeqMeasuresBound(es[..|es| - 1], i);
    }
  }

  lemma {:induction false} SeqLengthAttained<T>(es: seq<Json<T>>, depth: nat) returns (i: nat)
    requires depth < RankSeq(es)
    ensures i < |es| && depth < Rank(es[i]) && LengthAt(es[i], depth) == LengthAtSeq(es, depth)
    decreases |es|
  {
    var last := es[|es| - 1];
    var init := es[..|es| - 1];
    if depth < Rank(last) && LengthAt(last, depth) >= LengthAtSeq(init, depth) {
      i := |es| - 1;
    } else {
      if depth >= Rank(last) { NoLengthBeyondRank(last, depth); }
      if depth >= RankSeq(init) { NoSeqLengthBeyondRank(init, depth); }
      i := SeqLengthAttained(init, depth);
    }
  }

  lemma {:induction false} NoLengthBeyondRank<T>(j: Json<T>, depth: nat)
    requires depth >= Rank(j)
    ensures LengthAt(j, depth) == 0
    decreases j, 1
  {
    if j.Arr? { NoSeqLengthBeyondRank(j.elements, depth - 1); }
  }

  lemma {:induction false} NoSeqLengthBeyondRank<T>(es: seq<Json<T>>, depth: nat)
    requires depth >= RankSeq(es)
    ensures LengthAtSeq(es, depth) == 0
    decreases es, 0
  {
    if es != [] {
      NoSeqLengthBeyondRank(es[..|es| - 1], depth);
      NoLengthBeyondRank(es[|es| - 1], depth);
    }
  }

  /** No array at a depth is longer than the measure, and every node lies within the rank. */
  lemma {:induction false} LengthAtBounds<T>(j: Json<T>, path: seq<nat>)
    requires At(j, path).Some?
    ensures |path| + Rank(At(j, path).value) <= Rank(j)
    ensures At(j, path).value.Arr? ==> |At(j, path).value.elements| <= LengthAt(j, |path|)
    ensures forall k :: 0 <= k < |path| ==> path[k] < LengthAt(j, k)
    ensures HasLeaf(At(j, path).value) ==> HasLeaf(j)
    decreases |path|
  {
    if path != [] {
      var e := j.elements[path[0]];
      LengthAtBounds(e, path[1..]);
      SeqMeasuresBound(j.elements, path[0]);
      forall k | 0 <= k < |path| ensures path[k] < LengthAt(j, k) {
        if k > 0 { assert path[k] == path[1..][k - 1]; }
      }
    }
  }

  /** Some array at every depth below the rank has the measured length. */
  lemma {:induction false} LengthAtAttained<T>(j: Json<T>, depth: nat) returns (path: seq<nat>, es: seq<Json<T>>)
    requires depth < Rank(j)
    ensures |path| == depth && ArrayAt(j, path, es) && |es| == LengthAt(j, depth)
    decreases depth
  {
    if depth == 0 {
      path, es := [], j.elements;
    } else {
      var i := SeqLengthAttained(j.elements, depth - 1);
      var rest;
      rest, es := LengthAtAttained(j.elements[i], depth - 1);
      path := [i] + rest;
    }
  }

  // ---- Dimensions ----

  /** The dimensions after merging in the nodes `es`, all found at `level`. */
  ghost predicate Merged<T>(dims: Shape, dims': Shape, level: nat, es: seq<Json<T>>) {
    && |dims'| == (if RankSeq(es) == 0 then |dims| else Max(|dims|, level + RankSeq(es)))
    && forall k :: 0 <= k < |dims'| ==>
         dims'[k] == Max(if k < |dims| then dims[k] else 0, if k >= level then LengthAtSeq(es, k - level) else 0)
  }

  lemma MeasuresOfOne<T>(j: Json<T>)
    ensures RankSeq([j]) == Rank(j)
    ensures forall d: nat :: LengthAtSeq([j], d) == LengthAt(j, d)
    ensures HasLeafSeq([j]) == HasLeaf(j)
  {
    assert [j][..0] == [];
  }

  lemma MergeOneMore<T>(a: Shape, b: Shape, c: Shape, level: nat, es: seq<Json<T>>, e: Json<T>)
    requires |a| >= level && Merged(a, b, level, es) && Merged(b, c, level, [e])
    ensures Merged(a, c, level, es + [e])
  {
    assert (es + [e])[..|es|] == es;
    MeasuresOfOne(e);
    forall k | 0 <= k < |c|
      ensures c[k] == Max(if k < |a| then a[k] else 0, if k >= level then LengthAtSeq(es + [e], k - level) else 0)
    {
      if k >= |b| { NoSeqLengthBeyondRank(es, k - level); }
    }
  }

  /** Pushes to and raises the dimensions in place; here they are passed in and returned. */
  method FindInnerSize<T>(j: Json<T>, dimensions: Shape, level: nat) returns (dims: Shape)
    requires |dimensions| >= level
    ensures Merged(dimensions, dims, level, [j])
    decreases j
  {
    dims := dimensions;
    if j.Leaf? {
      MeasuresOfOne(j);
    } else {
      dims := OpenLevel(dims, level, |j.elements|);
      ghost var start := dims;
      for i := 0 to |j.elements|
        invariant |dims| >= level + 1
        invariant Merged(start, dims, level + 1, j.elements[..i])
      {
        ghost var previous := dims;
        dims := FindInnerSize(j.elements[i], dims, level + 1);
        MergeOneMore(start, previous, dims, level + 1, j.elements[..i], j.elements[i]);
        assert j.elements[..i + 1] == j.elements[..i] + [j.elements[i]];
      }
      assert j.elements[..|j.elements|] == j.elements;
      MergeArray(dimensions, start, dims, level, j.elements);
    }
  }

  /** Takes in an array's own length. */
  method OpenLevel(dimensions: Shape, level: nat, length: nat) returns (dims: Shape)
    requires |dimensions| >= level
    ensures Opened(dimensions, dims, level, length)
  {
    dims := dimensions;
    if |dims| < level + 1 {
      dims := dims + [0];
    }
    if length > dims[level] {
      dims := dims[level := length];
    }
  }

  /** The dimensions once an array's own length has been taken in. */
  ghost predicate Opened(dims: Shape, start: Shape, level: nat, length: nat) {
    && |start| == Max(|dims|, level + 1)
    && forall k :: 0 <= k < |start| ==>
         start[k] == Max(if k < |dims| then dims[k] else 0, if k == level then length else 0)
  }

  lemma MergeArray<T>(dims: Shape, start: Shape, dims': Shape, level: nat, es: seq<Json<T>>)
    requires |dims| >= level && Opened(dims, start, level, |es|) && Merged(start, dims', level + 1, es)
    ensures Merged(dims, dims', level, [Arr(es)])
  {
    var j := Arr(es);
    MeasuresOfOne(j);
    forall k | 0 <= k < |dims'|
      ensures dims'[k] == Max(if k < |dims| then dims[k] else 0, if k >= level then LengthAtSeq([j], k - level) else 0)
    {
      if k > level { assert LengthAt(j, k - level) == LengthAtSeq(es, k - level - 1); }
    }
  }

  /** The dimensions of a JSON value: `[1]` for anything that is not an array. */
  method DetermineArrayDimensions<T>(j: Json<T>) returns (dims: Shape)
    ensures dims == Dimensions(j)
    ensures j.Leaf? ==> dims == [1]
    ensures j.Arr? ==> |dims| == Rank(j) && forall k :: 0 <= k < |dims| ==> dims[k] == LengthAt(j, k)
  {
    if j.Leaf? { return [1]; }
    dims := FindInnerSize(j, [], 0);
    MeasuresOfOne(j);
    assert dims == Dimensions(j);
  }

  function Dimensions<T>(j: Json<T>): Shape {
    if j.Leaf? then [1] else seq(Rank(j), k requires k >= 0 => LengthAt(j, k))
  }

  // ---- Filling the array ----

  /** What cell `p` receives from the nodes below `j`, which sits at `level`. */
  function CellOf<T>(j: Json<T>, p: seq<nat>, level: nat): Option<T>
    requires level <= |p|
    decreases j
  {
    match j
    case Leaf(v) => if forall k :: level <= k < |p| ==> p[k] == 0 then Some(v) else None
    case Arr(es) =>
      if level < |p| && p[level] < |es| then CellOf(es[p[level]], p, level + 1) else None
  }

  /** The node at `level` fits the shape from that level on. */
  ghost predicate Fits<T>(j: Json<T>, shape: Shape, level: nat) {
    && level + Rank(j) <= |shape|
    && forall d: nat :: d < Rank(j) ==> LengthAt(j, d) <= shape[level + d]
  }

  lemma FitsElement<T>(es: seq<Json<T>>, i: nat, shape: Shape, level: nat)
    requires i < |es| && Fits(Arr(es), shape, level)
    ensures Fits(es[i], shape, level + 1) && |es| <= shape[level]
  {
    SeqMeasuresBound(es, i);
    assert LengthAt(Arr(es), 0) <= shape[level + 0];
    forall d: nat | d < Rank(es[i]) ensures LengthAt(es[i], d) <= shape[level + 1 + d] {
      assert LengthAt(Arr(es), d + 1) <= shape[level + (d + 1)];
    }
  }

  /** The position is in range before `level` and zero from `level` on. */
  predicate AtLevel(shape: Shape, pos: seq<nat>, level: nat) {
    && |pos| == |shape| && level <= |pos|
    && (forall k :: 0 <= k < level ==> pos[k] < shape[k])
    && forall k :: level <= k < |pos| ==> pos[k] == 0
  }

  /** Cell `p` holds what `CellOf` says if it lies below `pos`, and is unchanged otherwise. */
  ghost predicate Filled<T>(j: Json<T>, p: seq<nat>, pos: seq<nat>, level: nat, now: T, was: T)
    requires |p| == |pos| && level <= |pos|
  {
    now == if p[..level] == pos[..level] && CellOf(j, p, level).Some? then CellOf(j, p, level).value else was
  }

  /** The cells that the leaves below `j` go to lie inside the buffer. */
  ghost predicate CellsInside<T>(j: Json<T>, shape: Shape, pos: seq<nat>, level: nat)
    requires |pos| == |shape| && level <= |pos|
  {
    forall p :: InBounds(shape, p) && p[..level] == pos[..level] && CellOf(j, p, level).Some? ==>
                  MachineIndex(shape, p) < ToUInt64(Size(shape))
  }

  lemma CellsInsideElement<T>(es: seq<Json<T>>, i: nat, shape: Shape, position: seq<nat>, level: nat)
    requires |position| == |shape| && level < |shape| && i < |es| && CellsInside(Arr(es), shape, position, level)
    ensures CellsInside(es[i], shape, position[level := i], level + 1)
  {
    var pos := position[level := i];
    forall p | InBounds(shape, p) && p[..level + 1] == pos[..level + 1] && CellOf(es[i], p, level + 1).Some?
      ensures MachineIndex(shape, p) < ToUInt64(Size(shape))
    {
      assert p[level] == p[..level + 1][level] == pos[..level + 1][level] == i;
      assert p[..level] == p[..level + 1][..level] == pos[..level + 1][..level] == position[..level];
      assert CellOf(Arr(es), p, level).Some?;
    }
  }

  /** A leaf written at `pos` is found where `CellOf` looks for it. */
  lemma LeafFilled<T>(v: T, shape: Shape, p: seq<nat>, pos: seq<nat>, level: nat, now: T, was: T)
    requires |p| == |shape| && AtLevel(shape, pos, level)
    requires now == if p == pos then v else was
    ensures Filled(Leaf(v), p, pos, level, now, was)
  {
    if p[..level] == pos[..level] && CellOf(Leaf(v), p, level).Some? {
      assert forall k :: 0 <= k < level ==> p[k] == p[..level][k] == pos[..level][k] == pos[k];
      assert p == pos;
    }
  }

  /** One more element fills its own cells and no others. */
  lemma ElementFilled<T>(es: seq<Json<T>>, i: nat, p: seq<nat>, position: seq<nat>, level: nat, now: T, mid: T, was: T)
    requires i < |es| && |p| == |position| && level < |p|
    requires Filled(Arr(es[..i]), p, position, level, mid, was)
    requires Filled(es[i], p, position[level := i], level + 1, now, mid)
    ensures Filled(Arr(es[..i + 1]), p, position, level, now, was)
  {
    var pos := position[level := i];
    assert pos[..level + 1] == position[..level] + [i];
    assert p[..level + 1] == p[..level] + [p[level]];
    assert p[..level + 1] == pos[..level + 1] <==> p[..level] == position[..level] && p[level] == i;
  }

  /** Writes every leaf below an array at `level`; false where a write throws. */
  method PopulateMultiVector<T(0)>(es: seq<Json<T>>, target: MultiVector<T>, position: seq<nat>, level: nat)
    returns (ok: bool)
    requires target.Valid() && Fits(Arr(es), target.shape, level) && AtLevel(target.shape, position, level)
    requires CellsInside(Arr(es), target.shape, position, level)
    modifies target.data
    ensures ok <==> (HasLeafSeq(es) ==> AllPositive(target.shape))
    ensures ok && Sound(target.shape) ==> forall p :: InBounds(target.shape, p) ==>
                      Filled(Arr(es), p, position, level, target.At(p), old(target.At(p)))
    decreases es
  {
    var pos := position;
    for i := 0 to |es|
      invariant pos == position[level := i]
      invariant HasLeafSeq(es[..i]) ==> AllPositive(target.shape)
      invariant Sound(target.shape) ==> forall p :: InBounds(target.shape, p) ==>
                              Filled(Arr(es[..i]), p, position, level, target.At(p), old(target.At(p)))
    {
      FitsElement(es, i, target.shape, level);
      CellsInsideElement(es, i, target.shape, position, level);
      assert AtLevel(target.shape, pos, level + 1);
      label before:
      ok := PopulateElement(es[i], target, pos, level + 1);
      if !ok {
        SeqMeasuresBound(es, i);
        return;
      }
      assert es[..i + 1][..i] == es[..i];
      forall p | Sound(target.shape) && InBounds(target.shape, p)
        ensures Filled(Arr(es[..i + 1]), p, position, level, target.At(p), old(target.At(p)))
      {
        ElementFilled(es, i, p, position, level, target.At(p), old@before(target.At(p)), old(target.At(p)));
      }
      pos := pos[level := pos[level] + 1];
    }
    assert es[..|es|] == es;
    return true;
  }

  /** The loop body of the conversion: an inner array is entered, anything else is written. */
  method PopulateElement<T(0)>(e: Json<T>, target: MultiVector<T>, pos: seq<nat>, level: nat) returns (ok: bool)
    requires target.Valid() && Fits(e, target.shape, level) && AtLevel(target.shape, pos, level)
    requires CellsInside(e, target.shape, pos, level)
    modifies target.data
    ensures ok <==> (HasLeaf(e) ==> AllPositive(target.shape))
    ensures ok && Sound(target.shape) ==> forall p :: InBounds(target.shape, p) ==>
                      Filled(e, p, pos, level, target.At(p), old(target.At(p)))
    decreases e
  {
    if e.Arr? {
      ok := PopulateMultiVector(e.elements, target, pos, level);
    } else {
      assert pos[..level] == pos[..level] && CellOf(e, pos, level).Some?;
      ok := target.SetValue(pos, e.value);
      if ok {
        forall p | Sound(target.shape) && InBounds(target.shape, p)
          ensures Filled(e, p, pos, level, target.At(p), old(target.At(p)))
        {
          LeafFilled(e.value, target.shape, p, pos, level, target.At(p), old(target.At(p)));
        }
      }
    }
  }

  // ---- The conversion as a whole ----

  lemma {:induction false} CellOfLeaf<T>(j: Json<T>, path: seq<nat>, p: seq<nat>, level: nat)
    requires IsLeaf(j, path) && level + |path| <= |p| && p[level..] == Pad(path, |p| - level)
    ensures CellOf(j, p, level) == Some(LeafValue(j, path))
    decreases |path|
  {
    if path == [] {
      forall k | level <= k < |p| ensures p[k] == 0 { assert p[k] == p[level..][k - level]; }
    } else {
      assert p[level] == p[level..][0] == path[0];
      assert p[level + 1..] == p[level..][1..] == Pad(path[1..], |p| - level - 1);
      CellOfLeaf(j.elements[path[0]], path[1..], p, level + 1);
    }
  }

  lemma {:induction false} LeafOfCell<T>(j: Json<T>, p: seq<nat>, level: nat) returns (path: seq<nat>)
    requires level <= |p| && CellOf(j, p, level).Some?
    ensures IsLeaf(j, path) && LeafValue(j, path) == CellOf(j, p, level).value
    ensures level + |path| <= |p| && p[level..] == Pad(path, |p| - level)
    decreases j
  {
    if j.Leaf? {
      path := [];
    } else {
      var rest := LeafOfCell(j.elements[p[level]], p, level + 1);
      path := [p[level]] + rest;
      assert path[1..] == rest;
      assert p[level..] == [p[level]] + p[level + 1..];
    }
  }

  /** Two leaves that pad to the same position are the same leaf. */
  lemma {:induction false} LeavesDoNotCollide<T>(j: Json<T>, a: seq<nat>, b: seq<nat>, rank: nat)
    requires IsLeaf(j, a) && IsLeaf(j, b) && |a| <= rank && |b| <= rank
    requires Pad(a, rank) == Pad(b, rank)
    ensures a == b
    decreases |a|
  {
    if a != [] && b != [] {
      assert Pad(a, rank)[0] == a[0] && Pad(b, rank)[0] == b[0];
      assert Pad(a, rank)[1..] == Pad(a[1..], rank - 1) && Pad(b, rank)[1..] == Pad(b[1..], rank - 1);
      LeavesDoNotCollide(j.elements[a[0]], a[1..], b[1..], rank - 1);
      assert a == [a[0]] + a[1..] && b == [b[0]] + b[1..];
    }
  }

  /** A padded leaf path is in range as soon as no dimension is zero. */
  lemma LeafInBounds<T>(j: Json<T>, path: seq<nat>)
    requires IsLeaf(j, path)
    ensures HasLeaf(j) && |path| <= |Dimensions(j)|
    ensures AllPositive(Dimensions(j)) <==> InBounds(Dimensions(j), Pad(path, |Dimensions(j)|))
  {
    LengthAtBounds(j, path);
  }

  ghost predicate PaddedLeaf<T>(j: Json<T>, path: seq<nat>, p: seq<nat>) {
    IsLeaf(j, path) && |path| <= |p| && p == Pad(path, |p|)
  }

  /** The array holds exactly the leaves of the tree, each at its padded path. */
  ghost predicate Represents<T(0)>(j: Json<T>, m: MultiVector<T>, zero: T)
    reads m, m.data
    requires m.Valid() && m.shape == Dimensions(j) && Sound(m.shape)
  {
    && (forall path :: IsLeaf(j, path) ==>
          && |path| <= |m.shape|
          && InBounds(m.shape, Pad(path, |m.shape|))
          && m.At(Pad(path, |m.shape|)) == LeafValue(j, path))
    && (forall p :: InBounds(m.shape, p) ==> m.At(p) == zero || exists path :: PaddedLeaf(j, path, p))
  }

  /** Every leaf that is written has its cell inside the buffer. */
  ghost predicate LeavesInside<T>(j: Json<T>) {
    var dims := Dimensions(j);
    forall path :: IsLeaf(j, path) && |path| <= |dims| && InBounds(dims, Pad(path, |dims|)) ==>
                     MachineIndex(dims, Pad(path, |dims|)) < ToUInt64(Size(dims))
  }

  /** Sound dimensions have room for every leaf. */
  lemma SoundLeavesInside<T>(j: Json<T>)
    requires Sound(Dimensions(j))
    ensures LeavesInside(j)
  {
    IndexBijection(Dimensions(j));
  }

  lemma LeavesInsideCells<T>(j: Json<T>, es: seq<Json<T>>, origin: seq<nat>)
    requires LeavesInside(j) && es == if j.Arr? then j.elements else [j]
    requires |origin| == |Dimensions(j)| && forall k :: 0 <= k < |origin| ==> origin[k] == 0
    ensures CellsInside(Arr(es), Dimensions(j), origin, 0)
  {
    var dims := Dimensions(j);
    forall p | InBounds(dims, p) && p[..0] == origin[..0] && CellOf(Arr(es), p, 0).Some?
      ensures MachineIndex(dims, p) < ToUInt64(Size(dims))
    {
      var path;
      if j.Arr? {
        path := LeafOfCell(j, p, 0);
        assert p[0..] == p;
      } else {
        path := [];
        assert p == Pad([], 1);
      }
      assert IsLeaf(j, path) && p == Pad(path, |dims|);
    }
  }

  /** None where the source throws: a leaf exists and some dimension is zero. A leaf's cell has to lie
      inside the buffer, which the source does not test; it does for all leaves if the dimensions are sound
      (`SoundLeavesInside`) or keep every index inside (`InsideBufferIff`). Where different positions can
      share a cell (`DistinctIffAddressable`), leaves can collide. */
  method JsonArrayToMultiArray<T(0)>(j: Json<T>, zero: T) returns (r: Option<MultiVector<T>>)
    requires LeavesInside(j)
    ensures r.None? <==> HasLeaf(j) && !AllPositive(Dimensions(j))
    ensures r.Some? ==> fresh(r.value) && r.value.Valid() && r.value.shape == Dimensions(j)
    ensures r.Some? && Sound(Dimensions(j)) ==> Represents(j, r.value, zero)
  {
    var dims := DetermineArrayDimensions(j);
    var m := new MultiVector<T>(dims, zero);
    // Iterating over a JSON scalar visits the scalar itself.
    var es := if j.Arr? then j.elements else [j];
    ghost var tree := Arr(es);
    MeasuresOfOne(j);
    var origin := seq(|dims|, _ => 0);
    LeavesInsideCells(j, es, origin);
    var ok := PopulateMultiVector(es, m, origin, 0);
    if !ok { return None; }
    forall p | Sound(dims) && InBounds(dims, p) ensures m.At(p) == Cell(j, p, zero) {
      assert Filled(tree, p, origin, 0, m.At(p), zero);
      assert p[..0] == origin[..0];
      if j.Leaf? { assert CellOf(tree, p, 0) == CellOf(j, p, 1); }
    }
    if Sound(dims) { CellsRepresent(j, m, zero); }
    return Some(m);
  }

  /** What the conversion leaves at a position. */
  ghost function Cell<T>(j: Json<T>, p: seq<nat>, zero: T): T
    requires InBounds(Dimensions(j), p)
  {
    var c := CellOf(j, p, if j.Arr? then 0 else 1);
    if c.Some? then c.value else zero
  }

  lemma CellsRepresent<T(0)>(j: Json<T>, m: MultiVector<T>, zero: T)
    requires m.Valid() && m.shape == Dimensions(j) && Sound(m.shape)
    requires HasLeaf(j) ==> AllPositive(m.shape)
    requires forall p :: InBounds(m.shape, p) ==> m.At(p) == Cell(j, p, zero)
    ensures Represents(j, m, zero)
  {
    var dims := m.shape;
    forall path | IsLeaf(j, path)
      ensures |path| <= |dims| && InBounds(dims, Pad(path, |dims|)) && m.At(Pad(path, |dims|)) == LeafValue(j, path)
    {
      LeafInBounds(j, path);
      var p := Pad(path, |dims|);
      assert p[0..] == p;
      if j.Arr? { CellOfLeaf(j, path, p, 0); }
    }
    forall p | InBounds(dims, p) && m.At(p) != zero ensures exists path :: PaddedLeaf(j, path, p) {
      assert p[0..] == p;
      if j.Arr? {
        var path := LeafOfCell(j, p, 0);
        assert PaddedLeaf(j, path, p);
      } else {
        assert PaddedLeaf(j, [], p);
      }
    }
  }
}
