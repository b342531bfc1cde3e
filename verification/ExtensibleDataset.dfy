/** Growing HDF5 datasets (src/NeXusDataset/ExtensibleDataset.h). A dataset is its extent and
    its cells; growing keeps the old cells and shows new ones as 0. */
module ExtensibleDatasets {
  import opened Shapes

  // ---- One-dimensional datasets with a cached element count ----

  function Zeros(n: nat): (s: seq<int>)
    ensures |s| == n && forall i :: 0 <= i < n ==> s[i] == 0
  {
    seq(n, _ => 0)
  }

  function Resized(s: seq<int>, n: nat): (r: seq<int>)
    ensures |r| == n
  {
    if n <= |s| then s[..n] else s + Zeros(n - |s|)
  }

  function Overwritten(s: seq<int>, offset: nat, v: seq<int>): (r: seq<int>)
    requires offset + |v| <= |s|
    ensures |r| == |s|
  {
    s[..offset] + v + s[offset + |v|..]
  }

  /** What the dataset holds after an array (or element) is appended at the cached count. */
  function AfterAppend(s: seq<int>, count: nat, v: seq<int>): seq<int>
    requires count <= |s|
  {
    Overwritten(Resized(s, |s| + |v|), count, v)
  }

  /** What it holds after an array adapter is appended: the extent is set from the cached count. */
  function AfterAppendAdapter(s: seq<int>, count: nat, v: seq<int>): seq<int>
    requires count <= |s|
  {
    if v == [] then s else Overwritten(Resized(s, count + |v|), count, v)
  }

  lemma AppendWhenCounted(s: seq<int>, v: seq<int>)
    ensures AfterAppend(s, |s|, v) == s + v
    ensures AfterAppendAdapter(s, |s|, v) == s + v
  {
    assert Overwritten(Resized(s, |s| + |v|), |s|, v) == s + v;
    if v == [] { assert s + v == s; }
  }

  /** Where everything is after an append at any cached count: the payload from the count on, the old
      contents elsewhere, zeros in what is new and not covered. The adapter form cuts off what lies behind
      the payload. */
  lemma AppendPlaces(s: seq<int>, count: nat, v: seq<int>)
    requires count <= |s|
    ensures |AfterAppend(s, count, v)| == |s| + |v|
    ensures forall i :: 0 <= i < |s| + |v| ==>
              AfterAppend(s, count, v)[i] ==
              if count <= i < count + |v| then v[i - count] else if i < |s| then s[i] else 0
    ensures |AfterAppendAdapter(s, count, v)| == if v == [] then |s| else count + |v|
    ensures forall i :: 0 <= i < |AfterAppendAdapter(s, count, v)| ==>
              AfterAppendAdapter(s, count, v)[i] == if count <= i < count + |v| then v[i - count] else s[i]
  {
  }

  /** Appending puts every payload after the old contents exactly when the cached count is the
      size; opening by name through the base class (count 0) therefore needs an empty dataset. */
  lemma AppendFaithfulIffCounted(s: seq<int>, count: nat)
    requires count <= |s|
    ensures (forall v :: AfterAppend(s, count, v) == s + v) <==> count == |s|
    ensures (forall v :: AfterAppendAdapter(s, count, v) == s + v) <==> count == |s|
  {
    if count == |s| {
      forall v ensures AfterAppend(s, count, v) == s + v && AfterAppendAdapter(s, count, v) == s + v {
        AppendWhenCounted(s, v);
      }
    } else {
      assert AfterAppend(s, count, [1])[|s|] == 0 && (s + [1])[|s|] == 1;
      assert |AfterAppendAdapter(s, count, [1])| == count + 1;
    }
  }

  class ExtensibleDataset {
    var data: seq<int>
    var nrOfElements: nat

    ghost predicate Valid()
      reads this
    {
      nrOfElements <= |data|
    }

    /** Opening through the templated class takes the count from the dataset. */
    constructor Open(existing: seq<int>)
      ensures Valid() && data == existing && nrOfElements == |data|
    {
      data, nrOfElements := existing, |existing|;
    }

    /** Opening by name through the base class leaves the count at zero. */
    constructor OpenBase(existing: seq<int>)
      ensures Valid() && data == existing && nrOfElements == 0
    {
      data, nrOfElements := existing, 0;
    }

    method AppendArray(v: seq<int>)
      requires Valid()
      modifies this
      ensures Valid() && nrOfElements == old(nrOfElements) + |v|
      ensures data == AfterAppend(old(data), old(nrOfElements), v)
      ensures old(nrOfElements) == |old(data)| ==> data == old(data) + v && nrOfElements == |data|
    {
      AppendWhenCounted(data, v);
      data := Resized(data, |data| + |v|);
      data := Overwritten(data, nrOfElements, v);
      nrOfElements := nrOfElements + |v|;
    }

    method AppendElement(x: int)
      requires Valid()
      modifies this
      ensures Valid() && nrOfElements == old(nrOfElements) + 1
      ensures data == AfterAppend(old(data), old(nrOfElements), [x])
      ensures old(nrOfElements) == |old(data)| ==> data == old(data) + [x] && nrOfElements == |data|
    {
      AppendWhenCounted(data, [x]);
      data := Resized(data, |data| + 1);
      data := Overwritten(data, nrOfElements, [x]);
      nrOfElements := nrOfElements + 1;
    }

    method AppendArrayAdapter(v: seq<int>)
      requires Valid()
      modifies this
      ensures Valid() && nrOfElements == old(nrOfElements) + |v|
      ensures data == AfterAppendAdapter(old(data), old(nrOfElements), v)
      ensures old(nrOfElements) == |old(data)| ==> data == old(data) + v && nrOfElements == |data|
    {
      AppendWhenCounted(data, v);
      if v == [] { return; }
      data := Resized(data, nrOfElements + |v|);
      data := Overwritten(data, nrOfElements, v);
      nrOfElements := nrOfElements + |v|;
    }
  }

  // ---- Multi-dimensional datasets: one frame per append along axis 0 ----

  datatype Frame = Frame(data: seq<int>, shape: Shape)

  /** An extent and the cells written so far; every other cell reads as 0. */
  datatype DatasetView = DatasetView(extent: Shape, cells: map<seq<nat>, int>) {
    ghost predicate Valid() {
      extent != [] && forall p :: p in cells ==> InBounds(extent, p)
    }

    function Read(p: seq<nat>): int
      requires InBounds(extent, p)
    {
      if p in cells then cells[p] else 0
    }
  }

  /** The element of a frame at an index: row-major inside its own shape and 0 outside. The write
      of a payload whose length is not the size of its shape fails and leaves only zeros. */
  function FrameCell(f: Frame, q: seq<nat>): int {
    if |f.data| == Size(f.shape) && InBounds(f.shape, q)
    then RowMajorBelowSize(f.shape, q); f.data[RowMajor(f.shape, q)]
    else 0
  }

  ghost predicate RightRank(v: DatasetView, f: Frame) {
    |f.shape| + 1 == |v.extent|
  }

  ghost function OldCell(v: DatasetView, p: seq<nat>): int {
    if InBounds(v.extent, p) then v.Read(p) else 0
  }

  /** The effect of one append, read cell by cell. */
  ghost predicate AppendStep(v: DatasetView, v': DatasetView, f: Frame)
    requires v.extent != []
  {
    if !RightRank(v, f) then v' == v
    else
      && |v'.extent| == |v.extent|
      && v'.extent[0] == v.extent[0] + 1
      && (forall i :: 1 <= i < |v.extent| ==> v'.extent[i] == Max(v.extent[i], f.shape[i - 1]))
      && (forall p :: InBounds(v'.extent, p) ==>
            v'.Read(p) == if p[0] == v.extent[0] then FrameCell(f, p[1..]) else OldCell(v, p))
  }

  datatype Outcome = Appended | WrongRank | WriteFailed

  class MultiDimDataset {
    var extent: Shape
    var cells: map<seq<nat>, int>

    ghost function View(): DatasetView
      reads this
    {
      DatasetView(extent, cells)
    }

    /** A new dataset has no rows. */
    constructor (shape: Shape)
      ensures View().Valid() && extent == [0] + shape && cells == map[]
    {
      extent, cells := [0] + shape, map[];
    }

    method AppendArray(newData: seq<int>, shape: Shape) returns (r: Outcome)
      requires View().Valid()
      modifies this
      ensures View().Valid()
      ensures AppendStep(old(View()), View(), Frame(newData, shape))
      ensures r == if |shape| + 1 != |old(extent)| then WrongRank
                   else if |newData| == Size(shape) then Appended else WriteFailed
    {
      var row := extent[0];
      var currentExtent := extent[0 := row + 1];
      var newShape := [1] + shape;
      if |newShape| != |currentExtent| { return WrongRank; }
      for i := 1 to |newShape|
        invariant |currentExtent| == |extent| && currentExtent[0] == row + 1
        invariant forall k :: 1 <= k < i ==> currentExtent[k] == Max(extent[k], shape[k - 1])
        invariant forall k :: i <= k < |extent| ==> currentExtent[k] == extent[k]
      {
        if newShape[i] > currentExtent[i] {
          currentExtent := currentExtent[i := newShape[i]];
        }
      }
      extent := currentExtent;
      assert forall p :: InBounds(old(extent), p) ==> InBounds(extent, p) && p[0] != row;
      if |newData| != Size(shape) { return WriteFailed; }
      WriteHyperslab(row, newData, shape);
      return Appended;
    }

    /** The library's hyperslab write: elements in memory order go to positions in row-major order. */
    method WriteHyperslab(row: nat, newData: seq<int>, shape: Shape)
      requires |newData| == Size(shape) && |extent| == |shape| + 1 && row < extent[0]
      requires forall i :: 0 <= i < |shape| ==> shape[i] <= extent[i + 1]
      requires View().Valid() && forall p :: p in cells ==> p[0] != row
      modifies this`cells
      ensures View().Valid()
      ensures forall p :: InBounds(extent, p) ==>
                View().Read(p) == if p[0] == row then FrameCell(Frame(newData, shape), p[1..]) else old(View()).Read(p)
    {
      ghost var before, frame := View(), Frame(newData, shape);
      for i := 0 to |newData|
        invariant View().Valid() && SlabUpTo(before, View(), row, frame, i)
      {
        var q := Unflatten(shape, i);
        SlabOneMore(before, View(), row, frame, i);
        cells := cells[[row] + q := newData[i]];
      }
      SlabDone(before, View(), row, frame);
    }
  }

  /** The first `i` elements of the frame are in the row, zeros are in the rest of it, and everything else
      is as before. */
  ghost predicate SlabUpTo(before: DatasetView, v: DatasetView, row: nat, f: Frame, i: nat)
    requires |f.data| == Size(f.shape)
  {
    && v.extent == before.extent && v.extent != []
    && forall p :: InBounds(v.extent, p) ==> v.Read(p) == SlabCell(before, row, f, i, p)
  }

  ghost function SlabCell(before: DatasetView, row: nat, f: Frame, i: nat, p: seq<nat>): int
    requires |f.data| == Size(f.shape) && before.extent != [] && InBounds(before.extent, p)
  {
    if p[0] != row then before.Read(p)
    else if InBounds(f.shape, p[1..]) && RowMajor(f.shape, p[1..]) < i then FrameCell(f, p[1..])
    else 0
  }

  lemma SlabOneMore(before: DatasetView, v: DatasetView, row: nat, f: Frame, i: nat)
    requires |f.data| == Size(f.shape) && i < |f.data| && |v.extent| == |f.shape| + 1 && row < v.extent[0]
    requires forall k :: 0 <= k < |f.shape| ==> f.shape[k] <= v.extent[k + 1]
    requires v.Valid() && SlabUpTo(before, v, row, f, i)
    ensures var v' := v.(cells := v.cells[[row] + Unflatten(f.shape, i) := f.data[i]]);
            v'.Valid() && SlabUpTo(before, v', row, f, i + 1)
  {
    var v' := v.(cells := v.cells[[row] + Unflatten(f.shape, i) := f.data[i]]);
    forall p | InBounds(v'.extent, p) ensures v'.Read(p) == SlabCell(before, row, f, i + 1, p) {
      assert p == [p[0]] + p[1..];
      OnlyIndex(f.shape, i, p[1..]);
    }
  }

  lemma SlabDone(before: DatasetView, v: DatasetView, row: nat, f: Frame)
    requires |f.data| == Size(f.shape) && SlabUpTo(before, v, row, f, |f.data|)
    ensures forall p :: InBounds(v.extent, p) ==>
              v.Read(p) == if p[0] == row then FrameCell(f, p[1..]) else before.Read(p)
  {
    forall p | InBounds(v.extent, p)
      ensures v.Read(p) == if p[0] == row then FrameCell(f, p[1..]) else before.Read(p)
    {
      if p[0] == row && InBounds(f.shape, p[1..]) { RowMajorBelowSize(f.shape, p[1..]); }
    }
  }

  /** One position has a given index. */
  lemma OnlyIndex(shape: Shape, i: nat, p: seq<nat>)
    requires i < Size(shape)
    ensures p == Unflatten(shape, i) <==> InBounds(shape, p) && RowMajor(shape, p) == i
  {
    FlattenUnflatten(shape, i);
    if InBounds(shape, p) && RowMajor(shape, p) == i {
      RowMajorInjective(shape, p, Unflatten(shape, i));
    }
  }

  // ---- Every run of appends ----

  function Accepted(fs: seq<Frame>, rank: nat): seq<Frame> {
    if fs == [] then []
    else Accepted(fs[..|fs| - 1], rank) + (if |fs[|fs| - 1].shape| == rank then [fs[|fs| - 1]] else [])
  }

  lemma {:induction false} AcceptedHaveRank(fs: seq<Frame>, rank: nat)
    ensures forall k :: 0 <= k < |Accepted(fs, rank)| ==> |Accepted(fs, rank)[k].shape| == rank
  {
    if fs != [] { AcceptedHaveRank(fs[..|fs| - 1], rank); }
  }

  /** Largest of an initial size and the sizes of all frames along an axis. */
  function AxisMax(initial: nat, fs: seq<Frame>, axis: nat): nat
    requires forall k :: 0 <= k < |fs| ==> axis < |fs[k].shape|
  {
    if fs == [] then initial
    else Max(AxisMax(initial, fs[..|fs| - 1], axis), fs[|fs| - 1].shape[axis])
  }

  /** The states passed through while a list of frames is appended. */
  ghost predicate IsRun(vs: seq<DatasetView>, fs: seq<Frame>) {
    && |vs| == |fs| + 1
    && (forall k :: 0 <= k < |vs| ==> vs[k].extent != [])
    && forall k :: 0 <= k < |fs| ==> AppendStep(vs[k], vs[k + 1], fs[k])
  }

  /** What a dataset that started as `v0` shows after the accepted frames `gs`. */
  ghost predicate Shows(v0: DatasetView, v: DatasetView, gs: seq<Frame>)
    requires v0.extent != []
    requires forall k :: 0 <= k < |gs| ==> |gs[k].shape| + 1 == |v0.extent|
  {
    && |v.extent| == |v0.extent|
    && v.extent[0] == v0.extent[0] + |gs|
    && (forall i :: 1 <= i < |v0.extent| ==> v.extent[i] == AxisMax(v0.extent[i], gs, i - 1))
    && (forall p :: InBounds(v.extent, p) ==>
          v.Read(p) == if p[0] < v0.extent[0] then OldCell(v0, p) else FrameCell(gs[p[0] - v0.extent[0]], p[1..]))
  }

  lemma OneMoreFrame(v0: DatasetView, v: DatasetView, v': DatasetView, gs: seq<Frame>, f: Frame)
    requires v0.extent != [] && v.extent != []
    requires forall k :: 0 <= k < |gs| ==> |gs[k].shape| + 1 == |v0.extent|
    requires Shows(v0, v, gs) && RightRank(v, f) && AppendStep(v, v', f)
    ensures Shows(v0, v', gs + [f])
  {
    var hs := gs + [f];
    assert hs[..|hs| - 1] == gs;
    forall i | 1 <= i < |v0.extent| ensures v'.extent[i] == AxisMax(v0.extent[i], hs, i - 1) {
      assert v.extent[i] == AxisMax(v0.extent[i], gs, i - 1);
    }
    forall p | InBounds(v'.extent, p)
      ensures v'.Read(p) == if p[0] < v0.extent[0] then OldCell(v0, p) else FrameCell(hs[p[0] - v0.extent[0]], p[1..])
    {
      if p[0] != v.extent[0] && !InBounds(v.extent, p) {
        OutsideIsZero(v0, v, gs, p);
      }
    }
  }

  lemma {:induction false} AxisMaxBounds(initial: nat, fs: seq<Frame>, axis: nat)
    requires forall k :: 0 <= k < |fs| ==> axis < |fs[k].shape|
    ensures initial <= AxisMax(initial, fs, axis)
    ensures forall k :: 0 <= k < |fs| ==> fs[k].shape[axis] <= AxisMax(initial, fs, axis)
  {
    if fs != [] { AxisMaxBounds(initial, fs[..|fs| - 1], axis); }
  }

  /** A cell that only later growth brings into range lies outside its own frame. */
  lemma OutsideIsZero(v0: DatasetView, v: DatasetView, gs: seq<Frame>, p: seq<nat>)
    requires v0.extent != []
    requires forall k :: 0 <= k < |gs| ==> |gs[k].shape| + 1 == |v0.extent|
    requires Shows(v0, v, gs) && |p| == |v.extent| && p[0] < v.extent[0] && !InBounds(v.extent, p)
    ensures p[0] < v0.extent[0] ==> OldCell(v0, p) == 0
    ensures p[0] >= v0.extent[0] ==> FrameCell(gs[p[0] - v0.extent[0]], p[1..]) == 0
  {
    var i :| 1 <= i < |p| && p[i] >= v.extent[i];
    AxisMaxBounds(v0.extent[i], gs, i - 1);
    assert p[1..][i - 1] == p[i];
  }

  lemma OneMoreAppend(v0: DatasetView, v: DatasetView, v': DatasetView, gs: seq<Frame>, f: Frame)
    requires v0.extent != [] && v.extent != []
    requires forall k :: 0 <= k < |gs| ==> |gs[k].shape| + 1 == |v0.extent|
    requires Shows(v0, v, gs) && AppendStep(v, v', f)
    ensures Shows(v0, v', gs + (if |f.shape| == |v0.extent| - 1 then [f] else []))
  {
    if RightRank(v, f) { OneMoreFrame(v0, v, v', gs, f); } else { assert gs + [] == gs; }
  }

  lemma RunPrefix(vs: seq<DatasetView>, fs: seq<Frame>)
    requires IsRun(vs, fs) && fs != []
    ensures var n := |fs|;
            && IsRun(vs[..n], fs[..n - 1]) && vs[..n][0] == vs[0] && vs[..n][n - 1] == vs[n - 1]
            && AppendStep(vs[n - 1], vs[n], fs[n - 1])
  {
    var n := |fs|;
    forall k | 0 <= k < n - 1 ensures AppendStep(vs[..n][k], vs[..n][k + 1], fs[..n - 1][k]) {
      assert AppendStep(vs[k], vs[k + 1], fs[k]);
    }
  }

  /** Over any run of appends, rejected ones included, axis 0 grows by the number of accepted
      frames, every other axis is the maximum seen, and each frame stays where it was put. */
  lemma {:induction false} RunShowsFrames(vs: seq<DatasetView>, fs: seq<Frame>)
    requires IsRun(vs, fs)
    ensures var gs := Accepted(fs, |vs[0].extent| - 1);
            && (forall k :: 0 <= k < |gs| ==> |gs[k].shape| + 1 == |vs[0].extent|)
            && Shows(vs[0], vs[|fs|], gs)
  {
    var v0, n := vs[0], |fs|;
    AcceptedHaveRank(fs, |v0.extent| - 1);
    if n > 0 {
      var gs := Accepted(fs[..n - 1], |v0.extent| - 1);
      AcceptedHaveRank(fs[..n - 1], |v0.extent| - 1);
      RunPrefix(vs, fs);
      RunShowsFrames(vs[..n], fs[..n - 1]);
      OneMoreAppend(v0, vs[n - 1], vs[n], gs, fs[n - 1]);
    }
  }
}
