/** Sources that write through the same module share one filter (src/Stream/Partition.cpp).
    Sharing, fan-out to all filters and erasing finished ones is invisible to a destination:
    it gets what a filter of its own would have sent. */
module FilterSharing {
  import opened MachineInts
  import opened Sequences
  import opened SourceFilters
  import opened SourceFilterRuns

  /** One source of a topic and the writer module it feeds. */
  datatype Source = Source(srcHash: nat, writeHash: nat, destination: nat, acceptsRepeats: bool)

  /** A filter together with the writer modules that it feeds. */
  datatype Shared = Shared(state: Filter, destinations: seq<nat>)

  // ---- Grouping by write hash ----

  function DestinationsOf(sources: seq<Source>, h: nat): seq<nat> {
    if sources == [] then []
    else
      var last := sources[|sources| - 1];
      DestinationsOf(sources[..|sources| - 1], h) + (if last.writeHash == h then [last.destination] else [])
  }

  /** The repeat flag is that of the first source of the group. */
  function RepeatsOf(sources: seq<Source>, h: nat): bool
    requires exists i :: 0 <= i < |sources| && sources[i].writeHash == h
  {
    if sources[0].writeHash == h then sources[0].acceptsRepeats else RepeatsOf(sources[1..], h)
  }

  /** The source hash is that of the last source of the group. */
  function SourceHashOf(sources: seq<Source>, h: nat): nat
    requires exists i :: 0 <= i < |sources| && sources[i].writeHash == h
  {
    var last := sources[|sources| - 1];
    if last.writeHash == h then last.srcHash else SourceHashOf(sources[..|sources| - 1], h)
  }

  predicate HasHash(sources: seq<Source>, h: nat) {
    exists i :: 0 <= i < |sources| && sources[i].writeHash == h
  }

  function GroupFilter(sources: seq<Source>, h: nat, start: int, stop: int): Shared
    requires HasHash(sources, h)
  {
    Shared(NewFilter(start, stop, RepeatsOf(sources, h), SourceHashOf(sources, h)), DestinationsOf(sources, h))
  }

  /** The hashes list every group once. */
  ghost predicate Enumerates(hashes: seq<nat>, sources: seq<Source>) {
    && (forall i, j :: 0 <= i < j < |hashes| ==> hashes[i] != hashes[j])
    && (forall h :: h in hashes <==> HasHash(sources, h))
  }

  function Groups(sources: seq<Source>, hashes: seq<nat>, start: int, stop: int): seq<Shared>
    requires forall h :: h in hashes ==> HasHash(sources, h)
  {
    seq(|hashes|, i requires 0 <= i < |hashes| => GroupFilter(sources, hashes[i], start, stop))
  }

  // ---- Dispatching ----

  /** The results of a function on each element, joined in order. */
  function FlatMap<S, T>(f: S -> seq<T>, xs: seq<S>): seq<T> {
    if xs == [] then [] else FlatMap(f, xs[..|xs| - 1]) + f(xs[|xs| - 1])
  }

  lemma {:induction false} FlatMapConcat<S, T>(f: S -> seq<T>, a: seq<S>, b: seq<S>)
    ensures FlatMap(f, a + b) == FlatMap(f, a) + FlatMap(f, b)
    decreases |b|
  {
    if b == [] {
      assert a + b == a;
    } else {
      assert (a + b)[..|a + b| - 1] == a + b[..|b| - 1];
      FlatMapConcat(f, a, b[..|b| - 1]);
    }
  }

  lemma FlatMapOne<S, T>(f: S -> seq<T>, x: S)
    ensures FlatMap(f, [x]) == f(x)
  {
    assert [x][..0] == [];
  }

  /** The writes that an event causes in one filter. */
  function Emit(e: Event): Shared -> seq<Write> {
    (x: Shared) => WritesOf(Apply(x.state, e).1, x.destinations)
  }

  /** A filter after an event, gone if it has finished. */
  function Survive(e: Event): Shared -> seq<Shared> {
    (x: Shared) => var g := Apply(x.state, e).0; if g.finished then [] else [Shared(g, x.destinations)]
  }

  /** The writes of a filter's destructor. */
  function LastWords(): Shared -> seq<Write> {
    (x: Shared) => WritesOf(Flush(x.state).1, x.destinations)
  }

  function Dispatch(fs: seq<Shared>, e: Event): seq<Write> { FlatMap(Emit(e), fs) }
  function Remaining(fs: seq<Shared>, e: Event): seq<Shared> { FlatMap(Survive(e), fs) }
  function Destroy(fs: seq<Shared>): seq<Write> { FlatMap(LastWords(), fs) }

  /** The filters left after a history. */
  function FiltersAfter(fs: seq<Shared>, h: History): seq<Shared> {
    match h
    case Start => fs
    case Then(p, e) => Remaining(FiltersAfter(fs, p), e)
  }

  /** The writes queued during a history. */
  function Queued(fs: seq<Shared>, h: History): seq<Write> {
    match h
    case Start => []
    case Then(p, e) => Queued(fs, p) + Dispatch(FiltersAfter(fs, p), e)
  }

  function CompleteAll(fs: seq<Shared>, h: History): seq<Write> {
    Queued(fs, h) + Destroy(FiltersAfter(fs, h))
  }

  // ---- The view of one destination ----

  function For(d: nat, ws: seq<Write>): seq<Write> {
    if ws == [] then []
    else For(d, ws[..|ws| - 1]) + (if ws[|ws| - 1].destination == d then [ws[|ws| - 1]] else [])
  }

  function Addressed(d: nat, out: seq<Forward>): (ws: seq<Write>)
    ensures |ws| == |out|
  {
    seq(|out|, i requires 0 <= i < |out| => Write(d, out[i].message, out[i].buffered))
  }

  lemma {:induction false} ForConcat(d: nat, a: seq<Write>, b: seq<Write>)
    ensures For(d, a + b) == For(d, a) + For(d, b)
    decreases |b|
  {
    if b == [] {
      assert a + b == a;
    } else {
      assert (a + b)[..|a + b| - 1] == a + b[..|b| - 1];
      ForConcat(d, a, b[..|b| - 1]);
    }
  }

  /** How many times a destination is listed. */
  function Count(d: nat, ds: seq<nat>): nat {
    if ds == [] then 0 else Count(d, ds[..|ds| - 1]) + (if ds[|ds| - 1] == d then 1 else 0)
  }

  lemma {:induction false} ForFan(d: nat, fw: Forward, ds: seq<nat>)
    requires Count(d, ds) <= 1
    ensures For(d, Fan(fw, ds)) == if Count(d, ds) == 0 then [] else [Write(d, fw.message, fw.buffered)]
  {
    if ds != [] {
      assert Fan(fw, ds)[..|ds| - 1] == Fan(fw, ds[..|ds| - 1]);
      ForFan(d, fw, ds[..|ds| - 1]);
    }
  }

  lemma {:induction false} ForWrites(d: nat, out: seq<Forward>, ds: seq<nat>)
    requires Count(d, ds) <= 1
    ensures For(d, WritesOf(out, ds)) == if Count(d, ds) == 0 then [] else Addressed(d, out)
  {
    if out != [] {
      var init, last := out[..|out| - 1], out[|out| - 1];
      ForWrites(d, init, ds);
      ForFan(d, last, ds);
      ForConcat(d, WritesOf(init, ds), Fan(last, ds));
      AddressedOneMore(d, init, last);
      assert out == init + [last];
    }
  }

  lemma AddressedOneMore(d: nat, out: seq<Forward>, fw: Forward)
    ensures Addressed(d, out + [fw]) == Addressed(d, out) + [Write(d, fw.message, fw.buffered)]
  {
  }

  // ---- Filters of other destinations do not matter ----

  ghost predicate Without(d: nat, fs: seq<Shared>) {
    forall i :: 0 <= i < |fs| ==> Count(d, fs[i].destinations) == 0
  }

  lemma {:induction false} ForFlatMap(d: nat, f: Shared -> seq<Write>, fs: seq<Shared>)
    requires forall i :: 0 <= i < |fs| ==> For(d, f(fs[i])) == []
    ensures For(d, FlatMap(f, fs)) == []
  {
    if fs != [] {
      ForFlatMap(d, f, fs[..|fs| - 1]);
      ForConcat(d, FlatMap(f, fs[..|fs| - 1]), f(fs[|fs| - 1]));
    }
  }

  lemma WritesWithout(d: nat, fs: seq<Shared>, e: Event)
    requires Without(d, fs)
    ensures For(d, Dispatch(fs, e)) == [] && For(d, Destroy(fs)) == []
  {
    forall i | 0 <= i < |fs| ensures For(d, Emit(e)(fs[i])) == [] && For(d, LastWords()(fs[i])) == [] {
      ForWrites(d, Apply(fs[i].state, e).1, fs[i].destinations);
      ForWrites(d, Flush(fs[i].state).1, fs[i].destinations);
    }
    ForFlatMap(d, Emit(e), fs);
    ForFlatMap(d, LastWords(), fs);
  }

  lemma {:induction false} RemainingWithout(d: nat, fs: seq<Shared>, e: Event)
    requires Without(d, fs)
    ensures Without(d, Remaining(fs, e))
  {
    if fs != [] { RemainingWithout(d, fs[..|fs| - 1], e); }
  }

  /** The filters hold exactly one that feeds `d`, in state `g`; or `g` has finished and none does. */
  ghost predicate Tracks(d: nat, fs: seq<Shared>, g: Filter) {
    || (exists a, ds, b :: Split(d, fs, g, a, ds, b))
    || (g.finished && g.held == None && Without(d, fs))
  }

  ghost predicate Split(d: nat, fs: seq<Shared>, g: Filter, a: seq<Shared>, ds: seq<nat>, b: seq<Shared>) {
    fs == a + [Shared(g, ds)] + b && Count(d, ds) == 1 && Without(d, a) && Without(d, b)
  }

  /** What a destination gets out of a list in which one filter feeds it. */
  lemma ForSplit(d: nat, f: Shared -> seq<Write>, a: seq<Shared>, x: Shared, b: seq<Shared>)
    requires For(d, FlatMap(f, a)) == [] && For(d, FlatMap(f, b)) == []
    ensures For(d, FlatMap(f, a + [x] + b)) == For(d, f(x))
  {
    FlatMapConcat(f, a + [x], b);
    FlatMapConcat(f, a, [x]);
    FlatMapOne(f, x);
    ForConcat(d, FlatMap(f, a + [x]), FlatMap(f, b));
    ForConcat(d, FlatMap(f, a), f(x));
  }

  lemma SplitDispatch(d: nat, fs: seq<Shared>, g: Filter, a: seq<Shared>, ds: seq<nat>, b: seq<Shared>, e: Event)
    requires Split(d, fs, g, a, ds, b)
    ensures For(d, Dispatch(fs, e)) == Addressed(d, Apply(g, e).1)
    ensures For(d, Destroy(fs)) == Addressed(d, Flush(g).1)
  {
    WritesWithout(d, a, e);
    WritesWithout(d, b, e);
    ForSplit(d, Emit(e), a, Shared(g, ds), b);
    ForSplit(d, LastWords(), a, Shared(g, ds), b);
    ForWrites(d, Apply(g, e).1, ds);
    ForWrites(d, Flush(g).1, ds);
  }

  lemma SplitRemaining(d: nat, fs: seq<Shared>, g: Filter, a: seq<Shared>, ds: seq<nat>, b: seq<Shared>, e: Event)
    requires Split(d, fs, g, a, ds, b)
    ensures var g' := Apply(g, e).0;
            if g'.finished then Without(d, Remaining(fs, e))
            else Split(d, Remaining(fs, e), g', Remaining(a, e), ds, Remaining(b, e))
  {
    var x := Shared(g, ds);
    FlatMapConcat(Survive(e), a + [x], b);
    FlatMapConcat(Survive(e), a, [x]);
    FlatMapOne(Survive(e), x);
    RemainingWithout(d, a, e);
    RemainingWithout(d, b, e);
  }

  lemma FinishHoldsNothing(g: Filter, e: Event)
    requires g.finished ==> g.held == None
    ensures Apply(g, e).0.finished ==> Apply(g, e).0.held == None
  {
  }

  lemma TracksStep(d: nat, fs: seq<Shared>, g: Filter, e: Event)
    requires Tracks(d, fs, g) && (g.finished ==> g.held == None)
    ensures Tracks(d, Remaining(fs, e), Apply(g, e).0)
    ensures For(d, Dispatch(fs, e)) == Addressed(d, Apply(g, e).1)
    ensures For(d, Destroy(fs)) == Addressed(d, Flush(g).1)
  {
    if a, ds, b :| Split(d, fs, g, a, ds, b) {
      SplitDispatch(d, fs, g, a, ds, b, e);
      SplitRemaining(d, fs, g, a, ds, b, e);
      FinishHoldsNothing(g, e);
    } else {
      WritesWithout(d, fs, e);
      RemainingWithout(d, fs, e);
      FinishedStays(g, e);
    }
  }

  /** Over any history the destination sees one filter of its own. */
  lemma {:induction false} TracksRun(d: nat, fs: seq<Shared>, f: Filter, h: History)
    requires Tracks(d, fs, f) && IsNew(f)
    ensures Tracks(d, FiltersAfter(fs, h), StateAfter(f, h))
    ensures For(d, Queued(fs, h)) == Addressed(d, Forwarded(f, h))
  {
    match h
    case Start =>
    case Then(p, e) =>
      TracksRun(d, fs, f, p);
      TidyRun(f, p);
      var gs, g := FiltersAfter(fs, p), StateAfter(f, p);
      TracksStep(d, gs, g, e);
      ForConcat(d, Queued(fs, p), Dispatch(gs, e));
      AddressedConcat(d, Forwarded(f, p), Apply(g, e).1);
  }

  lemma TidyRun(f: Filter, h: History)
    requires IsNew(f)
    ensures StateAfter(f, h).finished ==> StateAfter(f, h).held == None
  {
    if StateAfter(f, h).finished { NothingHeldWhenFinished(f, h); }
  }

  lemma AddressedConcat(d: nat, a: seq<Forward>, b: seq<Forward>)
    ensures Addressed(d, a + b) == Addressed(d, a) + Addressed(d, b)
  {
  }

  lemma TracksComplete(d: nat, fs: seq<Shared>, f: Filter, h: History)
    requires Tracks(d, fs, f) && IsNew(f)
    ensures For(d, CompleteAll(fs, h)) == Addressed(d, Complete(f, h))
  {
    TracksRun(d, fs, f, h);
    TidyRun(f, h);
    var gs, g := FiltersAfter(fs, h), StateAfter(f, h);
    TracksStep(d, gs, g, SetStop(0));
    ForConcat(d, Queued(fs, h), Destroy(gs));
    AddressedConcat(d, Forwarded(f, h), Flush(g).1);
  }

  // ---- Every destination against a private filter ----

  /** Each source owns its writer module. */
  ghost predicate DistinctDestinations(sources: seq<Source>) {
    forall i, j :: 0 <= i < j < |sources| ==> sources[i].destination != sources[j].destination
  }

  lemma {:induction false} CountInGroup(sources: seq<Source>, h: nat, k: nat)
    requires DistinctDestinations(sources) && k < |sources|
    ensures Count(sources[k].destination, DestinationsOf(sources, h)) == if sources[k].writeHash == h then 1 else 0
    decreases |sources|
  {
    var init, last := sources[..|sources| - 1], sources[|sources| - 1];
    var d := sources[k].destination;
    var ds := DestinationsOf(init, h);
    assert (ds + [last.destination])[..|ds|] == ds;
    assert ds + [] == ds;
    if k == |sources| - 1 {
      NotInGroup(init, h, d);
    } else {
      CountInGroup(init, h, k);
    }
  }

  lemma {:induction false} NotInGroup(sources: seq<Source>, h: nat, d: nat)
    requires forall i :: 0 <= i < |sources| ==> sources[i].destination != d
    ensures Count(d, DestinationsOf(sources, h)) == 0
  {
    if sources != [] {
      var init, last := sources[..|sources| - 1], sources[|sources| - 1];
      var ds := DestinationsOf(init, h);
      NotInGroup(init, h, d);
      assert (ds + [last.destination])[..|ds|] == ds;
      assert ds + [] == ds;
    }
  }

  /** The filter that a source would have on its own, and the one its group has. */
  function PrivateFilter(s: Source, start: int, stop: int): Filter {
    NewFilter(start, stop, s.acceptsRepeats, s.srcHash)
  }

  lemma GroupsTrack(sources: seq<Source>, hashes: seq<nat>, start: int, stop: int, k: nat)
    requires DistinctDestinations(sources) && Enumerates(hashes, sources) && k < |sources|
    ensures HasHash(sources, sources[k].writeHash)
    ensures Tracks(sources[k].destination, Groups(sources, hashes, start, stop),
                   GroupFilter(sources, sources[k].writeHash, start, stop).state)
  {
    var d, h := sources[k].destination, sources[k].writeHash;
    var fs := Groups(sources, hashes, start, stop);
    assert HasHash(sources, h);
    var i :| 0 <= i < |hashes| && hashes[i] == h;
    forall j | 0 <= j < |fs| ensures Count(d, fs[j].destinations) == if j == i then 1 else 0 {
      CountInGroup(sources, hashes[j], k);
    }
    SplitAt(d, fs, i);
    assert fs[i] == GroupFilter(sources, h, start, stop);
  }

  lemma SplitAt(d: nat, fs: seq<Shared>, i: nat)
    requires i < |fs| && forall j :: 0 <= j < |fs| ==> Count(d, fs[j].destinations) == if j == i then 1 else 0
    ensures Tracks(d, fs, fs[i].state)
  {
    var a, b := fs[..i], fs[i + 1..];
    forall j | 0 <= j < |b| ensures Count(d, b[j].destinations) == 0 {
      assert b[j] == fs[i + 1 + j];
    }
    assert fs[i] == Shared(fs[i].state, fs[i].destinations);
    assert fs == a + [Shared(fs[i].state, fs[i].destinations)] + b;
    assert Split(d, fs, fs[i].state, a, fs[i].destinations, b);
  }

  /** For every history a destination gets what one filter with its group's settings sends. */
  lemma DestinationSeesGroupFilter(sources: seq<Source>, hashes: seq<nat>, start: int, stop: int, k: nat, history: History)
    requires DistinctDestinations(sources) && Enumerates(hashes, sources) && k < |sources|
    ensures HasHash(sources, sources[k].writeHash)
    ensures For(sources[k].destination, CompleteAll(Groups(sources, hashes, start, stop), history))
         == Addressed(sources[k].destination,
                      Complete(GroupFilter(sources, sources[k].writeHash, start, stop).state, history))
  {
    GroupsTrack(sources, hashes, start, stop, k);
    TracksComplete(sources[k].destination, Groups(sources, hashes, start, stop),
                   GroupFilter(sources, sources[k].writeHash, start, stop).state, history);
  }

  /** A timestamp that is before the start, valid and not taken for a repeat of nothing. */
  function EarlyTimestamp(start: int): (t: int)
    ensures t != 0 && ToTimepoint(t) < start
  {
    if start > 0 then -1000 else 1000 * start - 1000
  }

  lemma OneEarlyMessage(f: Filter, m: Message)
    requires IsNew(f) && m.valid && m.timestamp == EarlyTimestamp(f.start)
    ensures Complete(f, Then(Start, Arrive(m))) == if m.sourceHash == f.sourceHash then [Forward(m, true)] else []
  {
    assert Forwarded(f, Then(Start, Arrive(m))) == [] + Step(f, m).1;
  }

  lemma TwoEarlyMessages(f: Filter, m: Message, n: Message)
    requires IsNew(f) && m.valid && n.valid && m.timestamp == n.timestamp == EarlyTimestamp(f.start)
    requires m.sourceHash == n.sourceHash == f.sourceHash
    ensures Complete(f, Then(Then(Start, Arrive(m)), Arrive(n))) == [Forward(if f.allowRepeats then n else m, true)]
  {
    var h := Then(Start, Arrive(m));
    assert StateAfter(f, Start) == f && StateAfter(f, h) == Step(f, m).0;
    assert Forwarded(f, h) == [];
    assert StateAfter(f, Then(h, Arrive(n))) == Step(Step(f, m).0, n).0;
    assert Forwarded(f, Then(h, Arrive(n))) == [];
  }

  /** Filters with different settings can be told apart by what they forward. */
  lemma SettingsMatter(f: Filter, g: Filter) returns (history: History)
    requires IsNew(f) && IsNew(g) && f.start == g.start && f.stop == g.stop && f != g
    ensures Complete(f, history) != Complete(g, history)
  {
    var t := EarlyTimestamp(f.start);
    var m, n := Message(f.sourceHash, true, t, 0), Message(f.sourceHash, true, t, 1);
    if f.sourceHash != g.sourceHash {
      history := Then(Start, Arrive(m));
      OneEarlyMessage(f, m);
      OneEarlyMessage(g, m);
    } else {
      history := Then(Then(Start, Arrive(m)), Arrive(n));
      TwoEarlyMessages(f, m, n);
      TwoEarlyMessages(g, m, n);
      assert Complete(f, history)[0] != Complete(g, history)[0];
    }
  }

  /** Equal write hashes imply equal source hash and repeat flag. */
  ghost predicate Consistent(sources: seq<Source>) {
    forall i, j :: 0 <= i < |sources| && 0 <= j < |sources| && sources[i].writeHash == sources[j].writeHash ==>
      sources[i].srcHash == sources[j].srcHash && sources[i].acceptsRepeats == sources[j].acceptsRepeats
  }

  /** Every destination gets, for every history, what its private filter would have sent. */
  ghost predicate SharingInvisible(sources: seq<Source>, hashes: seq<nat>, start: int, stop: int)
    requires Enumerates(hashes, sources)
  {
    forall k, history: History :: 0 <= k < |sources| ==>
      For(sources[k].destination, CompleteAll(Groups(sources, hashes, start, stop), history))
      == Addressed(sources[k].destination, Complete(PrivateFilter(sources[k], start, stop), history))
  }

  lemma {:induction false} FirstOfGroup(sources: seq<Source>, h: nat) returns (i: nat)
    requires HasHash(sources, h)
    ensures i < |sources| && sources[i].writeHash == h && sources[i].acceptsRepeats == RepeatsOf(sources, h)
    ensures forall j :: 0 <= j < i ==> sources[j].writeHash != h
    decreases |sources|
  {
    if sources[0].writeHash == h {
      i := 0;
    } else {
      var j :| 0 <= j < |sources| && sources[j].writeHash == h;
      assert sources[1..][j - 1].writeHash == h;
      i := FirstOfGroup(sources[1..], h);
      i := i + 1;
    }
  }

  lemma {:induction false} LastOfGroup(sources: seq<Source>, h: nat) returns (i: nat)
    requires HasHash(sources, h)
    ensures i < |sources| && sources[i].writeHash == h && sources[i].srcHash == SourceHashOf(sources, h)
    ensures forall j :: i < j < |sources| ==> sources[j].writeHash != h
    decreases |sources|
  {
    if sources[|sources| - 1].writeHash == h {
      i := |sources| - 1;
    } else {
      var j :| 0 <= j < |sources| && sources[j].writeHash == h;
      assert sources[..|sources| - 1][j].writeHash == h;
      i := LastOfGroup(sources[..|sources| - 1], h);
    }
  }

  function InGroup(h: nat): Source -> bool { (s: Source) => s.writeHash == h }

  /** The destinations of a group are those of its sources, in order. */
  lemma {:induction false} GroupInOrder(sources: seq<Source>, h: nat)
    ensures var members := Select(InGroup(h), sources);
            && |DestinationsOf(sources, h)| == |members|
            && forall k :: 0 <= k < |members| ==> DestinationsOf(sources, h)[k] == members[k].destination
  {
    if sources != [] { GroupInOrder(sources[..|sources| - 1], h); }
  }

  /** Sharing is invisible exactly when equal write hashes mean equal settings. */
  lemma SharingInvisibleIffConsistent(sources: seq<Source>, hashes: seq<nat>, start: int, stop: int)
    requires DistinctDestinations(sources) && Enumerates(hashes, sources)
    ensures SharingInvisible(sources, hashes, start, stop) <==> Consistent(sources)
  {
    forall k, history: History | 0 <= k < |sources| && Consistent(sources)
      ensures For(sources[k].destination, CompleteAll(Groups(sources, hashes, start, stop), history))
           == Addressed(sources[k].destination, Complete(PrivateFilter(sources[k], start, stop), history))
    {
      DestinationSeesGroupFilter(sources, hashes, start, stop, k, history);
      var i := FirstOfGroup(sources, sources[k].writeHash);
      var j := LastOfGroup(sources, sources[k].writeHash);
    }
    if SharingInvisible(sources, hashes, start, stop) {
      forall k | 0 <= k < |sources|
        ensures HasHash(sources, sources[k].writeHash)
        ensures PrivateFilter(sources[k], start, stop) == GroupFilter(sources, sources[k].writeHash, start, stop).state
      {
        PrivateIsGroup(sources, hashes, start, stop, k);
      }
    }
  }

  lemma PrivateIsGroup(sources: seq<Source>, hashes: seq<nat>, start: int, stop: int, k: nat)
    requires DistinctDestinations(sources) && Enumerates(hashes, sources) && k < |sources|
    requires SharingInvisible(sources, hashes, start, stop)
    ensures HasHash(sources, sources[k].writeHash)
    ensures PrivateFilter(sources[k], start, stop) == GroupFilter(sources, sources[k].writeHash, start, stop).state
  {
    var d := sources[k].destination;
    assert HasHash(sources, sources[k].writeHash);
    var f, g := PrivateFilter(sources[k], start, stop), GroupFilter(sources, sources[k].writeHash, start, stop).state;
    if f != g {
      var history := SettingsMatter(f, g);
      DestinationSeesGroupFilter(sources, hashes, start, stop, k, history);
      AddressedInjective(d, Complete(f, history), Complete(g, history));
    }
  }

  lemma AddressedInjective(d: nat, a: seq<Forward>, b: seq<Forward>)
    requires Addressed(d, a) == Addressed(d, b)
    ensures a == b
  {
    assert |a| == |b|;
    forall i | 0 <= i < |a| ensures a[i] == b[i] {
      assert Addressed(d, a)[i] == Addressed(d, b)[i];
    }
  }
}
