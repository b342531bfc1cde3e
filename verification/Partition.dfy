/** A Kafka partition: its filters, its stop conditions and the processing of one poll
    (src/Stream/Partition.cpp). */
module Partitions {
  import opened MachineInts
  import opened SourceFilters
  import opened SourceFilterRuns
  import opened FilterSharing
  import PF = PartitionFilters

  // ---- Creating the filters ----

  lemma GroupOneMore(sources: seq<Source>, x: Source, h: nat)
    ensures HasHash(sources + [x], h) <==> HasHash(sources, h) || x.writeHash == h
    ensures DestinationsOf(sources + [x], h) ==
            if x.writeHash == h then DestinationsOf(sources, h) + [x.destination] else DestinationsOf(sources, h)
    ensures HasHash(sources + [x], h) ==>
              SourceHashOf(sources + [x], h) == if x.writeHash == h then x.srcHash else SourceHashOf(sources, h)
    ensures HasHash(sources + [x], h) ==>
              RepeatsOf(sources + [x], h) == if HasHash(sources, h) then RepeatsOf(sources, h) else x.acceptsRepeats
  {
    var all := sources + [x];
    assert all[..|all| - 1] == sources && all[|all| - 1] == x;
    assert DestinationsOf(sources, h) + [] == DestinationsOf(sources, h);
    if HasHash(sources, h) {
      var i :| 0 <= i < |sources| && sources[i].writeHash == h;
      assert all[i].writeHash == h;
    }
    if HasHash(all, h) { RepeatsOneMore(sources, x, h); }
  }

  lemma {:induction false} RepeatsOneMore(sources: seq<Source>, x: Source, h: nat)
    requires HasHash(sources + [x], h)
    ensures RepeatsOf(sources + [x], h) == if HasHash(sources, h) then RepeatsOf(sources, h) else x.acceptsRepeats
    decreases |sources|
  {
    var all := sources + [x];
    if sources == [] {
      assert all == [x];
    } else if sources[0].writeHash != h {
      var rest := sources[1..];
      assert all[1..] == rest + [x];
      var i :| 0 <= i < |all| && all[i].writeHash == h;
      assert (rest + [x])[i - 1].writeHash == h;
      assert HasHash(rest, h) <==> HasHash(sources, h) by {
        if j :| 0 <= j < |sources| && sources[j].writeHash == h { assert rest[j - 1].writeHash == h; }
        if j :| 0 <= j < |rest| && rest[j].writeHash == h { assert sources[j + 1].writeHash == h; }
      }
      RepeatsOneMore(rest, x, h);
    }
  }

  lemma {:induction false} NoDestinations(sources: seq<Source>, h: nat)
    requires !HasHash(sources, h)
    ensures DestinationsOf(sources, h) == []
  {
    if sources != [] {
      assert sources[|sources| - 1].writeHash != h;
      NoDestinations(sources[..|sources| - 1], h);
    }
  }

  /** The groups after one more source. */
  function Added(groups: map<nat, Shared>, s: Source, start: int, stop: int): map<nat, Shared> {
    var g := if s.writeHash in groups then groups[s.writeHash] else Shared(NewFilter(start, stop, s.acceptsRepeats, 0), []);
    groups[s.writeHash := Shared(g.state.(sourceHash := s.srcHash), g.destinations + [s.destination])]
  }

  /** The groups of a list of sources. */
  ghost predicate IsGroupMap(groups: map<nat, Shared>, sources: seq<Source>, start: int, stop: int) {
    && (forall h :: h in groups <==> HasHash(sources, h))
    && forall h :: h in groups ==> groups[h] == GroupFilter(sources, h, start, stop)
  }

  lemma GroupMapOneMore(groups: map<nat, Shared>, sources: seq<Source>, s: Source, start: int, stop: int)
    requires IsGroupMap(groups, sources, start, stop)
    ensures IsGroupMap(Added(groups, s, start, stop), sources + [s], start, stop)
  {
    var b := Added(groups, s, start, stop);
    forall h ensures h in b <==> HasHash(sources + [s], h) { GroupOneMore(sources, s, h); }
    forall h | h in b ensures b[h] == GroupFilter(sources + [s], h, start, stop) {
      GroupOneMore(sources, s, h);
      if !HasHash(sources, h) { NoDestinations(sources, h); }
    }
  }

  /** The first loop: each source joins the filter of its write hash; source hashes are noted apart. */
  method GroupSources(sources: seq<Source>, start: int, stop: int)
    returns (hashToFilter: map<nat, Shared>, toSourceHash: map<nat, nat>, ghost groups: map<nat, Shared>)
    ensures IsGroupMap(groups, sources, start, stop) && Noted(hashToFilter, toSourceHash, groups)
  {
    hashToFilter, toSourceHash, groups := map[], map[], map[];
    for i := 0 to |sources|
      invariant IsGroupMap(groups, sources[..i], start, stop) && Noted(hashToFilter, toSourceHash, groups)
    {
      var s := sources[i];
      GroupMapOneMore(groups, sources[..i], s, start, stop);
      assert sources[..i + 1] == sources[..i] + [s];
      ghost var before, filters, hashes := groups, hashToFilter, toSourceHash;
      groups := Added(groups, s, start, stop);
      if s.writeHash !in hashToFilter {
        hashToFilter := hashToFilter[s.writeHash := Shared(NewFilter(start, stop, s.acceptsRepeats, 0), [])];
      }
      var f := hashToFilter[s.writeHash];
      hashToFilter := hashToFilter[s.writeHash := f.(destinations := f.destinations + [s.destination])];
      toSourceHash := toSourceHash[s.writeHash := s.srcHash];
      NotedOneMore(filters, hashes, before, s, start, stop, hashToFilter);
    }
    assert sources[..|sources|] == sources;
  }

  /** The filters are those of the groups, with the source hashes kept apart. */
  ghost predicate Noted(filters: map<nat, Shared>, hashes: map<nat, nat>, groups: map<nat, Shared>) {
    && filters.Keys == hashes.Keys == groups.Keys
    && forall h :: h in groups ==> filters[h] == Unhashed(groups[h]) && hashes[h] == groups[h].state.sourceHash
  }

  lemma NotedOneMore(filters: map<nat, Shared>, hashes: map<nat, nat>, groups: map<nat, Shared>, s: Source,
                     start: int, stop: int, filters': map<nat, Shared>)
    requires Noted(filters, hashes, groups)
    requires var f := if s.writeHash in filters then filters[s.writeHash]
                      else Shared(NewFilter(start, stop, s.acceptsRepeats, 0), []);
             filters' == filters[s.writeHash := f.(destinations := f.destinations + [s.destination])]
    ensures Noted(filters', hashes[s.writeHash := s.srcHash], Added(groups, s, start, stop))
  {
  }

  ghost predicate Ascending(hashes: seq<nat>) {
    forall i, j :: 0 <= i < j < |hashes| ==> hashes[i] < hashes[j]
  }

  lemma {:induction false} Smallest(s: set<nat>) returns (least: nat)
    requires s != {}
    ensures least in s && forall k :: k in s ==> least <= k
  {
    var x :| x in s;
    var rest := s - {x};
    assert s == rest + {x};
    least := x;
    if rest != {} {
      var h := Smallest(rest);
      least := if h < x then h else x;
    }
  }

  /** The second loop: by ascending write hash, source hashes are set and the filters listed. */
  method ListFilters(hashToFilter: map<nat, Shared>, toSourceHash: map<nat, nat>, ghost groups: map<nat, Shared>)
    returns (filters: seq<Shared>, ghost hashes: seq<nat>)
    requires Noted(hashToFilter, toSourceHash, groups)
    ensures |hashes| == |filters| && Ascending(hashes)
    ensures forall h :: h in groups <==> h in hashes
    ensures forall i :: 0 <= i < |hashes| ==> hashes[i] in groups && filters[i] == groups[hashes[i]]
  {
    filters, hashes := [], [];
    var remaining := hashToFilter.Keys;
    while remaining != {}
      invariant remaining <= groups.Keys && |hashes| == |filters|
      invariant forall h :: h in groups <==> h in remaining || h in hashes
      invariant forall i :: 0 <= i < |hashes| ==> forall h :: h in remaining ==> hashes[i] < h
      invariant Ascending(hashes)
      invariant forall i :: 0 <= i < |hashes| ==> hashes[i] in groups && filters[i] == groups[hashes[i]]
    {
      ghost var least := Smallest(remaining);
      var h :| h in remaining && forall k :: k in remaining ==> h <= k;
      var f := hashToFilter[h];
      filters := filters + [f.(state := f.state.(sourceHash := toSourceHash[h]))];
      hashes := hashes + [h];
      remaining := remaining - {h};
    }
  }

  /** One filter per write hash: repeat flag of its first source, source hash of its last, destinations
      of all of them in order. */
  method CreateFilters(sources: seq<Source>, start: int, stop: int) returns (filters: seq<Shared>, ghost hashes: seq<nat>)
    ensures Enumerates(hashes, sources) && Ascending(hashes)
    ensures filters == Groups(sources, hashes, start, stop)
  {
    var hashToFilter, toSourceHash, groups := GroupSources(sources, start, stop);
    filters, hashes := ListFilters(hashToFilter, toSourceHash, groups);
  }

  /** A group's filter before the source hash is set, which happens last. */
  function Unhashed(x: Shared): Shared {
    x.(state := x.state.(sourceHash := 0))
  }

  // ---- The partition ----

  /** Why a flatbuffer could not be read. */
  datatype ReadError = BufferTooSmall | InvalidTimestamp | UnknownId | NotValid | OtherError

  /** A decoded Kafka message, or one whose flatbuffer could not be read. */
  datatype Payload = Decoded(message: Message) | Undecodable(reason: ReadError)

  datatype Counts = Counts(
    processed: nat, badOffsets: nat, flatbufferErrors: nat,
    tooSmall: nat, badTimestamps: nat, unknownIds: nat, notValid: nat,
    received: nat, endsOfPartition: nat, timeouts: nat, kafkaErrors: nat)

  function NoCounts(): Counts { Counts(0, 0, 0, 0, 0, 0, 0, 0, 0, 0, 0) }

  function WithPoll(c: Counts, status: PF.PollStatus): Counts {
    match status
    case Message => c.(received := c.received + 1)
    case EndOfPartition => c.(endsOfPartition := c.endsOfPartition + 1)
    case TimedOut => c.(timeouts := c.timeouts + 1)
    case Error => c.(kafkaErrors := c.kafkaErrors + 1)
  }

  function WithError(c: Counts, e: ReadError): Counts {
    var d := c.(flatbufferErrors := c.flatbufferErrors + 1);
    match e
    case BufferTooSmall => d.(tooSmall := c.tooSmall + 1)
    case InvalidTimestamp => d.(badTimestamps := c.badTimestamps + 1)
    case UnknownId => d.(unknownIds := c.unknownIds + 1)
    case NotValid => d.(notValid := c.notValid + 1)
    case OtherError => d
  }

  /** The filter sends the message itself, not only one that it held. */
  function SendsItself(m: Message): Shared -> bool {
    (x: Shared) => exists fw :: fw in Step(x.state, m).1 && !fw.buffered
  }

  predicate AnySends(fs: seq<Shared>, m: Message) {
    exists i :: 0 <= i < |fs| && SendsItself(m)(fs[i])
  }

  datatype Poll = Poll(status: PF.PollStatus, payload: Payload, offset: int, brokerTime: int)

  /** Everything that a partition owns. */
  datatype PartitionView = PartitionView(
    filters: seq<Shared>, queue: seq<Write>, polling: PF.FilterState,
    stop: int, leeway: int, forceStop: bool, finished: bool, offset: int, counts: Counts)

  function OffsetNoted(v: PartitionView, offset: int): PartitionView {
    var gap := v.offset != 0 && v.offset + 1 != offset;
    v.(offset := offset, counts := v.counts.(badOffsets := v.counts.badOffsets + (if gap then 1 else 0)))
  }

  function Delivered(v: PartitionView, m: Message): PartitionView {
    v.(filters := Remaining(v.filters, Arrive(m)), queue := v.queue + Dispatch(v.filters, Arrive(m)),
       counts := v.counts.(processed := v.counts.processed + (if AnySends(v.filters, m) then 1 else 0)))
  }

  /** A message is checked for a gap in the offsets, decoded, and given to every filter. */
  function Processed(v: PartitionView, poll: Poll): PartitionView {
    var u := OffsetNoted(v, poll.offset);
    match poll.payload
    case Undecodable(e) => u.(counts := WithError(u.counts, e))
    case Decoded(m) => Delivered(u, m)
  }

  /** One turn of the polling loop. */
  function PollOnce(v: PartitionView, paused: bool, poll: Poll, seen: int, now: int): PartitionView {
    if v.forceStop then v.(finished := true)
    else if paused then v
    else
      var u := v.(polling := PF.AfterPoll(v.polling, poll.status, seen), counts := WithPoll(v.counts, poll.status));
      if PF.Stops(v.polling, poll.status, seen, now) then u.(finished := true)
      else if poll.status != PF.PollStatus.Message then u
      else
        var w := Processed(u, poll);
        w.(finished := w.finished || w.filters == [] || poll.brokerTime > Add64(v.stop, v.leeway))
  }

  /** Each filter is owned by the partition alone, so it is held as a value; its methods are those of
      `SourceFilters.SourceFilter`, whose contracts give the steps used here. */
  class Partition {
    var filters: seq<Shared>
    var queue: seq<Write>
    const polling: PF.PartitionFilter
    var stop: int
    const leeway: int
    var forceStop: bool
    var finished: bool
    var offset: int
    var counts: Counts

    /** Finished filters do not stay in the list. */
    ghost predicate Valid()
      reads this
    {
      forall i :: 0 <= i < |filters| ==> !filters[i].state.finished
    }

    ghost function View(): PartitionView
      reads this, polling
    {
      PartitionView(filters, queue, polling.View(), stop, leeway, forceStop, finished, offset, counts)
    }

    constructor (sources: seq<Source>, start: int, stop: int, leeway: int, limit: int)
      ensures Valid() && fresh(polling)
      ensures exists hashes :: Enumerates(hashes, sources) && Ascending(hashes) &&
                View() == PartitionView(Groups(sources, hashes, start, stop), [],
                                        PF.StateOf(PF.Begin(stop), leeway, limit),
                                        PF.SanitiseStopTime(stop, leeway), leeway, false, false, 0, NoCounts())
    {
      var fs, hashes := CreateFilters(sources, start, stop);
      var p := new PF.PartitionFilter(stop, leeway, limit);
      filters, queue, polling := fs, [], p;
      this.leeway, this.stop := leeway, PF.SanitiseStopTime(stop, leeway);
      forceStop, finished, offset, counts := false, false, 0, NoCounts();
      new;
      polling.SetStopTime(this.stop);
      assert Enumerates(hashes, sources) && Ascending(hashes);
    }

    method Stop()
      modifies this`forceStop
      ensures forceStop
    {
      forceStop := true;
    }

    method SetStopTime(time: int)
      requires Valid()
      modifies this`stop, this`filters, polling`stop
      ensures Valid()
      ensures var t := PF.SanitiseStopTime(time, leeway);
              View() == old(View()).(stop := t, polling := old(View()).polling.(stop := t),
                                     filters := Remaining(old(filters), SetStop(t)))
    {
      stop := PF.SanitiseStopTime(time, leeway);
      polling.SetStopTime(stop);
      for i := 0 to |filters|
        modifies this`filters
        invariant |filters| == |old(filters)|
        invariant forall k :: 0 <= k < |filters| ==>
                    filters[k] == if k < i then Shared(old(filters)[k].state.(stop := stop), old(filters)[k].destinations)
                                  else old(filters)[k]
      {
        filters := filters[i := Shared(filters[i].state.(stop := stop), filters[i].destinations)];
      }
      StopChangesAll(old(filters), filters, stop);
    }

    method ProcessMessage(poll: Poll)
      requires Valid()
      modifies this`filters, this`queue, this`offset, this`counts
      ensures Valid()
      ensures View() == Processed(old(View()), poll)
    {
      if offset != 0 && offset + 1 != poll.offset {
        counts := counts.(badOffsets := counts.badOffsets + 1);
      }
      offset := poll.offset;
      match poll.payload
      case Undecodable(e) =>
        counts := WithError(counts, e);
      case Decoded(m) =>
        Deliver(m);
    }

    /** A readable message goes to all filters, and those that have finished are dropped. */
    method Deliver(m: Message)
      modifies this`filters, this`queue, this`counts
      ensures Valid()
      ensures filters == Remaining(old(filters), Arrive(m))
      ensures queue == old(queue) + Dispatch(old(filters), Arrive(m))
      ensures counts == old(counts).(processed := old(counts).processed + (if AnySends(old(filters), m) then 1 else 0))
    {
      var processed := FilterAll(m);
      if processed {
        counts := counts.(processed := counts.processed + 1);
      }
      EraseFinished();
      assert filters == Remaining(old(filters), Arrive(m)) by { AdvanceThenErase(old(filters), m); }
    }

    /** Every filter gets the message; true if one of them sends it. */
    method FilterAll(m: Message) returns (processed: bool)
      modifies this`filters, this`queue
      ensures processed <==> AnySends(old(filters), m)
      ensures filters == FlatMap(Advance(m), old(filters))
      ensures queue == old(queue) + Dispatch(old(filters), Arrive(m))
    {
      var advanced, writes;
      advanced, writes, processed := ForEach(filters, Advance(m), Emit(Arrive(m)), SendsItself(m));
      filters := advanced;
      queue := queue + writes;
    }

    /** The erase-remove step. The destructor of an erased filter would forward a held message; a
        finished filter holds none. */
    method EraseFinished()
      modifies this`filters
      ensures Valid()
      ensures filters == FlatMap(Unfinished(), old(filters))
    {
      var kept: seq<Shared> := [];
      for i := 0 to |filters|
        invariant filters == old(filters)
        invariant kept == FlatMap(Unfinished(), filters[..i])
        invariant forall k :: 0 <= k < |kept| ==> !kept[k].state.finished
      {
        FlatMapOneMore(Unfinished(), filters[..i], filters[i]);
        assert filters[..i + 1] == filters[..i] + [filters[i]];
        if !filters[i].state.finished {
          kept := kept + [filters[i]];
        }
      }
      assert filters[..|filters|] == filters;
      filters := kept;
    }

    method PollForMessage(paused: bool, poll: Poll, seen: int, now: int)
      requires Valid()
      modifies this`filters, this`queue, this`offset, this`counts, this`finished, polling
      ensures Valid()
      ensures View() == PollOnce(old(View()), paused, poll, seen, now)
    {
      if forceStop {
        finished := true;
        return;
      }
      if paused { return; }
      counts := WithPoll(counts, poll.status);
      var stopping := polling.ShouldStopPartition(poll.status, seen, now);
      if stopping {
        finished := true;
        return;
      }
      if poll.status == PF.PollStatus.Message {
        ProcessMessage(poll);
        if filters == [] || poll.brokerTime > Add64(stop, leeway) {
          finished := true;
        }
      }
    }
  }

  /** A filter that has taken a message, and a filter if it has not finished, as lists to be joined. */
  function Advance(m: Message): Shared -> seq<Shared> {
    (x: Shared) => [Shared(Step(x.state, m).0, x.destinations)]
  }

  function Unfinished(): Shared -> seq<Shared> {
    (x: Shared) => if x.state.finished then [] else [x]
  }

  /** The loop over the filters: each is stepped in turn and what it sends is queued. */
  method ForEach<S, T>(xs: seq<S>, step: S -> seq<S>, emit: S -> seq<T>, test: S -> bool)
    returns (stepped: seq<S>, emitted: seq<T>, any: bool)
    ensures stepped == FlatMap(step, xs) && emitted == FlatMap(emit, xs)
    ensures any <==> exists i :: 0 <= i < |xs| && test(xs[i])
  {
    stepped, emitted, any := [], [], false;
    for i := 0 to |xs|
      invariant any <==> exists k :: 0 <= k < i && test(xs[k])
      invariant stepped == FlatMap(step, xs[..i]) && emitted == FlatMap(emit, xs[..i])
    {
      FlatMapOneMore(step, xs[..i], xs[i]);
      FlatMapOneMore(emit, xs[..i], xs[i]);
      assert xs[..i + 1] == xs[..i] + [xs[i]];
      emitted := emitted + emit(xs[i]);
      stepped := stepped + step(xs[i]);
      if test(xs[i]) {
        any := true;
      }
    }
    assert xs[..|xs|] == xs;
  }

  lemma FlatMapOneMore<S, T>(f: S -> seq<T>, xs: seq<S>, x: S)
    ensures FlatMap(f, xs + [x]) == FlatMap(f, xs) + f(x)
  {
    FlatMapConcat(f, xs, [x]);
    FlatMapOne(f, x);
  }

  lemma {:induction false} AdvanceThenErase(fs: seq<Shared>, m: Message)
    ensures FlatMap(Unfinished(), FlatMap(Advance(m), fs)) == Remaining(fs, Arrive(m))
  {
    if fs != [] {
      var init, x := fs[..|fs| - 1], fs[|fs| - 1];
      AdvanceThenErase(init, m);
      FlatMapConcat(Unfinished(), FlatMap(Advance(m), init), Advance(m)(x));
      FlatMapOne(Unfinished(), Advance(m)(x)[0]);
    }
  }

  /** Changing the stop time of every filter finishes none of them and writes nothing. */
  lemma {:induction false} StopChangesAll(before: seq<Shared>, after: seq<Shared>, stop: int)
    requires |before| == |after|
    requires forall k :: 0 <= k < |before| ==>
               !before[k].state.finished && after[k] == Shared(before[k].state.(stop := stop), before[k].destinations)
    ensures after == Remaining(before, SetStop(stop)) && Dispatch(before, SetStop(stop)) == []
  {
    if before != [] {
      var n := |before| - 1;
      StopChangesAll(before[..n], after[..n], stop);
      assert Survive(SetStop(stop))(before[n]) == [after[n]];
      assert WritesOf([], before[n].destinations) == [];
      assert after == after[..n] + [after[n]];
    }
  }

  // ---- Whole runs of a partition ----

  datatype Turn =
    | PollTurn(paused: bool, poll: Poll, seen: int, now: int)
    | SetStopTurn(time: int)
    | StopTurn

  /** All turns so far, the latest outermost. */
  datatype Turns = NoTurns | Next(prior: Turns, turn: Turn)

  function Turned(v: PartitionView, t: Turn): PartitionView {
    match t
    case PollTurn(paused, poll, seen, now) => PollOnce(v, paused, poll, seen, now)
    case SetStopTurn(time) =>
      var stop := PF.SanitiseStopTime(time, v.leeway);
      v.(stop := stop, polling := v.polling.(stop := stop), filters := Remaining(v.filters, SetStop(stop)))
    case StopTurn => v.(forceStop := true)
  }

  /** What a turn means to the filters, if anything. */
  function EventOf(v: PartitionView, t: Turn): Option<Event> {
    match t
    case PollTurn(paused, poll, seen, now) =>
      if !v.forceStop && !paused && !PF.Stops(v.polling, poll.status, seen, now)
         && poll.status == PF.PollStatus.Message && poll.payload.Decoded?
      then Some(Arrive(poll.payload.message)) else None
    case SetStopTurn(time) => Some(SetStop(PF.SanitiseStopTime(time, v.leeway)))
    case StopTurn => None
  }

  function ViewAfter(v: PartitionView, ts: Turns): PartitionView {
    match ts
    case NoTurns => v
    case Next(p, t) => Turned(ViewAfter(v, p), t)
  }

  function HistoryOf(v: PartitionView, ts: Turns): History {
    match ts
    case NoTurns => Start
    case Next(p, t) => Extended(HistoryOf(v, p), EventOf(ViewAfter(v, p), t))
  }

  function Extended(h: History, e: Option<Event>): History {
    if e.None? then h else Then(h, e.value)
  }

  /** The change that an event, or none, makes to filters and queue. */
  ghost predicate Changes(fs: seq<Shared>, q: seq<Write>, e: Option<Event>, fs': seq<Shared>, q': seq<Write>) {
    if e.None? then fs' == fs && q' == q
    else fs' == Remaining(fs, e.value) && q' == q + Dispatch(fs, e.value)
  }

  lemma ChangesExtend(fs0: seq<Shared>, q0: seq<Write>, h: History, fs: seq<Shared>, q: seq<Write>, e: Option<Event>,
                      fs': seq<Shared>, q': seq<Write>)
    requires fs == FiltersAfter(fs0, h) && q == q0 + Queued(fs0, h) && Changes(fs, q, e, fs', q')
    ensures fs' == FiltersAfter(fs0, Extended(h, e)) && q' == q0 + Queued(fs0, Extended(h, e))
  {
    if e.Some? { ConcatAssociative(q0, Queued(fs0, h), Dispatch(fs, e.value)); }
  }

  lemma ConcatAssociative<T>(a: seq<T>, b: seq<T>, c: seq<T>)
    ensures (a + b) + c == a + (b + c)
  {
  }

  lemma {:induction false} SetStopWritesNothing(fs: seq<Shared>, stop: int)
    ensures Dispatch(fs, SetStop(stop)) == []
  {
    if fs != [] {
      SetStopWritesNothing(fs[..|fs| - 1], stop);
      assert WritesOf([], fs[|fs| - 1].destinations) == [];
    }
  }

  lemma TurnIsEvent(v: PartitionView, t: Turn)
    ensures Changes(v.filters, v.queue, EventOf(v, t), Turned(v, t).filters, Turned(v, t).queue)
  {
    if t.SetStopTurn? {
      SetStopWritesNothing(v.filters, PF.SanitiseStopTime(t.time, v.leeway));
      assert v.queue + [] == v.queue;
    }
  }

  lemma {:induction false} RunIsHistory(v: PartitionView, ts: Turns)
    ensures ViewAfter(v, ts).filters == FiltersAfter(v.filters, HistoryOf(v, ts))
    ensures ViewAfter(v, ts).queue == v.queue + Queued(v.filters, HistoryOf(v, ts))
  {
    match ts
    case NoTurns => assert v.queue + [] == v.queue;
    case Next(p, t) =>
      RunIsHistory(v, p);
      var u := ViewAfter(v, p);
      TurnIsEvent(u, t);
      ChangesExtend(v.filters, v.queue, HistoryOf(v, p), u.filters, u.queue, EventOf(u, t),
                    Turned(u, t).filters, Turned(u, t).queue);
  }

  /** In any run of a new partition, each destination is sent, up to and including destruction, exactly
      what a filter of its own would have sent for the messages that the partition took in. */
  lemma DestinationGetsItsOwnStream(sources: seq<Source>, hashes: seq<nat>, start: int, stop: int, v: PartitionView,
                                    ts: Turns, k: nat)
    requires DistinctDestinations(sources) && Enumerates(hashes, sources) && Consistent(sources) && k < |sources|
    requires v.filters == Groups(sources, hashes, start, stop) && v.queue == []
    ensures For(sources[k].destination, ViewAfter(v, ts).queue + Destroy(ViewAfter(v, ts).filters))
         == Addressed(sources[k].destination, Complete(PrivateFilter(sources[k], start, stop), HistoryOf(v, ts)))
  {
    RunIsHistory(v, ts);
    SharingInvisibleIffConsistent(sources, hashes, start, stop);
    var h := HistoryOf(v, ts);
    assert ViewAfter(v, ts).queue == Queued(v.filters, h);
    assert ViewAfter(v, ts).queue + Destroy(ViewAfter(v, ts).filters) == CompleteAll(v.filters, h);
  }
}
