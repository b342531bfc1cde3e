/** Event data and time stamps with their index tables (src/WriterModule/ev44/ev44_Writer.cpp and
    src/WriterModule/tdct/tdct_Writer.cpp). A dataset is the sequence of its values; the appends are
    those of `ExtensibleDatasets.ExtensibleDataset` with its count in step. */
module EventWriters {
  import opened MachineInts

  // ---- Cutting an array at an index ----

  /** Non-decreasing positions inside the array. */
  ghost predicate ValidCut(size: nat, index: seq<int>) {
    && (forall j :: 0 <= j < |index| ==> 0 <= index[j] <= size)
    && forall i, j :: 0 <= i < j < |index| ==> index[i] <= index[j]
  }

  /** Slice `j` runs from its own position to the next one, the last slice to the end. */
  ghost function Slice(data: seq<int>, index: seq<int>, j: nat): seq<int>
    requires ValidCut(|data|, index) && j < |index|
  {
    data[index[j]..if j + 1 < |index| then index[j + 1] else |data|]
  }

  ghost function Cut(data: seq<int>, index: seq<int>): (r: seq<seq<int>>)
    requires ValidCut(|data|, index)
    ensures |r| == |index|
  {
    seq(|index|, j requires 0 <= j < |index| => Slice(data, index, j))
  }

  function Shift(index: seq<int>, offset: int): (r: seq<int>)
    ensures |r| == |index|
  {
    seq(|index|, j requires 0 <= j < |index| => index[j] + offset)
  }

  lemma SliceOfFirst(data: seq<int>, more: seq<int>, lo: int, hi: int)
    requires 0 <= lo <= hi <= |data|
    ensures (data + more)[lo..hi] == data[lo..hi]
  {
  }

  lemma SliceOfSecond(data: seq<int>, more: seq<int>, lo: int, hi: int)
    requires 0 <= lo <= hi <= |more|
    ensures (data + more)[|data| + lo..|data| + hi] == more[lo..hi]
  {
  }

  lemma ValidCutAppend(size: nat, index: seq<int>, size2: nat, index2: seq<int>)
    requires ValidCut(size, index) && ValidCut(size2, index2)
    ensures ValidCut(size + size2, index + Shift(index2, size))
  {
    var idx := index + Shift(index2, size);
    forall i, j | 0 <= i < j < |idx| ensures idx[i] <= idx[j] {
      if j >= |index| {
        assert idx[j] == index2[j - |index|] + size;
        if i >= |index| { assert idx[i] == index2[i - |index|] + size; }
      }
    }
  }

  lemma FirstSlices(data: seq<int>, index: seq<int>, more: seq<int>, index2: seq<int>, j: nat)
    requires ValidCut(|data|, index) && index2 != [] && index2[0] == 0 && j < |index|
    requires ValidCut(|data + more|, index + Shift(index2, |data|))
    ensures Slice(data + more, index + Shift(index2, |data|), j) == Slice(data, index, j)
  {
    SliceOfFirst(data, more, index[j], if j + 1 < |index| then index[j + 1] else |data|);
  }

  lemma LaterSlices(data: seq<int>, index: seq<int>, more: seq<int>, index2: seq<int>, j: nat)
    requires ValidCut(|more|, index2) && j < |index2|
    requires ValidCut(|data + more|, index + Shift(index2, |data|))
    ensures Slice(data + more, index + Shift(index2, |data|), |index| + j) == Slice(more, index2, j)
  {
    SliceOfSecond(data, more, index2[j], if j + 1 < |index2| then index2[j + 1] else |more|);
  }

  /** Appending an array with its own index, shifted to where the array starts, appends its slices. */
  lemma CutAppend(data: seq<int>, index: seq<int>, more: seq<int>, index2: seq<int>)
    requires ValidCut(|data|, index) && ValidCut(|more|, index2) && index2 != [] && index2[0] == 0
    ensures ValidCut(|data + more|, index + Shift(index2, |data|))
    ensures Cut(data + more, index + Shift(index2, |data|)) == Cut(data, index) + Cut(more, index2)
  {
    ValidCutAppend(|data|, index, |more|, index2);
    var idx := index + Shift(index2, |data|);
    var a, b := Cut(data + more, idx), Cut(data, index) + Cut(more, index2);
    forall j | 0 <= j < |idx| ensures a[j] == b[j] {
      if j < |index| {
        FirstSlices(data, index, more, index2, j);
      } else {
        LaterSlices(data, index, more, index2, j - |index|);
      }
    }
  }

  // ---- ev44: events grouped into pulses ----

  /** Conversion by the file library when a value is stored in an unsigned dataset: out-of-range values
      become the nearest representable one. */
  function Store(x: int, bound: int): int
    requires bound > 0
  {
    if x < 0 then 0 else if x >= bound then bound - 1 else x
  }

  function StoreAll(xs: seq<int>, bound: int): (r: seq<int>)
    requires bound > 0
    ensures |r| == |xs|
    ensures (forall i :: 0 <= i < |xs| ==> 0 <= xs[i] < bound) ==> r == xs
  {
    seq(|xs|, i requires 0 <= i < |xs| => Store(xs[i], bound))
  }

  datatype Ev44 = Ev44(tof: seq<int>, pixelIds: seq<int>, refTimes: seq<int>, refIndex: seq<int>)

  datatype EventFile = EventFile(
    timeOffset: seq<int>, id: seq<int>, timeZero: seq<int>, index: seq<int>,
    cueIndex: seq<int>, cueTime: seq<int>, eventsWritten: nat, lastCue: int)

  function NewEventFile(): EventFile { EventFile([], [], [], [], [], [], 0, -1) }

  function WithOffsets(f: EventFile, m: Ev44): EventFile {
    f.(timeOffset := f.timeOffset + StoreAll(m.tof, TWO_32), id := f.id + StoreAll(m.pixelIds, TWO_32))
  }

  function WithPulses(f: EventFile, m: Ev44): EventFile {
    f.(timeZero := f.timeZero + StoreAll(m.refTimes, TWO_64),
       index := f.index + StoreAll(Shift(m.refIndex, f.eventsWritten), TWO_32),
       eventsWritten := f.eventsWritten + |m.tof|)
  }

  /** The time of a cue is added up in signed 64 bits, and needs a reference time only if a cue is due. */
  function WithCue(f: EventFile, m: Ev44, interval: int): EventFile
    requires m.tof != [] && (f.eventsWritten > f.lastCue + interval ==> m.refTimes != [])
  {
    if f.eventsWritten <= f.lastCue + interval then f
    else f.(cueTime := f.cueTime + [Store(Add64(m.refTimes[|m.refTimes| - 1], m.tof[|m.tof| - 1]), TWO_64)],
            cueIndex := f.cueIndex + [Store(f.eventsWritten - 1, TWO_32)],
            lastCue := f.eventsWritten - 1)
  }

  predicate EmitsCue(f: EventFile, m: Ev44, interval: int) {
    m.tof != [] && f.eventsWritten + |m.tof| > f.lastCue + interval
  }

  /** The file after one message that is not a buffered one. */
  function Written(f: EventFile, m: Ev44, interval: int): EventFile
    requires EmitsCue(f, m, interval) ==> m.refTimes != []
  {
    if m.tof == [] then WithOffsets(f, m) else WithCue(WithPulses(WithOffsets(f, m), m), m, interval)
  }

  class Ev44Writer {
    var timeOffset: seq<int>
    var id: seq<int>
    var timeZero: seq<int>
    var index: seq<int>
    var cueIndex: seq<int>
    var cueTime: seq<int>
    var eventsWritten: nat
    var lastCue: int
    var shifted: seq<int>
    const cueInterval: int

    ghost function View(): EventFile
      reads this
    {
      EventFile(timeOffset, id, timeZero, index, cueIndex, cueTime, eventsWritten, lastCue)
    }

    constructor (cueInterval: int)
      ensures View() == NewEventFile() && this.cueInterval == cueInterval
    {
      timeOffset, id, timeZero, index, cueIndex, cueTime, shifted := [], [], [], [], [], [], [];
      eventsWritten, lastCue := 0, -1;
      this.cueInterval := cueInterval;
    }

    method WriteImpl(m: Ev44, isBuffered: bool) returns (written: bool)
      requires !isBuffered && EmitsCue(View(), m, cueInterval) ==> m.refTimes != []
      modifies this
      ensures written == !isBuffered
      ensures View() == if isBuffered then old(View()) else Written(old(View()), m, cueInterval)
    {
      if isBuffered { return false; }
      timeOffset := timeOffset + StoreAll(m.tof, TWO_32);
      id := id + StoreAll(m.pixelIds, TWO_32);
      if |m.tof| > 0 { WritePulses(m); }
      return true;
    }

    /** Time zeros, shifted index and cue of a message that has events. */
    method WritePulses(m: Ev44)
      requires m.tof != [] && (EmitsCue(View(), m, cueInterval) ==> m.refTimes != [])
      modifies this
      ensures View() == WithCue(WithPulses(old(View()), m), m, cueInterval)
    {
      timeZero := timeZero + StoreAll(m.refTimes, TWO_64);
      ShiftIndex(m.refIndex);
      index := index + StoreAll(shifted, TWO_32);
      eventsWritten := eventsWritten + |m.tof|;
      assert View() == WithPulses(old(View()), m);
      if eventsWritten > lastCue + cueInterval {
        cueTime := cueTime + [Store(Add64(m.refTimes[|m.refTimes| - 1], m.tof[|m.tof| - 1]), TWO_64)];
        cueIndex := cueIndex + [Store(eventsWritten - 1, TWO_32)];
        lastCue := eventsWritten - 1;
      }
    }

    /** The indexes of a message are moved past the events already stored. */
    method ShiftIndex(refIndex: seq<int>)
      modifies this`shifted
      ensures shifted == Shift(refIndex, eventsWritten)
    {
      shifted := [];
      for i := 0 to |refIndex|
        invariant shifted == Shift(refIndex[..i], eventsWritten)
      {
        shifted := shifted + [refIndex[i] + eventsWritten];
      }
      assert refIndex[..|refIndex|] == refIndex;
    }
  }

  /** Messages in the order of arrival, the latest outermost. */
  datatype Ev44Run = Nothing | Then(prior: Ev44Run, message: Ev44, buffered: bool)

  /** What the format promises: reference times come with indexes that start at 0, never decrease and
      stay inside the message; all values are non-negative integers of their types. */
  ghost predicate WellFormed(m: Ev44) {
    && |m.refTimes| == |m.refIndex|
    && (m.tof != [] ==> m.refIndex != [] && m.refIndex[0] == 0 && ValidCut(|m.tof|, m.refIndex))
    && (forall i :: 0 <= i < |m.tof| ==> 0 <= m.tof[i] < TWO_31)
    && (forall i :: 0 <= i < |m.pixelIds| ==> 0 <= m.pixelIds[i] < TWO_31)
    && (forall i :: 0 <= i < |m.refTimes| ==> 0 <= m.refTimes[i] < TWO_63)
  }

  ghost predicate AllWellFormed(run: Ev44Run) {
    run.Then? ==> AllWellFormed(run.prior) && (!run.buffered ==> WellFormed(run.message))
  }

  /** Every event has an id. */
  ghost predicate IdsMatch(run: Ev44Run) {
    run.Then? ==> IdsMatch(run.prior) && (!run.buffered ==> |run.message.pixelIds| == |run.message.tof|)
  }

  function TotalEvents(run: Ev44Run): nat {
    match run
    case Nothing => 0
    case Then(p, m, buffered) => TotalEvents(p) + (if buffered then 0 else |m.tof|)
  }

  ghost function FileOf(run: Ev44Run, interval: int): EventFile
    requires AllWellFormed(run)
  {
    match run
    case Nothing => NewEventFile()
    case Then(p, m, buffered) => if buffered then FileOf(p, interval) else Written(FileOf(p, interval), m, interval)
  }

  /** The messages that count: neither buffered nor empty. */
  predicate Counts(m: Ev44, buffered: bool) { !buffered && m.tof != [] }

  ghost function AllTimes(run: Ev44Run): seq<int> {
    match run
    case Nothing => []
    case Then(p, m, buffered) => if Counts(m, buffered) then AllTimes(p) + m.refTimes else AllTimes(p)
  }

  /** The time offsets of all pulses of all messages that count, one list per pulse. */
  ghost function AllOffsets(run: Ev44Run): seq<seq<int>>
    requires AllWellFormed(run)
  {
    match run
    case Nothing => []
    case Then(p, m, buffered) => if Counts(m, buffered) then AllOffsets(p) + Cut(m.tof, m.refIndex) else AllOffsets(p)
  }

  ghost function AllIds(run: Ev44Run): seq<seq<int>>
    requires AllWellFormed(run) && IdsMatch(run)
  {
    match run
    case Nothing => []
    case Then(p, m, buffered) => if Counts(m, buffered) then AllIds(p) + Cut(m.pixelIds, m.refIndex) else AllIds(p)
  }

  lemma IndexStoredExactly(m: Ev44, events: nat)
    requires WellFormed(m) && m.tof != [] && events + |m.tof| < TWO_32
    ensures StoreAll(Shift(m.refIndex, events), TWO_32) == Shift(m.refIndex, events)
  {
  }

  /** Cutting the stored offsets at the stored index gives back, pulse by pulse, the offsets of every
      message that counts, and the stored time zeros are their reference times. */
  lemma {:induction false} OffsetsRoundTrip(run: Ev44Run, interval: int)
    requires AllWellFormed(run) && TotalEvents(run) < TWO_32
    ensures var f := FileOf(run, interval);
            && f.eventsWritten == |f.timeOffset| == TotalEvents(run)
            && f.timeZero == AllTimes(run) && |f.timeZero| == |f.index|
            && ValidCut(|f.timeOffset|, f.index)
            && Cut(f.timeOffset, f.index) == AllOffsets(run)
  {
    if run.Then? {
      var p, m := run.prior, run.message;
      OffsetsRoundTrip(p, interval);
      if Counts(m, run.buffered) {
        var f := FileOf(p, interval);
        IndexStoredExactly(m, f.eventsWritten);
        CutAppend(f.timeOffset, f.index, m.tof, m.refIndex);
      } else if !run.buffered {
        var f := FileOf(p, interval);
        assert f.timeOffset + [] == f.timeOffset;
      }
    }
  }

  /** Likewise the stored ids, when every event has one. */
  lemma {:induction false} IdsRoundTrip(run: Ev44Run, interval: int)
    requires AllWellFormed(run) && IdsMatch(run) && TotalEvents(run) < TWO_32
    ensures var f := FileOf(run, interval);
            && |f.id| == |f.timeOffset| && ValidCut(|f.id|, f.index)
            && Cut(f.id, f.index) == AllIds(run)
  {
    OffsetsRoundTrip(run, interval);
    if run.Then? {
      var p, m := run.prior, run.message;
      IdsRoundTrip(p, interval);
      OffsetsRoundTrip(p, interval);
      var f := FileOf(p, interval);
      if Counts(m, run.buffered) {
        IndexStoredExactly(m, f.eventsWritten);
        CutAppend(f.id, f.index, m.pixelIds, m.refIndex);
      } else if !run.buffered {
        assert f.id + [] == f.id;
      }
    }
  }

  /** The ids stay in step with the events, message by message, exactly when every message brings as
      many ids as events; the writer only logs a mismatch. */
  ghost predicate InStep(run: Ev44Run, interval: int)
    requires AllWellFormed(run)
  {
    && |FileOf(run, interval).id| == |FileOf(run, interval).timeOffset|
    && (run.Then? ==> InStep(run.prior, interval))
  }

  lemma {:induction false} InStepIffIdsMatch(run: Ev44Run, interval: int)
    requires AllWellFormed(run)
    ensures InStep(run, interval) <==> IdsMatch(run)
  {
    if run.Then? { InStepIffIdsMatch(run.prior, interval); }
  }

  // ---- ev44: the cue table ----

  /** The latest pulse that starts at or before an event. */
  ghost function Owner(index: seq<int>, e: int): (j: nat)
    requires index != [] && index[0] <= e
    ensures j < |index|
  {
    if index[|index| - 1] <= e then |index| - 1 else Owner(index[..|index| - 1], e)
  }

  lemma {:induction false} OwnerBeforeMore(index: seq<int>, more: seq<int>, e: int)
    requires index != [] && index[0] <= e && forall j :: 0 <= j < |more| ==> more[j] > e
    ensures Owner(index + more, e) == Owner(index, e)
    decreases |more|
  {
    var all := index + more;
    if more == [] {
      assert all == index;
    } else {
      assert all[..|all| - 1] == index + more[..|more| - 1];
      OwnerBeforeMore(index, more[..|more| - 1], e);
    }
  }

  lemma {:induction false} OwnerInMore(index: seq<int>, index2: seq<int>, n: int, e: int)
    requires index2 != [] && index2[0] <= e && (index != [] ==> index[0] <= n + e)
    ensures (index + Shift(index2, n))[0] <= n + e
    ensures Owner(index + Shift(index2, n), n + e) == |index| + Owner(index2, e)
    decreases |index2|
  {
    var all := index + Shift(index2, n);
    if index2[|index2| - 1] > e {
      assert all[..|all| - 1] == index + Shift(index2[..|index2| - 1], n);
      OwnerInMore(index, index2[..|index2| - 1], n, e);
    }
  }

  /** The absolute time of a stored event: its pulse's time zero plus its offset. */
  ghost function AbsoluteTime(f: EventFile, e: int): int
    requires 0 <= e < |f.timeOffset| && f.index != [] && f.index[0] <= e && |f.timeZero| == |f.index|
  {
    f.timeZero[Owner(f.index, e)] + f.timeOffset[e]
  }

  /** The reference time of the message's last pulse is that of its last event. It is if the last pulse
      is not empty. */
  ghost predicate LastPulseHoldsLastEvent(m: Ev44)
    requires WellFormed(m) && m.tof != []
  {
    m.refTimes[|m.refTimes| - 1] == m.refTimes[Owner(m.refIndex, |m.tof| - 1)]
  }

  lemma NonEmptyLastPulse(m: Ev44)
    requires WellFormed(m) && m.tof != [] && m.refIndex[|m.refIndex| - 1] < |m.tof|
    ensures LastPulseHoldsLastEvent(m)
  {
  }

  /** The last reference time plus the last offset is the time of the last event, and fits. */
  ghost predicate DatesLastEvent(m: Ev44)
    requires WellFormed(m) && m.tof != []
  {
    LastPulseHoldsLastEvent(m) && m.refTimes[|m.refTimes| - 1] + m.tof[|m.tof| - 1] <= TIME_MAX
  }

  /** The parts of a stored file that the cue table is judged by. */
  ghost predicate Consistent(f: EventFile) {
    && |f.timeZero| == |f.index| && f.eventsWritten == |f.timeOffset|
    && (f.timeOffset != [] ==> f.index != [] && f.index[0] == 0)
    && (f.timeOffset == [] ==> f.index == [])
  }

  lemma {:induction false} FileConsistent(run: Ev44Run, interval: int)
    requires AllWellFormed(run) && TotalEvents(run) < TWO_32
    ensures Consistent(FileOf(run, interval))
  {
    if run.Then? {
      FileConsistent(run.prior, interval);
      OffsetsRoundTrip(run, interval);
      OffsetsRoundTrip(run.prior, interval);
    }
  }

  /** Events from the previous cue, or from the beginning, up to a cue. */
  function Gap(cues: seq<int>, k: nat): int
    requires k < |cues|
  {
    cues[k] - (if k == 0 then -1 else cues[k - 1])
  }

  ghost predicate Spaced(f: EventFile, interval: int) {
    && |f.cueIndex| == |f.cueTime|
    && f.lastCue == (if f.cueIndex == [] then -1 else f.cueIndex[|f.cueIndex| - 1])
    && (forall k :: 0 <= k < |f.cueIndex| ==> 0 <= f.cueIndex[k] < f.eventsWritten)
    && (forall k :: 0 <= k < |f.cueIndex| ==> Gap(f.cueIndex, k) >= interval)
    && f.eventsWritten - 1 - f.lastCue < interval
  }

  lemma CueKeepsSpacing(f: EventFile, g: EventFile, m: Ev44, interval: int)
    requires Spaced(f, interval) && interval >= 1 && m.tof != [] && m.refTimes != []
    requires g.cueIndex == f.cueIndex && g.cueTime == f.cueTime && g.lastCue == f.lastCue
    requires f.eventsWritten <= g.eventsWritten < TWO_32 && g.eventsWritten > 0
    ensures Spaced(WithCue(g, m, interval), interval)
  {
    var h := WithCue(g, m, interval);
    forall k | 0 <= k < |h.cueIndex| ensures Gap(h.cueIndex, k) >= interval {
      if k < |f.cueIndex| { assert Gap(h.cueIndex, k) == Gap(f.cueIndex, k); }
    }
  }

  /** Spacing of the cue table: cues are at least the interval apart, and fewer than the interval of
      events are left without one. */
  lemma {:induction false} CuesSpaced(run: Ev44Run, interval: int)
    requires AllWellFormed(run) && TotalEvents(run) < TWO_32 && interval >= 1
    ensures Spaced(FileOf(run, interval), interval) && FileOf(run, interval).eventsWritten == TotalEvents(run)
  {
    if run.Then? {
      CuesSpaced(run.prior, interval);
      var f, m := FileOf(run.prior, interval), run.message;
      if Counts(m, run.buffered) {
        CueKeepsSpacing(f, WithPulses(WithOffsets(f, m), m), m, interval);
      }
    }
  }

  ghost predicate CueRight(f: EventFile, k: nat)
    requires k < |f.cueIndex| == |f.cueTime| && Consistent(f)
  {
    0 <= f.cueIndex[k] < f.eventsWritten && f.cueTime[k] == AbsoluteTime(f, f.cueIndex[k])
  }

  ghost predicate CuesRight(f: EventFile)
    requires |f.cueIndex| == |f.cueTime| && Consistent(f)
  {
    forall k :: 0 <= k < |f.cueIndex| ==> CueRight(f, k)
  }

  /** Every message that got a cue ends in the pulse of its last event, whose time fits 64 bits. */
  ghost predicate CueMessagesGood(run: Ev44Run, interval: int)
    requires AllWellFormed(run)
  {
    run.Then? ==>
      && CueMessagesGood(run.prior, interval)
      && (Counts(run.message, run.buffered) && EmitsCue(FileOf(run.prior, interval), run.message, interval) ==>
            DatesLastEvent(run.message))
  }

  /** `g` is `f` with the events of a message added. */
  ghost predicate Extends(f: EventFile, g: EventFile, m: Ev44) {
    && Consistent(f) && Consistent(g) && WellFormed(m) && m.tof != []
    && g.timeOffset == f.timeOffset + m.tof && g.timeZero == f.timeZero + m.refTimes
    && g.index == f.index + Shift(m.refIndex, f.eventsWritten)
  }

  lemma WrittenExtends(f: EventFile, m: Ev44, interval: int)
    requires Consistent(f) && WellFormed(m) && m.tof != [] && f.eventsWritten + |m.tof| < TWO_32
    ensures Extends(f, Written(f, m, interval), m)
  {
    IndexStoredExactly(m, f.eventsWritten);
  }

  lemma OldEventKeepsTime(f: EventFile, g: EventFile, m: Ev44, e: int)
    requires Extends(f, g, m) && 0 <= e < f.eventsWritten
    ensures AbsoluteTime(g, e) == AbsoluteTime(f, e)
  {
    OwnerBeforeMore(f.index, Shift(m.refIndex, f.eventsWritten), e);
  }

  lemma LastEventTime(f: EventFile, g: EventFile, m: Ev44)
    requires Extends(f, g, m)
    ensures AbsoluteTime(g, g.eventsWritten - 1) ==
            m.refTimes[Owner(m.refIndex, |m.tof| - 1)] + m.tof[|m.tof| - 1]
  {
    OwnerInMore(f.index, m.refIndex, f.eventsWritten, |m.tof| - 1);
  }

  /** What is stored is the sum if it fits, and otherwise the zero that stands in for a negative time. */
  lemma CueTimeStored(m: Ev44)
    requires WellFormed(m) && m.tof != []
    ensures var sum := m.refTimes[|m.refTimes| - 1] + m.tof[|m.tof| - 1];
            && Store(Add64(m.refTimes[|m.refTimes| - 1], m.tof[|m.tof| - 1]), TWO_64)
               == (if sum <= TIME_MAX then sum else 0)
            && (sum > TIME_MAX ==> m.tof[|m.tof| - 1] > 0)
  {
  }

  lemma NewCueRightIff(f: EventFile, g: EventFile, m: Ev44, interval: int)
    requires Extends(f, g, m) && g == Written(f, m, interval) && g.eventsWritten < TWO_32
    requires |f.cueIndex| == |f.cueTime| && EmitsCue(f, m, interval)
    ensures |g.cueIndex| == |g.cueTime| == |f.cueIndex| + 1
    ensures CueRight(g, |f.cueIndex|) <==> DatesLastEvent(m)
  {
    var n := |f.cueIndex|;
    CueAdded(f, m, interval);
    LastEventTime(f, g, m);
    CueTimeStored(m);
    assert g.cueIndex[n] == g.eventsWritten - 1;
    assert g.cueTime[n] == Store(Add64(m.refTimes[|m.refTimes| - 1], m.tof[|m.tof| - 1]), TWO_64);
  }

  lemma CueAdded(f: EventFile, m: Ev44, interval: int)
    requires EmitsCue(f, m, interval) && m.refTimes != [] && f.eventsWritten + |m.tof| < TWO_32
    ensures var g := Written(f, m, interval);
            && g.eventsWritten == f.eventsWritten + |m.tof|
            && g.cueIndex == f.cueIndex + [g.eventsWritten - 1]
            && g.cueTime == f.cueTime + [Store(Add64(m.refTimes[|m.refTimes| - 1], m.tof[|m.tof| - 1]), TWO_64)]
  {
  }

  /** One counting message: old cues keep their times, and a new one is right exactly when the message
      ends in the pulse of its last event and that event's time fits. */
  lemma CueOfMessage(f: EventFile, g: EventFile, m: Ev44, interval: int)
    requires Extends(f, g, m) && g == Written(f, m, interval) && g.eventsWritten < TWO_32
    requires |f.cueIndex| == |f.cueTime| && forall k :: 0 <= k < |f.cueIndex| ==> 0 <= f.cueIndex[k] < f.eventsWritten
    ensures |g.cueIndex| == |g.cueTime|
    ensures CuesRight(g) <==> CuesRight(f) && (EmitsCue(f, m, interval) ==> DatesLastEvent(m))
  {
    var n := |f.cueIndex|;
    forall k | 0 <= k < n ensures CueRight(g, k) == CueRight(f, k) {
      OldEventKeepsTime(f, g, m, f.cueIndex[k]);
    }
    if EmitsCue(f, m, interval) { NewCueRightIff(f, g, m, interval); }
    assert CuesRight(f) <==> forall k :: 0 <= k < n ==> CueRight(g, k);
  }

  lemma EmptyMessageKeepsCues(f: EventFile, m: Ev44, interval: int)
    requires Consistent(f) && m.tof == [] && |f.cueIndex| == |f.cueTime|
    ensures var g := Written(f, m, interval);
            Consistent(g) && g.cueIndex == f.cueIndex && g.cueTime == f.cueTime && CuesRight(g) == CuesRight(f)
  {
    var g := Written(f, m, interval);
    assert g.timeOffset == f.timeOffset;
    assert forall k :: 0 <= k < |f.cueIndex| ==> CueRight(g, k) == CueRight(f, k);
  }

  /** All cues carry the absolute time of the event they point to exactly when every message that got
      a cue ends in the pulse of its last event and the time of that event fits 64 bits. */
  lemma {:induction false} CuesRightIff(run: Ev44Run, interval: int)
    requires AllWellFormed(run) && TotalEvents(run) < TWO_32 && interval >= 1
    ensures Consistent(FileOf(run, interval))
    ensures |FileOf(run, interval).cueIndex| == |FileOf(run, interval).cueTime|
    ensures CuesRight(FileOf(run, interval)) <==> CueMessagesGood(run, interval)
  {
    FileConsistent(run, interval);
    CuesSpaced(run, interval);
    if run.Then? && !run.buffered {
      var f, m := FileOf(run.prior, interval), run.message;
      CuesRightIff(run.prior, interval);
      CuesSpaced(run.prior, interval);
      if m.tof == [] {
        EmptyMessageKeepsCues(f, m, interval);
      } else {
        WrittenExtends(f, m, interval);
        CueOfMessage(f, FileOf(run, interval), m, interval);
      }
    } else if run.Then? {
      CuesRightIff(run.prior, interval);
    }
  }

  /** A message whose last pulse is empty: its cue carries the time zero of that pulse. */
  lemma EmptyLastPulseMisdates()
    ensures var m := Ev44([5], [7], [100, 200], [0, 1]);
            var run := Then(Nothing, m, false);
            AllWellFormed(run) &&
              var f := FileOf(run, 1);
              && Consistent(f) && f.cueIndex == [0] && f.cueTime == [205] && AbsoluteTime(f, 0) == 105
              && !CuesRight(f)
  {
    var m := Ev44([5], [7], [100, 200], [0, 1]);
    var f := Written(NewEventFile(), m, 1);
    assert m.refIndex[..1] == [0];
    assert Owner(m.refIndex, 0) == Owner([0], 0) == 0;
    assert FileOf(Then(Nothing, m, false), 1) == f by { assert FileOf(Nothing, 1) == NewEventFile(); }
    WrittenExtends(NewEventFile(), m, 1);
    LastEventTime(NewEventFile(), f, m);
    CueTimeStored(m);
    assert f.cueIndex == [0] && f.cueTime == [205];
    assert !CueRight(f, 0);
  }

  // ---- tdct: time stamps with message boundaries ----

  datatype StampFile = StampFile(time: seq<int>, cueIndex: seq<int>, cueTime: seq<int>)

  /** The size is cast to 32 bits, which wraps. */
  function Stamped(f: StampFile, stamps: seq<int>): StampFile {
    if stamps == [] then f
    else StampFile(f.time + stamps, f.cueIndex + [|f.time| % TWO_32], f.cueTime + [stamps[0]])
  }

  class TdctWriter {
    var time: seq<int>
    var cueIndex: seq<int>
    var cueTime: seq<int>

    ghost function View(): StampFile
      reads this
    {
      StampFile(time, cueIndex, cueTime)
    }

    constructor ()
      ensures View() == StampFile([], [], [])
    {
      time, cueIndex, cueTime := [], [], [];
    }

    method WriteImpl(stamps: seq<int>) returns (written: bool)
      modifies this
      ensures written <==> stamps != []
      ensures View() == Stamped(old(View()), stamps)
    {
      if |stamps| == 0 { return false; }
      cueIndex := cueIndex + [|time| % TWO_32];
      cueTime := cueTime + [stamps[0]];
      time := time + stamps;
      return true;
    }
  }

  function StampsOf(run: seq<seq<int>>): StampFile {
    if run == [] then StampFile([], [], []) else Stamped(StampsOf(run[..|run| - 1]), run[|run| - 1])
  }

  function NonEmpty(run: seq<seq<int>>): seq<seq<int>> {
    if run == [] then []
    else NonEmpty(run[..|run| - 1]) + (if run[|run| - 1] == [] then [] else [run[|run| - 1]])
  }

  /** The file holds exactly these messages: cutting the stamps at the cue index gives them back, and
      each cue time is the first stamp of its message. */
  ghost predicate Holds(f: StampFile, messages: seq<seq<int>>) {
    && ValidCut(|f.time|, f.cueIndex) && Cut(f.time, f.cueIndex) == messages
    && |f.cueTime| == |f.cueIndex|
    && forall k :: 0 <= k < |f.cueIndex| ==> f.cueIndex[k] < |f.time| && f.cueTime[k] == f.time[f.cueIndex[k]]
  }

  lemma HoldsOneMore(f: StampFile, messages: seq<seq<int>>, stamps: seq<int>)
    requires Holds(f, messages) && stamps != [] && |f.time| < TWO_32
    ensures Holds(Stamped(f, stamps), messages + [stamps])
  {
    var g := Stamped(f, stamps);
    CutAppend(f.time, f.cueIndex, stamps, [0]);
    WholeSlice(stamps, |f.time|);
    assert g.cueIndex == f.cueIndex + Shift([0], |f.time|) && g.time == f.time + stamps;
    assert Cut(g.time, g.cueIndex) == messages + [stamps];
  }

  lemma WholeSlice(stamps: seq<int>, n: nat)
    ensures Shift([0], n) == [n] && Cut(stamps, [0]) == [stamps]
  {
    assert Slice(stamps, [0], 0) == stamps;
  }

  /** The stored stamps decode to the non-empty messages, in order. */
  lemma {:induction false} StampsRoundTrip(run: seq<seq<int>>)
    requires |StampsOf(run).time| < TWO_32
    ensures Holds(StampsOf(run), NonEmpty(run))
  {
    if run != [] {
      var init, stamps := run[..|run| - 1], run[|run| - 1];
      StampsRoundTrip(init);
      if stamps != [] {
        HoldsOneMore(StampsOf(init), NonEmpty(init), stamps);
      } else {
        assert NonEmpty(init) + [] == NonEmpty(init);
      }
    }
  }
}
