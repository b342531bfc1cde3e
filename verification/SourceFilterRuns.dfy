/** What the time-window filter does over whole histories of messages and stop-time changes. */
module SourceFilterRuns {
  import opened MachineInts
  import opened Sequences
  import opened SourceFilters

  datatype Event = Arrive(message: Message) | SetStop(time: int)

  /** All events so far, the latest outermost. */
  datatype History = Start | Then(prior: History, event: Event)

  function Append(h: History, later: History): History {
    match later
    case Start => h
    case Then(p, e) => Then(Append(h, p), e)
  }

  function Apply(f: Filter, e: Event): (Filter, seq<Forward>) {
    match e
    case Arrive(m) => Step(f, m)
    case SetStop(t) => (f.(stop := t), [])
  }

  /** The state after a history. */
  function StateAfter(f: Filter, h: History): Filter {
    match h
    case Start => f
    case Then(p, e) => Apply(StateAfter(f, p), e).0
  }

  /** Everything forwarded during a history. */
  function Forwarded(f: Filter, h: History): seq<Forward> {
    match h
    case Start => []
    case Then(p, e) => Forwarded(f, p) + Apply(StateAfter(f, p), e).1
  }

  /** Everything forwarded up to and including destruction. */
  function Complete(f: Filter, h: History): seq<Forward> {
    Forwarded(f, h) + Flush(StateAfter(f, h)).1
  }

  predicate IsNew(f: Filter) {
    f == NewFilter(f.start, f.stop, f.allowRepeats, f.sourceHash)
  }

  // ---- The filter seen from its history ----

  datatype Kind = Before | Inside | After

  function KindOf(m: Message, start: int, stop: int): Kind {
    var t := ToTimepoint(m.timestamp);
    if t < start then Before else if t > stop then After else Inside
  }

  function StopAfter(f: Filter, h: History): int {
    match h
    case Start => f.stop
    case Then(_, SetStop(t)) => t
    case Then(p, Arrive(_)) => StopAfter(f, p)
  }

  /** The messages that got to the window test, the latest outermost. */
  datatype Log = Empty | Entry(prior: Log, message: Message, kind: Kind)

  predicate Closed(log: Log) { log.Entry? && log.kind == After }

  function LastTimestamp(log: Log): int {
    if log.Empty? then 0 else log.message.timestamp
  }

  /** A message gets to the window test if it is of the own source, valid, not a forbidden repeat,
      and not after a message beyond the stop time. */
  function Logged(f: Filter, stop: int, log: Log, m: Message): Log {
    if m.sourceHash == f.sourceHash && m.valid && !Closed(log)
       && (f.allowRepeats || m.timestamp != LastTimestamp(log))
    then Entry(log, m, KindOf(m, f.start, stop))
    else log
  }

  function LogOf(f: Filter, h: History): Log {
    match h
    case Start => Empty
    case Then(p, SetStop(_)) => LogOf(f, p)
    case Then(p, Arrive(m)) => Logged(f, StopAfter(f, p), LogOf(f, p), m)
  }

  /** The pre-start messages since the last flush. */
  function Pending(log: Log): set<Message> {
    if log.Entry? && log.kind == Before then Pending(log.prior) + {log.message} else {}
  }

  /** Of those the latest at microsecond resolution; of equally late ones the last to arrive. */
  function Held(log: Log): Option<Message> {
    if !log.Entry? || log.kind != Before then None
    else
      match Held(log.prior)
      case None => Some(log.message)
      case Some(n) =>
        if ToTimepoint(log.message.timestamp) < ToTimepoint(n.timestamp) then Some(n) else Some(log.message)
  }

  function FlushOf(log: Log): seq<Forward> {
    match Held(log)
    case None => []
    case Some(m) => [Forward(m, true)]
  }

  /** The forwards that a log stands for. */
  function OutputOf(log: Log): seq<Forward> {
    match log
    case Empty => []
    case Entry(p, _, Before) => OutputOf(p)
    case Entry(p, m, Inside) => OutputOf(p) + FlushOf(p) + [Forward(m, false)]
    case Entry(p, _, After) => OutputOf(p) + FlushOf(p)
  }

  /** The state that a log and a stop time determine. */
  ghost predicate Matches(f: Filter, g: Filter, stop: int, log: Log) {
    && g.start == f.start && g.sourceHash == f.sourceHash && g.allowRepeats == f.allowRepeats
    && g.stop == stop && g.finished == Closed(log)
    && g.lastSeen == LastTimestamp(log) && g.held == Held(log)
  }

  lemma StepMatches(f: Filter, g: Filter, log: Log, m: Message)
    requires Matches(f, g, g.stop, log)
    ensures Matches(f, Step(g, m).0, g.stop, Logged(f, g.stop, log, m))
    ensures OutputOf(Logged(f, g.stop, log, m)) == OutputOf(log) + Step(g, m).1
  {
  }

  /** The incremental state and all output are exactly what the history determines, for every
      arrival order and every sequence of stop-time changes. */
  lemma {:induction false} RefinesHistory(f: Filter, h: History)
    requires IsNew(f)
    ensures Matches(f, StateAfter(f, h), StopAfter(f, h), LogOf(f, h))
    ensures Forwarded(f, h) == OutputOf(LogOf(f, h))
  {
    match h
    case Start =>
    case Then(p, e) =>
      RefinesHistory(f, p);
      if e.Arrive? { StepMatches(f, StateAfter(f, p), LogOf(f, p), e.message); }
  }

  /** The held message is a latest one among those pending. */
  lemma {:induction false} HeldIsLatest(log: Log)
    ensures Held(log).None? <==> Pending(log) == {}
    ensures Held(log).Some? ==> Held(log).value in Pending(log)
    ensures Held(log).Some? ==>
              forall m :: m in Pending(log) ==> ToTimepoint(m.timestamp) <= ToTimepoint(Held(log).value.timestamp)
  {
    if log.Entry? && log.kind == Before {
      HeldIsLatest(log.prior);
      assert log.message in Pending(log);
    }
  }

  lemma {:induction false} PendingIsEarly(f: Filter, h: History)
    ensures forall m :: m in Pending(LogOf(f, h)) ==> ToTimepoint(m.timestamp) < f.start
  {
    if h.Then? { PendingIsEarly(f, h.prior); }
  }

  /** A forward allowed by the history before it: an unbuffered one is the arriving message and in
      the window in force, a buffered one is a latest pre-start message since the last flush. */
  ghost predicate Allowed(f: Filter, h: History, arriving: Option<Message>, fw: Forward) {
    var t := ToTimepoint(fw.message.timestamp);
    if fw.buffered then
      && t < f.start && fw.message in Pending(LogOf(f, h))
      && forall m :: m in Pending(LogOf(f, h)) ==> ToTimepoint(m.timestamp) <= t
    else
      arriving == Some(fw.message) && f.start <= t <= StopAfter(f, h)
  }

  lemma FlushAllowed(f: Filter, h: History, arriving: Option<Message>)
    requires IsNew(f)
    ensures forall fw :: fw in Flush(StateAfter(f, h)).1 ==> Allowed(f, h, arriving, fw)
  {
    RefinesHistory(f, h);
    HeldIsLatest(LogOf(f, h));
    PendingIsEarly(f, h);
  }

  /** In every run, whatever the order and the stop times, every forward is allowed. */
  lemma EveryForwardAllowed(f: Filter, h: History, e: Event)
    requires IsNew(f)
    ensures forall fw :: fw in Apply(StateAfter(f, h), e).1 ==>
              Allowed(f, h, if e.Arrive? then Some(e.message) else None, fw)
  {
    FlushAllowed(f, h, if e.Arrive? then Some(e.message) else None);
    RefinesHistory(f, h);
  }

  lemma FinishedStays(g: Filter, e: Event)
    requires g.finished
    ensures Apply(g, e).0.finished && Apply(g, e).0.held == g.held && Apply(g, e).1 == []
  {
  }

  lemma NothingHeldWhenFinished(f: Filter, h: History)
    requires IsNew(f) && StateAfter(f, h).finished
    ensures StateAfter(f, h).held == None
  {
    RefinesHistory(f, h);
  }

  /** Nothing is forwarded after the finishing step, not even by the destructor. */
  lemma {:induction false} NothingAfterFinish(f: Filter, h: History, later: History)
    requires IsNew(f) && StateAfter(f, h).finished
    ensures StateAfter(f, Append(h, later)).finished && StateAfter(f, Append(h, later)).held == None
    ensures Forwarded(f, Append(h, later)) == Complete(f, Append(h, later)) == Forwarded(f, h)
  {
    match later
    case Start => NothingHeldWhenFinished(f, h);
    case Then(p, e) =>
      NothingAfterFinish(f, h, p);
      FinishedStays(StateAfter(f, Append(h, p)), e);
  }

  // ---- Conservation ----

  /** The message gets past the source, finished, validity and repeat tests. */
  predicate Reaches(f: Filter, m: Message) {
    m.sourceHash == f.sourceHash && !f.finished && m.valid && (f.allowRepeats || m.timestamp != f.lastSeen)
  }

  /** The event puts a newer pre-start message in the place of the held one. */
  predicate Overwrites(f: Filter, e: Event) {
    e.Arrive? && f.held.Some? && Reaches(f, e.message)
    && ToTimepoint(f.held.value.timestamp) <= ToTimepoint(e.message.timestamp) < f.start
  }

  function OverwriteCount(f: Filter, h: History): nat {
    match h
    case Start => 0
    case Then(p, e) => OverwriteCount(f, p) + (if Overwrites(StateAfter(f, p), e) then 1 else 0)
  }

  function OwnArrivals(f: Filter, h: History): nat {
    match h
    case Start => 0
    case Then(p, e) =>
      OwnArrivals(f, p) + (if e.Arrive? && e.message.sourceHash == f.sourceHash then 1 else 0)
  }

  /** What the counters leave to be explained by overwritten messages. */
  function Unexplained(g: Filter): int {
    g.counters.received - g.counters.transmitted - g.counters.discarded
    - (if g.held.Some? then 1 else 0) - (if g.finished then 1 else 0)
  }

  lemma StepConserves(g: Filter, m: Message)
    ensures var (h, out) := Step(g, m);
            && h.sourceHash == g.sourceHash
            && h.counters.received == g.counters.received + (if m.sourceHash == g.sourceHash then 1 else 0)
            && h.counters.transmitted == g.counters.transmitted + |out|
            && Unexplained(h) == Unexplained(g) + (if Overwrites(g, Arrive(m)) then 1 else 0)
  {
  }

  /** Every message of the source is accounted for exactly once: sent, discarded, overwritten while
      held, still held, or the one that finished the stream. */
  lemma {:induction false} CountersConserved(f: Filter, h: History)
    requires IsNew(f)
    ensures var g := StateAfter(f, h);
            && g.sourceHash == f.sourceHash
            && g.counters.received == OwnArrivals(f, h)
            && g.counters.transmitted == |Forwarded(f, h)|
            && g.counters.received == g.counters.transmitted + g.counters.discarded + OverwriteCount(f, h)
                 + (if g.held.Some? then 1 else 0) + (if g.finished then 1 else 0)
  {
    match h
    case Start =>
    case Then(p, e) =>
      CountersConserved(f, p);
      if e.Arrive? { StepConserves(StateAfter(f, p), e.message); }
  }

  // ---- Runs in time order with a fixed stop time ----

  predicate IsRelevant(f: Filter, m: Message) { m.sourceHash == f.sourceHash && m.valid }

  /** Timestamp of the latest valid message of the source; 0, which no message carries, if none. */
  function LastRelevant(f: Filter, h: History): int {
    match h
    case Start => 0
    case Then(p, e) => if e.Arrive? && IsRelevant(f, e.message) then e.message.timestamp else LastRelevant(f, p)
  }

  /** Arrivals only, with non-zero timestamps that never decrease within the source. */
  predicate InTimeOrder(f: Filter, h: History) {
    match h
    case Start => true
    case Then(p, SetStop(_)) => false
    case Then(p, Arrive(m)) =>
      && InTimeOrder(f, p)
      && (IsRelevant(f, m) ==>
            m.timestamp != 0 && (LastRelevant(f, p) != 0 ==> LastRelevant(f, p) <= m.timestamp))
  }

  /** The valid messages of the source, without consecutive repeats unless they are allowed. */
  function Kept(f: Filter, h: History): seq<Message> {
    match h
    case Start => []
    case Then(p, SetStop(_)) => Kept(f, p)
    case Then(p, Arrive(m)) =>
      if IsRelevant(f, m) && (f.allowRepeats || m.timestamp != LastRelevant(f, p)) then Kept(f, p) + [m]
      else Kept(f, p)
  }

  function BeforeStart(f: Filter): Message -> bool {
    (m: Message) => ToTimepoint(m.timestamp) < f.start
  }

  function InWindow(f: Filter): Message -> bool {
    (m: Message) => f.start <= ToTimepoint(m.timestamp) <= f.stop
  }

  function Unbuffered(ms: seq<Message>): (out: seq<Forward>)
    ensures |out| == |ms|
  {
    seq(|ms|, i requires 0 <= i < |ms| => Forward(ms[i], false))
  }

  function LastFlagged(ms: seq<Message>): seq<Forward> {
    if ms == [] then [] else [Forward(ms[|ms| - 1], true)]
  }

  /** The last pre-start message, flagged buffered, then all messages of the window in order. */
  function Expected(f: Filter, ks: seq<Message>): seq<Forward> {
    LastFlagged(Select(BeforeStart(f), ks)) + Unbuffered(Select(InWindow(f), ks))
  }

  /** A message past the start leaves the pre-start part alone. */
  lemma ExpectedOneMore(f: Filter, ks: seq<Message>, m: Message)
    requires ToTimepoint(m.timestamp) >= f.start
    ensures Expected(f, ks + [m]) ==
            if ToTimepoint(m.timestamp) <= f.stop then Expected(f, ks) + [Forward(m, false)] else Expected(f, ks)
  {
    SelectOneMore(BeforeStart(f), ks, m);
    SelectOneMore(InWindow(f), ks, m);
    var inside := Select(InWindow(f), ks);
    assert Unbuffered(inside + [m]) == Unbuffered(inside) + [Forward(m, false)];
  }

  /** Messages that are all before the start: only the last one is expected. */
  lemma ExpectedWhenEarly(f: Filter, ks: seq<Message>)
    requires forall i :: 0 <= i < |ks| ==> ToTimepoint(ks[i].timestamp) < f.start
    ensures Select(BeforeStart(f), ks) == ks && Select(InWindow(f), ks) == []
    ensures Expected(f, ks) == LastFlagged(ks)
  {
    SelectAll(BeforeStart(f), ks);
    SelectNone(InWindow(f), ks);
  }

  /** The kept messages are in order and end with the latest relevant timestamp. */
  lemma {:induction false} KeptInOrder(f: Filter, h: History)
    requires InTimeOrder(f, h)
    ensures forall i :: 0 <= i < |Kept(f, h)| ==> Kept(f, h)[i].timestamp <= LastRelevant(f, h)
    ensures var ks := Kept(f, h);
            if ks == [] then LastRelevant(f, h) == 0
            else LastRelevant(f, h) != 0 && ks[|ks| - 1].timestamp == LastRelevant(f, h)
  {
    if h.Then? { KeptInOrder(f, h.prior); }
  }

  /** State and output once `ks` is kept, `last` seen and `want` expected. */
  ghost predicate Follows(f: Filter, g: Filter, out: seq<Forward>, ks: seq<Message>, last: int, want: seq<Forward>) {
    var reached := ks != [] && ToTimepoint(last) >= f.start;
    && g.start == f.start && g.stop == f.stop && g.sourceHash == f.sourceHash && g.allowRepeats == f.allowRepeats
    && g.finished == (reached && ToTimepoint(last) > f.stop)
    && (!g.finished ==> g.lastSeen == last)
    && if reached then g.held == None && out == want
       else out == [] && want == LastFlagged(ks) && g.held == (if ks == [] then None else Some(ks[|ks| - 1]))
  }

  lemma FollowsStep(f: Filter, g: Filter, out: seq<Forward>, ks: seq<Message>, last: int, want: seq<Forward>,
                    m: Message, ks': seq<Message>, want': seq<Forward>)
    requires Follows(f, g, out, ks, last, want) && IsRelevant(f, m) && m.timestamp != 0
    requires if ks == [] then last == 0 else ks[|ks| - 1].timestamp == last <= m.timestamp
    requires ks' == if f.allowRepeats || m.timestamp != last then ks + [m] else ks
    requires ToTimepoint(m.timestamp) < f.start ==> want' == LastFlagged(ks')
    requires ToTimepoint(m.timestamp) >= f.start ==>
               want' == if ks' != ks && ToTimepoint(m.timestamp) <= f.stop then want + [Forward(m, false)] else want
    ensures Follows(f, Step(g, m).0, out + Step(g, m).1, ks', m.timestamp, want')
  {
    assert out + [] == out && ks + [m] != ks;
    if ks != [] { TimepointMonotone(last, m.timestamp); }
  }

  lemma FollowsIgnored(f: Filter, g: Filter, out: seq<Forward>, ks: seq<Message>, last: int, want: seq<Forward>, m: Message)
    requires Follows(f, g, out, ks, last, want) && !IsRelevant(f, m)
    ensures Follows(f, Step(g, m).0, out + Step(g, m).1, ks, last, want)
  {
    assert out + [] == out;
  }

  lemma {:induction false} OrderedRun(f: Filter, h: History)
    requires IsNew(f) && InTimeOrder(f, h)
    ensures Follows(f, StateAfter(f, h), Forwarded(f, h), Kept(f, h), LastRelevant(f, h), Expected(f, Kept(f, h)))
  {
    if h.Then? {
      var p, m := h.prior, h.event.message;
      OrderedRun(f, p);
      if IsRelevant(f, m) {
        KeptInOrder(f, p);
        ExpectedAfter(f, h);
        FollowsStep(f, StateAfter(f, p), Forwarded(f, p), Kept(f, p), LastRelevant(f, p), Expected(f, Kept(f, p)),
                    m, Kept(f, h), Expected(f, Kept(f, h)));
      } else {
        FollowsIgnored(f, StateAfter(f, p), Forwarded(f, p), Kept(f, p), LastRelevant(f, p), Expected(f, Kept(f, p)), m);
      }
    }
  }

  lemma ExpectedAfter(f: Filter, h: History)
    requires InTimeOrder(f, h) && h.Then? && IsRelevant(f, h.event.message)
    ensures var m, ks, ks' := h.event.message, Kept(f, h.prior), Kept(f, h);
            && (ToTimepoint(m.timestamp) < f.start ==> Expected(f, ks') == LastFlagged(ks'))
            && (ToTimepoint(m.timestamp) >= f.start ==>
                  Expected(f, ks') ==
                  if ks' != ks && ToTimepoint(m.timestamp) <= f.stop
                  then Expected(f, ks) + [Forward(m, false)] else Expected(f, ks))
  {
    var m, ks, ks' := h.event.message, Kept(f, h.prior), Kept(f, h);
    if ToTimepoint(m.timestamp) < f.start {
      KeptInOrder(f, h);
      forall i | 0 <= i < |ks'| ensures ToTimepoint(ks'[i].timestamp) < f.start {
        TimepointMonotone(ks'[i].timestamp, m.timestamp);
      }
      ExpectedWhenEarly(f, ks');
    } else {
      ExpectedOneMore(f, ks, m);
    }
  }

  /** For every run in time order with a fixed stop time, everything forwarded up to and including
      destruction is the last pre-start message, flagged, then the window's messages in order. */
  lemma OrderedRunForwardsWindow(f: Filter, h: History)
    requires IsNew(f) && InTimeOrder(f, h)
    ensures Complete(f, h) == Expected(f, Kept(f, h))
  {
    OrderedRun(f, h);
    var want := Expected(f, Kept(f, h));
    assert want + [] == want == [] + want;
  }

  // ---- The window on raw timestamps ----

  /** The first whole microsecond at or after a time. */
  function FirstMicrosecond(t: int): (r: int)
    ensures r % 1000 == 0 && t <= r < t + 1000
  {
    t + (-t) % 1000
  }

  /** The first whole microsecond after a time. */
  function MicrosecondAfter(t: int): (r: int)
    ensures r % 1000 == 0 && t < r <= t + 1000
  {
    FirstMicrosecond(t + 1)
  }

  /** A timestamp is before the start exactly when it is before the start's first whole microsecond, and
      after the stop exactly when it has reached the first whole microsecond after the stop. */
  lemma WindowOfRawTimestamps(timestamp: int, start: int, stop: int)
    requires timestamp >= 0
    ensures ToTimepoint(timestamp) < start <==> timestamp < FirstMicrosecond(start)
    ensures start % 1000 == 0 ==> (ToTimepoint(timestamp) < start <==> timestamp < start)
    ensures ToTimepoint(timestamp) > stop <==> timestamp >= MicrosecondAfter(stop)
  {
    var cut := ToTimepoint(timestamp);
    TimepointIsWholeMicrosecond(timestamp);
    WholeBelow(cut, timestamp, FirstMicrosecond(start));
    WholeBelow(cut, timestamp, MicrosecondAfter(stop));
    FirstWhole(cut, start, FirstMicrosecond(start));
    FirstWhole(cut, stop + 1, MicrosecondAfter(stop));
    if start % 1000 == 0 { WholeBelow(cut, timestamp, start); }
  }

  /** A whole microsecond is below a time exactly when it is below the first whole one at or after it. */
  lemma FirstWhole(cut: int, t: int, first: int)
    requires cut % 1000 == 0 && first % 1000 == 0 && t <= first < t + 1000
    ensures cut < t <==> cut < first
  {
    assert cut == cut / 1000 * 1000 && first == first / 1000 * 1000;
  }

  /** A whole microsecond and a timestamp within it lie on the same side of any whole microsecond. */
  lemma WholeBelow(cut: int, t: int, whole: int)
    requires cut % 1000 == 0 && whole % 1000 == 0 && cut <= t < cut + 1000
    ensures t < whole <==> cut < whole
  {
    assert cut == cut / 1000 * 1000 && whole == whole / 1000 * 1000;
  }

  predicate NoNegativeTimestamp(f: Filter, h: History) {
    match h
    case Start => true
    case Then(p, SetStop(_)) => NoNegativeTimestamp(f, p)
    case Then(p, Arrive(m)) => NoNegativeTimestamp(f, p) && (IsRelevant(f, m) ==> m.timestamp >= 0)
  }

  lemma {:induction false} KeptNonNegative(f: Filter, h: History)
    requires NoNegativeTimestamp(f, h)
    ensures forall i :: 0 <= i < |Kept(f, h)| ==> Kept(f, h)[i].timestamp >= 0
  {
    if h.Then? { KeptNonNegative(f, h.prior); }
  }

  function StampedBefore(t: int): Message -> bool { (m: Message) => m.timestamp < t }

  function StampedWithin(from: int, to: int): Message -> bool { (m: Message) => from <= m.timestamp < to }

  /** In time order with a fixed stop time, all forwards are the last message stamped before the start's
      first whole microsecond, flagged, then those stamped from there up to the first whole microsecond
      after the stop, in order. */
  lemma OrderedRunForwardsRawWindow(f: Filter, h: History)
    requires IsNew(f) && InTimeOrder(f, h) && NoNegativeTimestamp(f, h)
    ensures var from, to := FirstMicrosecond(f.start), MicrosecondAfter(f.stop);
            Complete(f, h) == LastFlagged(Select(StampedBefore(from), Kept(f, h)))
                              + Unbuffered(Select(StampedWithin(from, to), Kept(f, h)))
  {
    OrderedRunForwardsWindow(f, h);
    KeptNonNegative(f, h);
    var from, to, ks := FirstMicrosecond(f.start), MicrosecondAfter(f.stop), Kept(f, h);
    forall i | 0 <= i < |ks|
      ensures BeforeStart(f)(ks[i]) == StampedBefore(from)(ks[i]) && InWindow(f)(ks[i]) == StampedWithin(from, to)(ks[i])
    {
      WindowOfRawTimestamps(ks[i].timestamp, f.start, f.stop);
    }
    SelectSame(BeforeStart(f), StampedBefore(from), ks);
    SelectSame(InWindow(f), StampedWithin(from, to), ks);
  }

  /** In every run every unbuffered forward is stamped within the window in force, and every buffered one
      before the start. */
  lemma EveryForwardInRawWindow(f: Filter, h: History, e: Event)
    requires IsNew(f)
    ensures forall fw :: fw in Apply(StateAfter(f, h), e).1 && fw.message.timestamp >= 0 ==>
              if fw.buffered then fw.message.timestamp < FirstMicrosecond(f.start)
              else FirstMicrosecond(f.start) <= fw.message.timestamp < MicrosecondAfter(StopAfter(f, h))
  {
    EveryForwardAllowed(f, h, e);
    forall fw | fw in Apply(StateAfter(f, h), e).1 && fw.message.timestamp >= 0
      ensures if fw.buffered then fw.message.timestamp < FirstMicrosecond(f.start)
              else FirstMicrosecond(f.start) <= fw.message.timestamp < MicrosecondAfter(StopAfter(f, h))
    {
      WindowOfRawTimestamps(fw.message.timestamp, f.start, StopAfter(f, h));
    }
  }

  // ---- What the other counters count ----

  /** Messages of the source, arriving before it was closed, that have a property together with the log. */
  function Tally(f: Filter, h: History, p: (Log, Message) -> bool): nat {
    match h
    case Start => 0
    case Then(q, SetStop(_)) => Tally(f, q, p)
    case Then(q, Arrive(m)) =>
      Tally(f, q, p) + (if m.sourceHash == f.sourceHash && !Closed(LogOf(f, q)) && p(LogOf(f, q), m) then 1 else 0)
  }

  function IsInvalid(): (Log, Message) -> bool { (log: Log, m: Message) => !m.valid }
  function IsRepeat(): (Log, Message) -> bool { (log: Log, m: Message) => m.valid && m.timestamp == LastTimestamp(log) }
  function IsLate(): (Log, Message) -> bool { (log: Log, m: Message) => m.valid && m.timestamp < LastTimestamp(log) }

  /** Invalid messages, repeats of the last accepted timestamp and timestamps before it. */
  lemma {:induction false} CountersOfKinds(f: Filter, h: History)
    requires IsNew(f)
    ensures var c := StateAfter(f, h).counters;
            && c.invalid == Tally(f, h, IsInvalid())
            && c.repeated == Tally(f, h, IsRepeat())
            && c.unordered == Tally(f, h, IsLate())
  {
    if h.Then? {
      CountersOfKinds(f, h.prior);
      RefinesHistory(f, h.prior);
      if h.event.Arrive? { StepCountsKinds(StateAfter(f, h.prior), h.event.message); }
    }
  }

  lemma StepCountsKinds(g: Filter, m: Message)
    ensures var c, d := g.counters, Step(g, m).0.counters;
            var taken := m.sourceHash == g.sourceHash && !g.finished;
            && d.invalid == c.invalid + (if taken && !m.valid then 1 else 0)
            && d.repeated == c.repeated + (if taken && m.valid && m.timestamp == g.lastSeen then 1 else 0)
            && d.unordered == c.unordered + (if taken && m.valid && m.timestamp < g.lastSeen then 1 else 0)
  {
  }
}
