/** When a partition has finished and what its counters say, told from the turns it has been through
    (src/Stream/Partition.cpp). */
module PartitionRuns {
  import opened MachineInts
  import opened SourceFilters
  import opened SourceFilterRuns
  import opened FilterSharing
  import opened Partitions
  import PF = PartitionFilters

  // ---- What happened, read off the turns ----

  /** stop() was called. */
  predicate Forced(ts: Turns) {
    ts.Next? && (ts.turn.StopTurn? || Forced(ts.prior))
  }

  /** The turn asks the consumer: it is a poll, the partition was not told to stop and is not paused. */
  predicate AsksConsumer(ts: Turns, t: Turn) {
    t.PollTurn? && !t.paused && !Forced(ts)
  }

  /** The polls made and the stop times requested. */
  function PollsOf(ts: Turns, stop: int): PF.Polls {
    match ts
    case NoTurns => PF.Begin(stop)
    case Next(p, t) =>
      if AsksConsumer(p, t) then PF.Polled(PollsOf(p, stop), t.poll.status, t.seen, t.now)
      else if t.SetStopTurn? then PF.StopRequested(PollsOf(p, stop), t.time)
      else PollsOf(p, stop)
  }

  predicate TakesMessage(ts: Turns, t: Turn) {
    AsksConsumer(ts, t) && t.poll.status == PF.PollStatus.Message
  }

  /** The readable messages taken and the stop times in force since: a requested one, earlier by the leeway
      only where the deadline has no room for it. */
  function Taken(ts: Turns, leeway: int): History {
    match ts
    case NoTurns => Start
    case Next(p, t) =>
      if TakesMessage(p, t) && t.poll.payload.Decoded? then Then(Taken(p, leeway), Arrive(t.poll.payload.message))
      else if t.SetStopTurn? then Then(Taken(p, leeway), SetStop(PF.Deadline(t.time, leeway) - leeway))
      else Taken(p, leeway)
  }

  /** A new partition. */
  ghost predicate IsNewPartition(v: PartitionView, sources: seq<Source>, hashes: seq<nat>, start: int, stop: int, limit: int) {
    && Enumerates(hashes, sources) && v.filters == Groups(sources, hashes, start, stop) && v.queue == []
    && v.polling == PF.StateOf(PF.Begin(stop), v.leeway, limit) && v.stop == v.polling.stop
    && !v.forceStop && !v.finished && v.offset == 0 && v.counts == NoCounts()
  }

  /** The polling state and the stop flag after any turns are those of the polls and requests. */
  lemma {:induction false} PollingFollows(v: PartitionView, ts: Turns, stop: int, limit: int)
    requires v.polling == PF.StateOf(PF.Begin(stop), v.leeway, limit) && v.stop == v.polling.stop && !v.forceStop
    ensures var u := ViewAfter(v, ts);
            && u.forceStop == Forced(ts) && u.leeway == v.leeway && u.stop == u.polling.stop
            && u.polling == PF.StateOf(PollsOf(ts, stop), v.leeway, limit)
  {
    if ts.Next? {
      PollingFollows(v, ts.prior, stop, limit);
      TurnPolling(ViewAfter(v, ts.prior), ts.turn);
    }
  }

  /** What one turn does to stop flag, stop time and polling state. */
  lemma TurnPolling(v: PartitionView, t: Turn)
    ensures var u := Turned(v, t);
            && u.leeway == v.leeway && (u.forceStop <==> v.forceStop || t.StopTurn?)
            && (t.SetStopTurn? ==>
                  u.stop == PF.SanitiseStopTime(t.time, v.leeway) && u.polling == v.polling.(stop := u.stop))
            && (!t.SetStopTurn? ==> u.stop == v.stop)
            && (t.StopTurn? ==> u.polling == v.polling)
            && (t.PollTurn? ==>
                  u.polling == if t.paused || v.forceStop then v.polling else PF.AfterPoll(v.polling, t.poll.status, t.seen))
            && (v.polling.leeway == u.polling.leeway && v.polling.limit == u.polling.limit)
            && (u.polling.stop == if t.SetStopTurn? then u.stop else v.polling.stop)
  {
    if t.PollTurn? && !t.paused && !v.forceStop { PollKeeps(v, t.poll); }
  }

  lemma PollKeeps(v: PartitionView, poll: Poll)
    ensures var w := Processed(v, poll);
            && w.polling == v.polling && w.stop == v.stop && w.leeway == v.leeway
            && w.forceStop == v.forceStop && w.finished == v.finished
  {
  }

  /** The history that the filters go through is that of the messages taken and the stop times requested. */
  lemma {:induction false} HistoryIsTaken(v: PartitionView, ts: Turns, stop: int, limit: int)
    requires v.polling == PF.StateOf(PF.Begin(stop), v.leeway, limit) && v.stop == v.polling.stop && !v.forceStop
    ensures HistoryOf(v, ts) == Taken(ts, v.leeway)
  {
    if ts.Next? {
      HistoryIsTaken(v, ts.prior, stop, limit);
      PollingFollows(v, ts.prior, stop, limit);
      if ts.turn.SetStopTurn? { PF.GuardedStopTime(ts.turn.time, v.leeway); }
    }
  }

  /** A requested stop time that leaves room for the leeway reaches the partition, its polling and all its
      filters unchanged. */
  lemma RequestedStopReachesAll(v: PartitionView, time: int)
    requires time + v.leeway < TIME_MAX
    ensures var u := Turned(v, SetStopTurn(time));
            && u.stop == time && u.polling.stop == time
            && forall i :: 0 <= i < |u.filters| ==> u.filters[i].state.stop == time
  {
    PF.GuardedStopTime(time, v.leeway);
    SetStopReaches(v.filters, time);
  }

  lemma {:induction false} SetStopReaches(fs: seq<Shared>, time: int)
    ensures forall i :: 0 <= i < |Remaining(fs, SetStop(time))| ==> Remaining(fs, SetStop(time))[i].state.stop == time
  {
    if fs != [] {
      var init, last := Remaining(fs[..|fs| - 1], SetStop(time)), Survive(SetStop(time))(fs[|fs| - 1]);
      SetStopReaches(fs[..|fs| - 1], time);
      assert Remaining(fs, SetStop(time)) == init + last && |last| <= 1;
      assert last != [] ==> last[0].state.stop == time;
    }
  }

  /** In any run of a new partition each destination is sent, up to and including destruction, what a filter
      of its own sends for the messages taken and the stop times requested. */
  lemma DestinationGetsWhatWasTaken(sources: seq<Source>, hashes: seq<nat>, start: int, stop: int, limit: int,
                                    v: PartitionView, ts: Turns, k: nat)
    requires DistinctDestinations(sources) && Consistent(sources) && k < |sources|
    requires IsNewPartition(v, sources, hashes, start, stop, limit)
    ensures var u, d := ViewAfter(v, ts), sources[k].destination;
            For(d, u.queue + Destroy(u.filters))
            == Addressed(d, Complete(PrivateFilter(sources[k], start, stop), Taken(ts, v.leeway)))
  {
    HistoryIsTaken(v, ts, stop, limit);
    DestinationGetsItsOwnStream(sources, hashes, start, stop, v, ts, k);
  }

  // ---- Which filters are left ----

  /** A filter after a history, gone if it has finished. */
  function Surviving(h: History): Shared -> seq<Shared> {
    (x: Shared) => var g := StateAfter(x.state, h); if g.finished then [] else [Shared(g, x.destinations)]
  }

  lemma {:induction false} SurviveOneMore(fs: seq<Shared>, h: History, e: Event)
    ensures FlatMap(Survive(e), FlatMap(Surviving(h), fs)) == FlatMap(Surviving(Then(h, e)), fs)
  {
    if fs != [] {
      var init, x := fs[..|fs| - 1], fs[|fs| - 1];
      SurviveOneMore(init, h, e);
      FlatMapConcat(Survive(e), FlatMap(Surviving(h), init), Surviving(h)(x));
      var g := StateAfter(x.state, h);
      if g.finished {
        FinishedStays(g, e);
        assert Surviving(h)(x) == [] && FlatMap(Survive(e), Surviving(h)(x)) == [];
      } else {
        FlatMapOne(Survive(e), Shared(g, x.destinations));
      }
    }
  }

  lemma {:induction false} SurvivingAtStart(fs: seq<Shared>)
    requires forall i :: 0 <= i < |fs| ==> !fs[i].state.finished
    ensures FlatMap(Surviving(Start), fs) == fs
  {
    if fs != [] {
      SurvivingAtStart(fs[..|fs| - 1]);
      assert fs == fs[..|fs| - 1] + [fs[|fs| - 1]];
    }
  }

  lemma {:induction false} FiltersLeft(fs: seq<Shared>, h: History)
    requires forall i :: 0 <= i < |fs| ==> !fs[i].state.finished
    ensures FiltersAfter(fs, h) == FlatMap(Surviving(h), fs)
  {
    match h
    case Start => SurvivingAtStart(fs);
    case Then(p, e) =>
      FiltersLeft(fs, p);
      SurviveOneMore(fs, p, e);
  }

  lemma {:induction false} NoneLeftIff(fs: seq<Shared>, h: History)
    ensures FlatMap(Surviving(h), fs) == [] <==> forall i :: 0 <= i < |fs| ==> StateAfter(fs[i].state, h).finished
  {
    if fs != [] {
      NoneLeftIff(fs[..|fs| - 1], h);
      assert forall i :: 0 <= i < |fs| - 1 ==> fs[..|fs| - 1][i] == fs[i];
    }
  }

  /** The filter of a source's group. */
  ghost function FilterOf(sources: seq<Source>, k: nat, start: int, stop: int): (f: Filter)
    requires k < |sources|
    ensures IsNew(f)
  {
    assert HasHash(sources, sources[k].writeHash);
    GroupFilter(sources, sources[k].writeHash, start, stop).state
  }

  /** For every source a message beyond the stop time in force has been taken. */
  ghost predicate AllClosed(sources: seq<Source>, start: int, stop: int, h: History) {
    forall k :: 0 <= k < |sources| ==> Closed(LogOf(FilterOf(sources, k, start, stop), h))
  }

  lemma NoFiltersLeftIff(sources: seq<Source>, hashes: seq<nat>, start: int, stop: int, h: History)
    requires Enumerates(hashes, sources)
    ensures FiltersAfter(Groups(sources, hashes, start, stop), h) == [] <==> AllClosed(sources, start, stop, h)
  {
    var fs := Groups(sources, hashes, start, stop);
    FiltersLeft(fs, h);
    NoneLeftIff(fs, h);
    forall i | 0 <= i < |fs|
      ensures exists k :: 0 <= k < |sources| && fs[i].state == FilterOf(sources, k, start, stop)
    {
      assert HasHash(sources, hashes[i]);
      var k :| 0 <= k < |sources| && sources[k].writeHash == hashes[i];
      assert fs[i].state == FilterOf(sources, k, start, stop);
    }
    forall k | 0 <= k < |sources|
      ensures Closed(LogOf(FilterOf(sources, k, start, stop), h)) == StateAfter(FilterOf(sources, k, start, stop), h).finished
      ensures exists i :: 0 <= i < |fs| && fs[i].state == FilterOf(sources, k, start, stop)
    {
      RefinesHistory(FilterOf(sources, k, start, stop), h);
      assert HasHash(sources, sources[k].writeHash);
      var i :| 0 <= i < |hashes| && hashes[i] == sources[k].writeHash;
      assert fs[i].state == FilterOf(sources, k, start, stop);
    }
  }

  // ---- When the partition has finished ----

  /** The poll ends the partition: errors for longer than the limit, or nothing more to read after the
      requested stop time and leeway. */
  predicate PollEnds(h: PF.Polls, leeway: int, limit: int, t: Turn)
    requires t.PollTurn?
  {
    || (t.poll.status == PF.PollStatus.Error
        && t.now > PF.RunStart(PF.Polled(h, t.poll.status, t.seen, t.now), PF.PollStatus.Error) + limit)
    || (t.poll.status == PF.PollStatus.TimedOut && PF.AtEnd(h) && t.now > PF.Deadline(PF.RequestedStop(h), leeway))
  }

  /** The message ends the partition: every source is closed after it, or the broker took it in after the
      requested stop time and leeway. */
  ghost predicate MessageEnds(sources: seq<Source>, start: int, stop: int, leeway: int, p: Turns, t: Turn)
    requires t.PollTurn?
  {
    && t.poll.status == PF.PollStatus.Message
    && (|| AllClosed(sources, start, stop, Taken(Next(p, t), leeway))
        || t.poll.brokerTime > PF.Deadline(PF.RequestedStop(PollsOf(p, stop)), leeway))
  }

  ghost predicate TurnEnds(sources: seq<Source>, start: int, stop: int, leeway: int, limit: int, p: Turns, t: Turn) {
    t.PollTurn? &&
      if Forced(p) then true
      else !t.paused && (PollEnds(PollsOf(p, stop), leeway, limit, t) || MessageEnds(sources, start, stop, leeway, p, t))
  }

  /** Some turn ended the partition. */
  ghost predicate Ended(sources: seq<Source>, start: int, stop: int, leeway: int, limit: int, ts: Turns) {
    ts.Next? && (|| Ended(sources, start, stop, leeway, limit, ts.prior)
                 || TurnEnds(sources, start, stop, leeway, limit, ts.prior, ts.turn))
  }

  /** What one turn does to the finished flag, in terms of the state before it. */
  lemma TurnFinishes(v: PartitionView, t: Turn)
    ensures Turned(v, t).finished <==>
            || v.finished
            || (t.PollTurn? && v.forceStop)
            || (t.PollTurn? && !t.paused && PF.Stops(v.polling, t.poll.status, t.seen, t.now))
            || (t.PollTurn? && !t.paused && t.poll.status == PF.PollStatus.Message
                && (Turned(v, t).filters == [] || t.poll.brokerTime > Add64(v.stop, v.leeway)))
  {
  }

  /** Over any run, a partition has finished exactly when some poll came after stop(), or met the stop
      condition of polling, or brought a message after which every source was closed or which the broker
      took in after the requested stop time and leeway. */
  lemma {:induction false} FinishedExactlyWhen(sources: seq<Source>, hashes: seq<nat>, start: int, stop: int, limit: int,
                                               v: PartitionView, ts: Turns)
    requires IsNewPartition(v, sources, hashes, start, stop, limit)
    requires 0 <= v.leeway <= TIME_MAX && 0 <= limit <= TIME_MAX && PF.InRange(PollsOf(ts, stop), limit)
    ensures ViewAfter(v, ts).finished <==> Ended(sources, start, stop, v.leeway, limit, ts)
  {
    if ts.Next? {
      var p, t := ts.prior, ts.turn;
      FinishedExactlyWhen(sources, hashes, start, stop, limit, v, p);
      TurnFinishes(ViewAfter(v, p), t);
      PollingFollows(v, p, stop, limit);
      if AsksConsumer(p, t) {
        var polls := PollsOf(p, stop);
        PF.StopsExactlyWhen(polls, v.leeway, limit, t.poll.status, t.seen, t.now);
        PF.StopPlusLeewayInRange(polls, v.leeway, limit);
        RunIsHistory(v, ts);
        HistoryIsTaken(v, ts, stop, limit);
        NoFiltersLeftIff(sources, hashes, start, stop, Taken(ts, v.leeway));
      }
    }
  }

  // ---- The counters ----

  /** The polls that brought a message, in order. */
  function MessagePolls(ts: Turns): seq<Poll> {
    match ts
    case NoTurns => []
    case Next(p, t) => MessagePolls(p) + (if TakesMessage(p, t) then [t.poll] else [])
  }

  function PollCount(h: PF.Polls, s: PF.PollStatus): nat {
    match h
    case Begin(_) => 0
    case Polled(p, status, _, _) => PollCount(p, s) + (if status == s then 1 else 0)
    case StopRequested(p, _) => PollCount(p, s)
  }

  /** How many of these messages have a property. */
  function CountOf(test: Poll -> bool, ps: seq<Poll>): nat {
    if ps == [] then 0 else CountOf(test, ps[..|ps| - 1]) + (if test(ps[|ps| - 1]) then 1 else 0)
  }

  function Unreadable(): Poll -> bool { (p: Poll) => p.payload.Undecodable? }
  function UnreadableFor(e: ReadError): Poll -> bool { (p: Poll) => p.payload == Undecodable(e) }

  /** Gaps: offsets that do not follow the one before; nothing follows the offset zero that a partition
      starts with. */
  function GapCount(ps: seq<Poll>): nat {
    if |ps| < 2 then 0
    else
      var last, before := ps[|ps| - 1].offset, ps[|ps| - 2].offset;
      GapCount(ps[..|ps| - 1]) + (if before != 0 && last != before + 1 then 1 else 0)
  }

  lemma CountOneMore(test: Poll -> bool, ps: seq<Poll>, p: Poll)
    ensures CountOf(test, ps + [p]) == CountOf(test, ps) + (if test(p) then 1 else 0)
  {
    assert (ps + [p])[..|ps|] == ps;
  }

  lemma GapOneMore(ps: seq<Poll>, p: Poll)
    ensures var before := if ps == [] then 0 else ps[|ps| - 1].offset;
            GapCount(ps + [p]) == GapCount(ps) + (if before != 0 && p.offset != before + 1 then 1 else 0)
  {
    assert (ps + [p])[..|ps|] == ps;
  }

  ghost predicate CountsRight(c: Counts, h: PF.Polls, ps: seq<Poll>) {
    && c.received == PollCount(h, PF.PollStatus.Message)
    && c.endsOfPartition == PollCount(h, PF.PollStatus.EndOfPartition)
    && c.timeouts == PollCount(h, PF.PollStatus.TimedOut)
    && c.kafkaErrors == PollCount(h, PF.PollStatus.Error)
    && c.flatbufferErrors == CountOf(Unreadable(), ps)
    && c.tooSmall == CountOf(UnreadableFor(BufferTooSmall), ps)
    && c.badTimestamps == CountOf(UnreadableFor(InvalidTimestamp), ps)
    && c.unknownIds == CountOf(UnreadableFor(UnknownId), ps)
    && c.notValid == CountOf(UnreadableFor(NotValid), ps)
    && c.badOffsets == GapCount(ps)
  }

  lemma MessageCounted(ps: seq<Poll>, p: Poll)
    ensures CountOf(Unreadable(), ps + [p]) == CountOf(Unreadable(), ps) + (if p.payload.Undecodable? then 1 else 0)
    ensures forall e :: CountOf(UnreadableFor(e), ps + [p])
                        == CountOf(UnreadableFor(e), ps) + (if p.payload == Undecodable(e) then 1 else 0)
  {
    CountOneMore(Unreadable(), ps, p);
    forall e ensures CountOf(UnreadableFor(e), ps + [p])
                     == CountOf(UnreadableFor(e), ps) + (if p.payload == Undecodable(e) then 1 else 0)
    {
      CountOneMore(UnreadableFor(e), ps, p);
    }
  }

  function IfTrue(b: bool): nat { if b then 1 else 0 }

  /** What a message does to the counters, in terms of the state before it. */
  lemma MessageTurn(v: PartitionView, t: Turn)
    requires t.PollTurn? && !t.paused && !v.forceStop && t.poll.status == PF.PollStatus.Message
    ensures var c, d, m := v.counts, Turned(v, t).counts, t.poll.payload;
            && d.received == c.received + 1 && Turned(v, t).offset == t.poll.offset
            && d.endsOfPartition == c.endsOfPartition && d.timeouts == c.timeouts && d.kafkaErrors == c.kafkaErrors
            && d.badOffsets == c.badOffsets + IfTrue(v.offset != 0 && t.poll.offset != v.offset + 1)
            && d.flatbufferErrors == c.flatbufferErrors + IfTrue(m.Undecodable?)
            && d.tooSmall == c.tooSmall + IfTrue(m == Undecodable(BufferTooSmall))
            && d.badTimestamps == c.badTimestamps + IfTrue(m == Undecodable(InvalidTimestamp))
            && d.unknownIds == c.unknownIds + IfTrue(m == Undecodable(UnknownId))
            && d.notValid == c.notValid + IfTrue(m == Undecodable(NotValid))
            && d.processed == c.processed + IfTrue(m.Decoded? && AnySends(v.filters, m.message))
  {
    var w := v.(polling := PF.AfterPoll(v.polling, t.poll.status, t.seen), counts := WithPoll(v.counts, t.poll.status));
    ProcessedCounts(w, t.poll);
    assert Turned(v, t).counts == Processed(w, t.poll).counts && Turned(v, t).offset == Processed(w, t.poll).offset;
  }

  lemma ProcessedCounts(w: PartitionView, poll: Poll)
    ensures var c, d, m := w.counts, Processed(w, poll).counts, poll.payload;
            && Processed(w, poll).offset == poll.offset
            && d == c.(badOffsets := c.badOffsets + IfTrue(w.offset != 0 && poll.offset != w.offset + 1),
                       flatbufferErrors := c.flatbufferErrors + IfTrue(m.Undecodable?),
                       tooSmall := c.tooSmall + IfTrue(m == Undecodable(BufferTooSmall)),
                       badTimestamps := c.badTimestamps + IfTrue(m == Undecodable(InvalidTimestamp)),
                       unknownIds := c.unknownIds + IfTrue(m == Undecodable(UnknownId)),
                       notValid := c.notValid + IfTrue(m == Undecodable(NotValid)),
                       processed := c.processed + IfTrue(m.Decoded? && AnySends(w.filters, m.message)))
  {
  }

  /** Any other turn counts at most its poll. */
  lemma OtherTurn(v: PartitionView, t: Turn)
    requires !(t.PollTurn? && !t.paused && !v.forceStop && t.poll.status == PF.PollStatus.Message)
    ensures var c, d := v.counts, Turned(v, t).counts;
            var asks := t.PollTurn? && !t.paused && !v.forceStop;
            && Turned(v, t).offset == v.offset
            && d == c.(endsOfPartition := c.endsOfPartition + IfTrue(asks && t.poll.status == PF.PollStatus.EndOfPartition),
                       timeouts := c.timeouts + IfTrue(asks && t.poll.status == PF.PollStatus.TimedOut),
                       kafkaErrors := c.kafkaErrors + IfTrue(asks && t.poll.status == PF.PollStatus.Error))
  {
  }

  /** Over any run the counters are the polls of each kind, the unreadable messages of each kind and the
      gaps in the offsets, and the offset noted is that of the last message. */
  lemma {:induction false} CountersOfRun(v: PartitionView, ts: Turns, stop: int, limit: int)
    requires v.polling == PF.StateOf(PF.Begin(stop), v.leeway, limit) && v.stop == v.polling.stop && !v.forceStop
    requires v.offset == 0 && v.counts == NoCounts()
    ensures CountsRight(ViewAfter(v, ts).counts, PollsOf(ts, stop), MessagePolls(ts))
    ensures var ps := MessagePolls(ts);
            ViewAfter(v, ts).offset == if ps == [] then 0 else ps[|ps| - 1].offset
  {
    if ts.Next? {
      var p, t := ts.prior, ts.turn;
      CountersOfRun(v, p, stop, limit);
      PollingFollows(v, p, stop, limit);
      var u := ViewAfter(v, p);
      if TakesMessage(p, t) {
        MessageTurn(u, t);
        MessageCountsRight(u, t, PollsOf(p, stop), MessagePolls(p));
      } else {
        OtherTurn(u, t);
        assert MessagePolls(p) + [] == MessagePolls(p);
      }
    }
  }

  lemma MessageCountsRight(u: PartitionView, t: Turn, h: PF.Polls, ps: seq<Poll>)
    requires t.PollTurn? && !t.paused && !u.forceStop && t.poll.status == PF.PollStatus.Message
    requires CountsRight(u.counts, h, ps) && u.offset == if ps == [] then 0 else ps[|ps| - 1].offset
    ensures CountsRight(Turned(u, t).counts, PF.Polled(h, t.poll.status, t.seen, t.now), ps + [t.poll])
  {
    MessageTurn(u, t);
    MessageCounted(ps, t.poll);
    GapOneMore(ps, t.poll);
  }

  // ---- The processed messages ----

  /** Some source's window takes the message. */
  ghost predicate InSomeWindow(sources: seq<Source>, start: int, stop: int, h: History, m: Message) {
    exists k :: 0 <= k < |sources| && EntersWindow(FilterOf(sources, k, start, stop), h, m)
  }

  ghost predicate EntersWindow(f: Filter, h: History, m: Message) {
    LogOf(f, Then(h, Arrive(m))) == Entry(LogOf(f, h), m, Inside)
  }

  lemma SendsIffInWindow(f: Filter, h: History, m: Message, ds: seq<nat>)
    requires IsNew(f)
    ensures SendsItself(m)(Shared(StateAfter(f, h), ds)) <==> EntersWindow(f, h, m)
  {
    RefinesHistory(f, h);
    StepMatches(f, StateAfter(f, h), LogOf(f, h), m);
    if EntersWindow(f, h, m) {
      var out := Step(StateAfter(f, h), m).1;
      assert out != [] && out[|out| - 1] == Forward(m, false);
      assert Forward(m, false) in out;
    }
  }

  /** A filter that has gone sent nothing more, so asking those left is asking all. */
  lemma {:induction false} AnySendsIff(fs: seq<Shared>, h: History, m: Message)
    ensures AnySends(FlatMap(Surviving(h), fs), m) <==> SomeSends(fs, h, m)
  {
    if fs != [] {
      var init, x := fs[..|fs| - 1], fs[|fs| - 1];
      AnySendsIff(init, h, m);
      AnySendsConcat(FlatMap(Surviving(h), init), Surviving(h)(x), m);
      OneSends(x, h, m);
      SomeSendsOneMore(fs, h, m);
    }
  }

  ghost predicate SomeSends(fs: seq<Shared>, h: History, m: Message) {
    exists i :: 0 <= i < |fs| && SendsAfter(fs[i], h, m)
  }

  ghost predicate SendsAfter(x: Shared, h: History, m: Message) {
    SendsItself(m)(Shared(StateAfter(x.state, h), x.destinations))
  }

  lemma OneSends(x: Shared, h: History, m: Message)
    ensures AnySends(Surviving(h)(x), m) <==> SendsAfter(x, h, m)
  {
    var left := Surviving(h)(x);
    if left != [] { assert left[0] == Shared(StateAfter(x.state, h), x.destinations); }
  }

  lemma SomeSendsOneMore(fs: seq<Shared>, h: History, m: Message)
    requires fs != []
    ensures SomeSends(fs, h, m) <==> SomeSends(fs[..|fs| - 1], h, m) || SendsAfter(fs[|fs| - 1], h, m)
  {
    var init := fs[..|fs| - 1];
    assert forall i :: 0 <= i < |init| ==> init[i] == fs[i];
  }

  lemma AnySendsConcat(a: seq<Shared>, b: seq<Shared>, m: Message)
    ensures AnySends(a + b, m) <==> AnySends(a, m) || AnySends(b, m)
  {
    if AnySends(a, m) {
      var i :| 0 <= i < |a| && SendsItself(m)(a[i]);
      assert (a + b)[i] == a[i];
    }
    if AnySends(b, m) {
      var i :| 0 <= i < |b| && SendsItself(m)(b[i]);
      assert (a + b)[|a| + i] == b[i];
    }
  }

  lemma AnySendsInWindow(sources: seq<Source>, hashes: seq<nat>, start: int, stop: int, h: History, m: Message)
    requires Enumerates(hashes, sources)
    ensures AnySends(FiltersAfter(Groups(sources, hashes, start, stop), h), m) <==> InSomeWindow(sources, start, stop, h, m)
  {
    var fs := Groups(sources, hashes, start, stop);
    FiltersLeft(fs, h);
    AnySendsIff(fs, h, m);
    forall i | 0 <= i < |fs| && SendsAfter(fs[i], h, m)
      ensures InSomeWindow(sources, start, stop, h, m)
    {
      assert HasHash(sources, hashes[i]);
      var k :| 0 <= k < |sources| && sources[k].writeHash == hashes[i];
      assert fs[i].state == FilterOf(sources, k, start, stop);
      SendsIffInWindow(FilterOf(sources, k, start, stop), h, m, fs[i].destinations);
    }
    forall k | 0 <= k < |sources| && EntersWindow(FilterOf(sources, k, start, stop), h, m)
      ensures AnySends(FlatMap(Surviving(h), fs), m)
    {
      assert HasHash(sources, sources[k].writeHash);
      var i :| 0 <= i < |hashes| && hashes[i] == sources[k].writeHash;
      assert fs[i].state == FilterOf(sources, k, start, stop);
      SendsIffInWindow(FilterOf(sources, k, start, stop), h, m, fs[i].destinations);
      assert SendsAfter(fs[i], h, m);
    }
  }

  ghost function WindowCount(sources: seq<Source>, start: int, stop: int, leeway: int, ts: Turns): nat {
    match ts
    case NoTurns => 0
    case Next(p, t) =>
      WindowCount(sources, start, stop, leeway, p)
      + IfTrue(TakesMessage(p, t) && t.poll.payload.Decoded?
               && InSomeWindow(sources, start, stop, Taken(p, leeway), t.poll.payload.message))
  }

  /** Over any run the processed messages are those that came into the window of some source. */
  lemma {:induction false} ProcessedInWindow(sources: seq<Source>, hashes: seq<nat>, start: int, stop: int, limit: int,
                                             v: PartitionView, ts: Turns)
    requires IsNewPartition(v, sources, hashes, start, stop, limit)
    ensures ViewAfter(v, ts).counts.processed == WindowCount(sources, start, stop, v.leeway, ts)
  {
    if ts.Next? {
      var p, t := ts.prior, ts.turn;
      ProcessedInWindow(sources, hashes, start, stop, limit, v, p);
      PollingFollows(v, p, stop, limit);
      var u := ViewAfter(v, p);
      if TakesMessage(p, t) {
        MessageTurn(u, t);
        RunIsHistory(v, p);
        HistoryIsTaken(v, p, stop, limit);
        if t.poll.payload.Decoded? {
          AnySendsInWindow(sources, hashes, start, stop, Taken(p, v.leeway), t.poll.payload.message);
        }
      } else {
        OtherTurn(u, t);
      }
    }
  }
}
