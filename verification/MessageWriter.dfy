/** The writer thread, its queue, its counters and its flush times (src/Stream/MessageWriter.cpp). */
module MessageWriters {
  import opened MachineInts
  import opened Shapes

  /** How a job ends when it is run. A message job ends in a write, in an exception of the writer module or
      in another exception; `valid` and `hash` describe its message. Other jobs are plain functions. */
  datatype Job = Write(id: nat, outcome: Outcome) | Plain(id: nat)

  datatype Outcome = Done | WriterError(valid: bool, hash: nat) | OtherError

  const UNKNOWN_HASH: nat := 0

  datatype Counters = Counters(done: nat, errors: nat, perSource: map<nat, nat>)

  function NewCounters(): Counters { Counters(0, 0, map[UNKNOWN_HASH := 0]) }

  function Key(o: Outcome): nat
    requires o.WriterError?
  {
    if o.valid then o.hash else UNKNOWN_HASH
  }

  function Incremented(m: map<nat, nat>, k: nat): map<nat, nat> {
    m[k := (if k in m then m[k] else 0) + 1]
  }

  /** The counters after a job has been run. */
  function Counted(c: Counters, j: Job): Counters {
    match j
    case Plain(_) => c
    case Write(_, Done) => c.(done := c.done + 1)
    case Write(_, OtherError) => c.(errors := c.errors + 1)
    case Write(_, WriterError(valid, hash)) =>
      c.(errors := c.errors + 1, perSource := Incremented(c.perSource, Key(j.outcome)))
  }

  // ---- Flush times ----

  /** The next flush time: the number of periods passes through an `int`. */
  function NextFlush(next: int, now: int, interval: int): int
    requires interval >= 1 && now >= next
  {
    next + ToInt32(ToInt32((now - next) / interval) + 1) * interval
  }

  /** The first point of the grid `next + k * interval` that lies after now. */
  ghost predicate FirstAfter(r: int, next: int, now: int, interval: int) {
    && now < r <= now + interval
    && exists k: int :: r == next + k * interval
  }

  lemma FirstAfterIs(next: int, now: int, interval: int, k: int)
    requires interval >= 1 && now >= next
    ensures now < next + k * interval <= now + interval <==> k == (now - next) / interval + 1
  {
    var q := (now - next) / interval;
    DivModRecombine(now - next, interval);
    assert (q + 1) * interval == q * interval + interval;
    if k > q + 1 {
      MulMonotone(q + 2, k, interval);
      assert (q + 2) * interval == (q + 1) * interval + interval;
    } else if k < q + 1 && k >= 0 {
      MulMonotone(k, q, interval);
    } else if k < 0 {
      assert k * interval <= 0;
    }
  }

  /** After a flush the next flush time is the first grid point after now exactly when the number of
      elapsed periods fits the `int`. */
  lemma NextFlushIff(next: int, now: int, interval: int)
    requires interval >= 1 && now >= next
    ensures FirstAfter(NextFlush(next, now, interval), next, now, interval)
            <==> (now - next) / interval < TWO_31 - 1
  {
    var q := (now - next) / interval;
    var periods := ToInt32(ToInt32(q) + 1);
    FirstAfterIs(next, now, interval, periods);
    QuotientNonNegative(now - next, interval);
    assert periods == q + 1 <==> q < TWO_31 - 1;
    assert NextFlush(next, now, interval) == next + periods * interval;
  }

  lemma QuotientNonNegative(a: nat, d: int)
    requires d >= 1
    ensures a / d >= 0
  {
  }

  /** The next flush time after the flush operation was called at these clock readings. */
  function FlushAfter(first: int, nows: seq<int>, interval: int): int
    requires interval >= 1
  {
    if nows == [] then first
    else
      var next, now := FlushAfter(first, nows[..|nows| - 1], interval), nows[|nows| - 1];
      if now < next then next else NextFlush(next, now, interval)
  }

  ghost predicate OnGrid(t: int, first: int, interval: int) {
    exists k: int :: t == first + k * interval
  }

  lemma GridStep(next: int, first: int, interval: int, k: int)
    requires OnGrid(next, first, interval)
    ensures OnGrid(next + k * interval, first, interval)
  {
    var j: int :| next == first + j * interval;
    assert next + k * interval == first + (j + k) * interval;
  }

  /** Whatever the clock does and however long it takes, all flush times lie on the grid of the first. */
  lemma {:induction false} FlushesStayOnGrid(first: int, nows: seq<int>, interval: int)
    requires interval >= 1
    ensures OnGrid(FlushAfter(first, nows, interval), first, interval)
  {
    if nows == [] {
      assert first == first + 0 * interval;
    } else {
      var init, now := nows[..|nows| - 1], nows[|nows| - 1];
      FlushesStayOnGrid(first, init, interval);
      var next := FlushAfter(first, init, interval);
      if now >= next { GridStep(next, first, interval, ToInt32(ToInt32((now - next) / interval) + 1)); }
    }
  }

  /** The next flush is the first grid point after now; before the first one is due, it is that one. */
  ghost predicate RightNext(next: int, first: int, now: int, interval: int) {
    if now < first then next == first else FirstAfter(next, first, now, interval)
  }

  ghost predicate AlwaysRightNext(first: int, nows: seq<int>, interval: int)
    requires interval >= 1
  {
    nows != [] ==>
      && RightNext(FlushAfter(first, nows, interval), first, nows[|nows| - 1], interval)
      && AlwaysRightNext(first, nows[..|nows| - 1], interval)
  }

  /** No flush comes so late that the number of elapsed periods does not fit the `int`. */
  ghost predicate NeverTooLate(first: int, nows: seq<int>, interval: int)
    requires interval >= 1
  {
    nows != [] ==>
      var init, now := nows[..|nows| - 1], nows[|nows| - 1];
      var next := FlushAfter(first, init, interval);
      NeverTooLate(first, init, interval) && (now >= next ==> (now - next) / interval < TWO_31 - 1)
  }

  predicate Monotone(nows: seq<int>) {
    forall i :: 0 < i < |nows| ==> nows[i - 1] <= nows[i]
  }

  lemma RightNextStep(next: int, first: int, was: int, now: int, interval: int)
    requires interval >= 1 && was <= now && RightNext(next, first, was, interval) && OnGrid(next, first, interval)
    ensures now < next ==> RightNext(next, first, now, interval)
    ensures now >= next ==> now >= first
    ensures now >= next ==>
              (RightNext(NextFlush(next, now, interval), first, now, interval) <==> (now - next) / interval < TWO_31 - 1)
  {
    if now >= next {
      NextFlushIff(next, now, interval);
      var periods := ToInt32(ToInt32((now - next) / interval) + 1);
      GridStep(next, first, interval, periods);
      assert OnGrid(NextFlush(next, now, interval), next, interval) by {
        assert NextFlush(next, now, interval) == next + periods * interval;
      }
    }
  }

  /** Under a clock that does not go back, the next flush is at all times the first point after now of the
      grid that the first flush time began, exactly when no flush comes too late for the `int`. */
  lemma {:induction false} FlushTimesRightIff(first: int, nows: seq<int>, interval: int)
    requires interval >= 1 && Monotone(nows)
    ensures AlwaysRightNext(first, nows, interval) <==> NeverTooLate(first, nows, interval)
  {
    if nows != [] {
      var init, now := nows[..|nows| - 1], nows[|nows| - 1];
      FlushTimesRightIff(first, init, interval);
      FlushesStayOnGrid(first, init, interval);
      var next := FlushAfter(first, init, interval);
      if AlwaysRightNext(first, init, interval) {
        // Before any reading the clock stands anywhere before the first flush time.
        var was := if init == [] then (if now < first then now else first - 1) else init[|init| - 1];
        RightNextStep(next, first, was, now, interval);
      }
    }
  }

  // ---- The writer ----

  class MessageWriter {
    var counters: Counters
    var nextFlush: int
    var flushes: nat
    const interval: int

    constructor (interval: int, now: int)
      ensures counters == NewCounters() && nextFlush == now + interval && flushes == 0 && this.interval == interval
    {
      counters, nextFlush, flushes, this.interval := NewCounters(), now + interval, 0, interval;
    }

    /** Writing one message; the outcome is what the writer module did. */
    method WriteMsgImpl(j: Job)
      requires j.Write?
      modifies this`counters
      ensures counters == Counted(old(counters), j)
    {
      match j.outcome
      case Done =>
        counters := counters.(done := counters.done + 1);
      case WriterError(valid, hash) =>
        counters := counters.(errors := counters.errors + 1);
        var used := UNKNOWN_HASH;
        if valid {
          used := hash;
          if used !in counters.perSource {
            counters := counters.(perSource := counters.perSource[used := 0]);
          }
        }
        var n := if used in counters.perSource then counters.perSource[used] else 0;
        counters := counters.(perSource := counters.perSource[used := n + 1]);
      case OtherError =>
        counters := counters.(errors := counters.errors + 1);
    }

    method FlushOperation(now: int)
      requires interval >= 1
      modifies this`nextFlush, this`flushes
      ensures if now < old(nextFlush) then nextFlush == old(nextFlush) && flushes == old(flushes)
              else flushes == old(flushes) + 1 && nextFlush == NextFlush(old(nextFlush), now, interval)
      ensures now >= old(nextFlush) && (now - old(nextFlush)) / interval < TWO_31 - 1 ==>
                FirstAfter(nextFlush, old(nextFlush), now, interval)
    {
      if now >= nextFlush {
        NextFlushIff(nextFlush, now, interval);
        flushes := flushes + 1;
        var periods := ToInt32(ToInt32((now - nextFlush) / interval) + 1);
        nextFlush := nextFlush + periods * interval;
      }
    }
  }

  // ---- The writer thread against all other threads ----

  const MAX_TIME_CHECK_COUNTER: nat := 200

  /** Where the thread is. In a `final` drain the loop has been left. */
  datatype Pc =
    | LoopTest
    | Dequeue(final: bool)
    | RunJob(final: bool, job: Job)
    | DrainFlush(final: bool)
    | Flush
    | Recheck
    | Exited

  /** The last three fields only record: all jobs ever queued, those queued before stop(), and how many jobs
      were run since the last flush operation. */
  datatype Threads = Threads(
    pc: Pc, queue: seq<Job>, keepRunning: bool, checkCounter: nat, counters: Counters, executed: seq<Job>,
    queued: multiset<Job>, beforeStop: Option<multiset<Job>>, sinceFlush: nat)

  function InitialThreads(): Threads {
    Threads(LoopTest, [], true, 0, NewCounters(), [], multiset{}, None, 0)
  }

  /** One step of some thread. The queue hands jobs of different producers over in any order, so which one
      comes next is open. */
  datatype Step = Enqueue(job: Job) | Stop | Work(pick: nat)

  function Do(s: Threads, step: Step): Threads {
    match step
    case Enqueue(j) => s.(queue := s.queue + [j], queued := s.queued + multiset{j})
    case Stop => s.(keepRunning := false, beforeStop := if s.beforeStop.None? then Some(s.queued) else s.beforeStop)
    case Work(pick) => Worked(s, pick)
  }

  function Worked(s: Threads, pick: nat): Threads {
    match s.pc
    case LoopTest => s.(pc := Dequeue(!s.keepRunning), checkCounter := 0)
    case Dequeue(final) =>
      if s.queue == [] then s.(pc := if final then Exited else Flush)
      else
        var k := pick % |s.queue|;
        s.(pc := RunJob(final, s.queue[k]), queue := s.queue[..k] + s.queue[k + 1..])
    case RunJob(final, j) =>
      s.(pc := if s.checkCounter + 1 > MAX_TIME_CHECK_COUNTER then DrainFlush(final) else Dequeue(final),
         checkCounter := s.checkCounter + 1, counters := Counted(s.counters, j), executed := s.executed + [j], sinceFlush := s.sinceFlush + 1)
    case DrainFlush(final) => s.(pc := Dequeue(final), checkCounter := 0, sinceFlush := 0)
    case Flush => s.(pc := Recheck, sinceFlush := 0)
    case Recheck => if s.keepRunning then s.(pc := LoopTest) else s.(pc := Dequeue(true), checkCounter := 0)
    case Exited => s
  }

  function After(s: Threads, steps: seq<Step>): Threads
    decreases |steps|
  {
    if steps == [] then s else After(Do(s, steps[0]), steps[1..])
  }

  function InHand(s: Threads): multiset<Job> {
    if s.pc.RunJob? then multiset{s.pc.job} else multiset{}
  }

  predicate InFinalDrain(pc: Pc) {
    (pc.Dequeue? || pc.RunJob? || pc.DrainFlush?) && pc.final
  }

  /** All jobs in the queue, in hand or executed. */
  function AllJobs(s: Threads): multiset<Job> {
    multiset(s.queue) + InHand(s) + multiset(s.executed)
  }

  /** The loop is only left after stop(). */
  ghost predicate Orderly(s: Threads) {
    && (s.keepRunning <==> s.beforeStop.None?)
    && (InFinalDrain(s.pc) || s.pc == Exited ==> !s.keepRunning)
  }

  /** The jobs from before stop() were queued, and have been executed once the thread has exited. */
  ghost predicate Served(s: Threads) {
    s.beforeStop.Some? ==>
      s.beforeStop.value <= s.queued && (s.pc == Exited ==> s.beforeStop.value <= multiset(s.executed))
  }

  /** Every job is queued, in hand or executed, exactly as often as it was queued. */
  ghost predicate Conserved(s: Threads) {
    s.queued == AllJobs(s) && Orderly(s) && Served(s)
  }

  lemma TakeOne(q: seq<Job>, k: nat)
    requires k < |q|
    ensures multiset(q) == multiset(q[..k] + q[k + 1..]) + multiset{q[k]}
  {
    assert q == q[..k] + [q[k]] + q[k + 1..];
  }

  lemma DequeueKeepsJobs(s: Threads, pick: nat)
    requires s.pc.Dequeue? && s.queue != []
    ensures AllJobs(Worked(s, pick)) == AllJobs(s)
  {
    var k := pick % |s.queue|;
    TakeOne(s.queue, k);
    assert Worked(s, pick).executed == s.executed && InHand(Worked(s, pick)) == multiset{s.queue[k]};
  }

  lemma RunKeepsJobs(s: Threads, pick: nat)
    requires s.pc.RunJob?
    ensures AllJobs(Worked(s, pick)) == AllJobs(s)
  {
    assert multiset(s.executed + [s.pc.job]) == multiset(s.executed) + multiset{s.pc.job};
  }

  lemma OtherWorkKeepsJobs(s: Threads, pick: nat)
    requires !s.pc.RunJob? && (s.pc.Dequeue? ==> s.queue == [])
    ensures Worked(s, pick).queue == s.queue && Worked(s, pick).executed == s.executed && !Worked(s, pick).pc.RunJob?
    ensures AllJobs(Worked(s, pick)) == AllJobs(s)
  {
  }

  lemma WorkKeepsJobs(s: Threads, pick: nat)
    ensures AllJobs(Worked(s, pick)) == AllJobs(s) && Worked(s, pick).queued == s.queued
    ensures Worked(s, pick).beforeStop == s.beforeStop && Worked(s, pick).keepRunning == s.keepRunning
  {
    if s.pc.Dequeue? && s.queue != [] {
      DequeueKeepsJobs(s, pick);
    } else if s.pc.RunJob? {
      RunKeepsJobs(s, pick);
    } else {
      OtherWorkKeepsJobs(s, pick);
    }
  }

  lemma WorkIsOrderly(s: Threads, pick: nat)
    requires Orderly(s)
    ensures Orderly(Worked(s, pick))
    ensures Worked(s, pick).pc == Exited ==>
              s.pc == Exited || (s.pc == Dequeue(true) && s.queue == [] && Worked(s, pick).executed == s.executed)
    ensures s.pc == Exited ==> Worked(s, pick) == s
  {
  }

  lemma WorkConserves(s: Threads, pick: nat)
    requires Conserved(s)
    ensures Conserved(Worked(s, pick))
  {
    WorkKeepsJobs(s, pick);
    WorkIsOrderly(s, pick);
    var t := Worked(s, pick);
    if t.pc == Exited && s.pc != Exited {
      assert s.queued == multiset(s.executed);
    }
  }

  lemma StepConserves(s: Threads, step: Step)
    requires Conserved(s)
    ensures Conserved(Do(s, step))
  {
    match step
    case Enqueue(j) => assert multiset(s.queue + [j]) == multiset(s.queue) + multiset{j};
    case Stop =>
    case Work(pick) => WorkConserves(s, pick);
  }

  /** Under every interleaving no job is lost or run twice, and when the thread has exited every job that
      was queued before stop() has been run. */
  lemma {:induction false} EveryJobRunOnce(s: Threads, steps: seq<Step>)
    requires Conserved(s)
    ensures Conserved(InitialThreads())
    ensures var t := After(s, steps);
            && Conserved(t) && multiset(t.executed) <= t.queued
            && (t.pc == Exited ==> t.beforeStop.Some? && t.beforeStop.value <= multiset(t.executed))
    decreases |steps|
  {
    if steps != [] {
      StepConserves(s, steps[0]);
      EveryJobRunOnce(Do(s, steps[0]), steps[1..]);
    }
  }

  // ---- The flush operation is called often enough ----

  ghost predicate FlushedOften(s: Threads) {
    match s.pc
    case Dequeue(_) => s.sinceFlush == s.checkCounter <= 200
    case RunJob(_, _) => s.sinceFlush == s.checkCounter <= 200
    case DrainFlush(_) => s.sinceFlush == s.checkCounter == 201
    case LoopTest => s.sinceFlush == 0
    case Recheck => s.sinceFlush == 0
    case Flush => s.sinceFlush <= 200
    case Exited => s.sinceFlush <= 200
  }

  lemma WorkKeepsFlushing(s: Threads, pick: nat)
    requires FlushedOften(s)
    ensures FlushedOften(Worked(s, pick))
  {
  }

  /** Under every interleaving at most 201 jobs are run between two calls of the flush operation, and a call
      follows as soon as there were as many. */
  lemma {:induction false} FlushOperationInTime(s: Threads, steps: seq<Step>)
    requires FlushedOften(s)
    ensures FlushedOften(InitialThreads())
    ensures FlushedOften(After(s, steps)) && After(s, steps).sinceFlush <= 201
    decreases |steps|
  {
    if steps != [] {
      if steps[0].Work? { WorkKeepsFlushing(s, steps[0].pick); }
      FlushOperationInTime(Do(s, steps[0]), steps[1..]);
    }
  }

  // ---- The thread exits ----

  /** Steps of the writer thread that can still be needed once stop() has been called: up to three for
      each job in the queue, and those of the loop that it is in. */
  function Distance(s: Threads): nat {
    var jobs := 3 * |s.queue|;
    match s.pc
    case Exited => 0
    case Dequeue(final) => jobs + (if final then 1 else 4)
    case DrainFlush(final) => jobs + (if final then 2 else 5)
    case RunJob(final, _) => jobs + (if final then 3 else 6)
    case LoopTest => jobs + 2
    case Recheck => jobs + 2
    case Flush => jobs + 3
  }

  function WriterSteps(steps: seq<Step>): nat {
    if steps == [] then 0 else (if steps[0].Work? then 1 else 0) + WriterSteps(steps[1..])
  }

  function JobsQueued(steps: seq<Step>): nat {
    if steps == [] then 0 else (if steps[0].Enqueue? then 1 else 0) + JobsQueued(steps[1..])
  }

  lemma WorkGetsCloser(s: Threads, pick: nat)
    requires !s.keepRunning && s.pc != Exited
    ensures !Worked(s, pick).keepRunning && Distance(Worked(s, pick)) < Distance(s)
  {
  }

  lemma OtherStepsAddJobs(s: Threads, step: Step)
    requires !s.keepRunning && !step.Work?
    ensures !Do(s, step).keepRunning && Do(s, step).pc == s.pc
    ensures Distance(Do(s, step)) <= Distance(s) + (if step.Enqueue? then 3 else 0)
  {
  }

  lemma {:induction false} ExitIsFinal(s: Threads, steps: seq<Step>)
    requires s.pc == Exited
    ensures After(s, steps).pc == Exited
    decreases |steps|
  {
    if steps != [] { ExitIsFinal(Do(s, steps[0]), steps[1..]); }
  }

  /** After stop() the thread exits under every interleaving, once it has made three steps for each job
      queued then or later and six more; jobs that keep coming are the only thing that holds it up. */
  lemma {:induction false} StopLeadsToExit(s: Threads, steps: seq<Step>)
    requires !s.keepRunning && WriterSteps(steps) >= Distance(s) + 3 * JobsQueued(steps)
    ensures After(s, steps).pc == Exited
    ensures Distance(s) <= 3 * |s.queue| + 6
    decreases |steps|
  {
    if s.pc == Exited {
      ExitIsFinal(s, steps);
    } else if steps != [] {
      if steps[0].Work? { WorkGetsCloser(s, steps[0].pick); } else { OtherStepsAddJobs(s, steps[0]); }
      StopLeadsToExit(Do(s, steps[0]), steps[1..]);
    }
  }

  /** stop() in any state that a run can be in, followed by enough steps of the thread among any others:
      the thread has exited and everything queued before stop() was run. */
  lemma StopServesAll(r: Threads, after: seq<Step>)
    requires Conserved(r) && r.keepRunning
    requires WriterSteps(after) >= 3 * (|r.queue| + JobsQueued(after)) + 6
    ensures var t := After(Do(r, Stop), after);
            && t.pc == Exited && t.beforeStop == Some(r.queued) && r.queued <= multiset(t.executed)
  {
    var s := Do(r, Stop);
    StepConserves(r, Stop);
    EveryJobRunOnce(s, after);
    StopLeadsToExit(s, after);
    BeforeStopStays(s, after);
  }

  lemma {:induction false} BeforeStopStays(s: Threads, steps: seq<Step>)
    requires s.beforeStop.Some?
    ensures After(s, steps).beforeStop == s.beforeStop
    decreases |steps|
  {
    if steps != [] {
      if steps[0].Work? { WorkKeepsJobs(s, steps[0].pick); }
      BeforeStopStays(Do(s, steps[0]), steps[1..]);
    }
  }

  // ---- Counters against the list of executed jobs ----

  function Count(p: Job -> bool, jobs: seq<Job>): nat {
    if jobs == [] then 0 else Count(p, jobs[..|jobs| - 1]) + (if p(jobs[|jobs| - 1]) then 1 else 0)
  }

  lemma CountOneMore(p: Job -> bool, jobs: seq<Job>, j: Job)
    ensures Count(p, jobs + [j]) == Count(p, jobs) + (if p(j) then 1 else 0)
  {
    assert (jobs + [j])[..|jobs|] == jobs;
  }

  function IsWrite(): Job -> bool { (j: Job) => j.Write? }
  function WroteDone(): Job -> bool { (j: Job) => j.Write? && j.outcome.Done? }
  function FailedInWriter(): Job -> bool { (j: Job) => j.Write? && j.outcome.WriterError? }

  /** A writer exception over a message of this source; unreadable messages share the hash 0. */
  function FailedFor(k: nat): Job -> bool {
    (j: Job) => j.Write? && j.outcome.WriterError? && (if j.outcome.valid then j.outcome.hash == k else k == 0)
  }

  ghost function Sum(m: map<nat, nat>): nat
    decreases |m|
  {
    if m == map[] then 0 else var k :| k in m; m[k] + Sum(m - {k})
  }

  lemma {:induction false} SumWithout(m: map<nat, nat>, k: nat)
    requires k in m
    ensures Sum(m) == m[k] + Sum(m - {k})
    decreases |m|
  {
    var j :| j in m && Sum(m) == m[j] + Sum(m - {j});
    if j != k {
      SumWithout(m - {j}, k);
      SumWithout(m - {k}, j);
      assert m - {j} - {k} == m - {k} - {j};
    }
  }

  lemma SumIncremented(m: map<nat, nat>, k: nat)
    ensures Sum(Incremented(m, k)) == Sum(m) + 1
  {
    var m' := Incremented(m, k);
    SumWithout(m', k);
    assert m' - {k} == m - {k};
    if k in m { SumWithout(m, k); } else { assert m - {k} == m; }
  }

  /** The counters say what the list of executed jobs says. */
  ghost predicate Agrees(c: Counters, jobs: seq<Job>) {
    && c.done == Count(WroteDone(), jobs)
    && c.done + c.errors == Count(IsWrite(), jobs)
    && (forall k :: Count(FailedFor(k), jobs) == if k in c.perSource then c.perSource[k] else 0)
    && Sum(c.perSource) == Count(FailedInWriter(), jobs)
  }

  lemma CountedAgrees(c: Counters, jobs: seq<Job>, j: Job)
    requires Agrees(c, jobs)
    ensures Agrees(Counted(c, j), jobs + [j])
  {
    CountOneMore(WroteDone(), jobs, j);
    CountOneMore(IsWrite(), jobs, j);
    CountOneMore(FailedInWriter(), jobs, j);
    forall k ensures Count(FailedFor(k), jobs + [j]) == Count(FailedFor(k), jobs) + (if FailedFor(k)(j) then 1 else 0) {
      CountOneMore(FailedFor(k), jobs, j);
    }
    if j.Write? && j.outcome.WriterError? { SumIncremented(c.perSource, Key(j.outcome)); }
  }

  lemma StepAgrees(s: Threads, step: Step)
    requires CountersRight(s)
    ensures CountersRight(Do(s, step))
  {
    if step.Work? && s.pc.RunJob? {
      CountedAgrees(s.counters, s.executed, s.pc.job);
      RunCounts(s, step.pick);
    } else {
      OtherStepCounts(s, step);
    }
  }

  lemma RunCounts(s: Threads, pick: nat)
    requires s.pc.RunJob?
    ensures Worked(s, pick).counters == Counted(s.counters, s.pc.job)
    ensures Worked(s, pick).executed == s.executed + [s.pc.job]
  {
  }

  lemma OtherStepCounts(s: Threads, step: Step)
    requires !(step.Work? && s.pc.RunJob?)
    ensures Do(s, step).counters == s.counters && Do(s, step).executed == s.executed
  {
  }

  ghost predicate CountersRight(s: Threads) { Agrees(s.counters, s.executed) }

  lemma {:induction false} CountersKeepAgreeing(s: Threads, steps: seq<Step>)
    requires CountersRight(s)
    ensures CountersRight(After(s, steps))
    decreases |steps|
  {
    if steps != [] {
      StepAgrees(s, steps[0]);
      CountersKeepAgreeing(Do(s, steps[0]), steps[1..]);
    }
  }

  lemma InitialAgrees()
    ensures CountersRight(InitialThreads())
  {
    var m := NewCounters().perSource;
    SumWithout(m, UNKNOWN_HASH);
    assert m - {UNKNOWN_HASH} == map[];
  }

  /** In every run writes done plus write errors is the number of message jobs run, and the per-source
      counters tell writer exceptions apart and add up to all of them. */
  lemma CountersAgree(steps: seq<Step>)
    ensures CountersRight(After(InitialThreads(), steps))
  {
    var s := InitialThreads();
    InitialAgrees();
    CountersKeepAgreeing(s, steps);
  }
}
