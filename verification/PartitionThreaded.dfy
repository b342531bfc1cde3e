/** The worker thread of a partition and the requests made to it from other threads
    (src/Stream/Partition.h), as a state machine over single atomic accesses. */
module PartitionThreads {
  import opened MachineInts

  /** Where the worker is. Each name is the access that it will make next. */
  datatype Pc =
    | LoopTest      // finished or exit
    | LoadStop      // immediate stop requested?
    | ForceStop     // tell the partition to stop
    | ClearStop     // reset the request
    | LoadTime      // new stop time requested?
    | ApplyTime     // load it again and hand it to the partition
    | ClearTime     // reset that request
    | PollEntry     // force-stop and pause tests of the poll
    | Polling       // inside the consumer
    | Left

  /** The flags shared between the threads and the partition state that the worker acts on.
      The last two fields only record: whether stop() was called, and how many consumer polls began
      since then. */
  datatype Threads = Threads(
    pc: Pc, stopRequested: bool, requestedTime: int, exit: bool,
    forceStop: bool, finished: bool, appliedTimes: seq<int>,
    asked: bool, pollsSince: nat)

  function Initial(): Threads {
    Threads(LoopTest, false, TIME_MAX, false, false, false, [], false, 0)
  }

  /** One atomic step of some thread. For the worker, whether streaming is paused and whether the
      consumer's answer ends the partition are up to the environment. */
  datatype Step =
    | RequestStop
    | RequestTime(time: int)
    | RequestExit
    | Worker(paused: bool, done: bool)

  function Do(s: Threads, step: Step): Threads {
    match step
    case RequestStop => s.(stopRequested := true, asked := true)
    case RequestTime(t) => s.(requestedTime := t)
    case RequestExit => s.(exit := true)
    case Worker(paused, done) => Work(s, paused, done)
  }

  function Work(s: Threads, paused: bool, done: bool): Threads {
    match s.pc
    case LoopTest => s.(pc := if s.finished || s.exit then Left else LoadStop)
    case LoadStop => s.(pc := if s.stopRequested then ForceStop else LoadTime)
    case ForceStop => s.(pc := ClearStop, forceStop := true)
    case ClearStop => s.(pc := LoadTime, stopRequested := false)
    case LoadTime => s.(pc := if s.requestedTime != TIME_MAX then ApplyTime else PollEntry)
    case ApplyTime => s.(pc := ClearTime, appliedTimes := s.appliedTimes + [s.requestedTime])
    case ClearTime => s.(pc := PollEntry, requestedTime := TIME_MAX)
    case PollEntry =>
      if s.forceStop then s.(pc := LoopTest, finished := true)
      else if paused then s.(pc := LoopTest)
      else s.(pc := Polling, pollsSince := if s.asked then s.pollsSince + 1 else 0)
    case Polling => s.(pc := LoopTest, finished := s.finished || done)
    case Left => s
  }

  /** An interleaving: steps in the order in which they happen. */
  function After(s: Threads, steps: seq<Step>): Threads
    decreases |steps|
  {
    if steps == [] then s else After(Do(s, steps[0]), steps[1..])
  }

  // ---- stop() is never lost ----

  predicate Invariant(s: Threads) {
    && (s.asked ==> s.stopRequested || s.forceStop)
    && (s.pc == ForceStop ==> s.stopRequested)
    && (s.pc == ClearStop ==> s.forceStop)
    && (s.forceStop ==> s.asked && s.pc != LoadStop && s.pc != ForceStop && s.pc != Polling)
    && (s.forceStop && s.pc == LoopTest ==> s.finished)
    && (s.stopRequested ==> s.asked)
    && (s.finished ==> s.pc == LoopTest || s.pc == Left)
    && (s.pc == Left ==> s.finished || s.exit)
    && s.pollsSince <= 1
    && (!s.asked ==> s.pollsSince == 0)
    && (s.asked && !s.forceStop && s.pc in {LoadTime, ApplyTime, ClearTime, PollEntry} ==> s.pollsSince == 0)
  }

  lemma StepKeepsInvariant(s: Threads, step: Step)
    requires Invariant(s)
    ensures Invariant(Do(s, step))
    ensures s.finished ==> Do(s, step).finished
    ensures s.pc == Left ==> Do(s, step).pc == Left
  {
  }

  /** Under every interleaving, once stop() is called the flag or the force-stop bit stays set, at most
      one consumer poll begins, and a partition that has finished stays finished. */
  lemma {:induction false} EveryInterleaving(s: Threads, steps: seq<Step>)
    requires Invariant(s)
    ensures Invariant(Initial())
    ensures var t := After(s, steps);
            && Invariant(t)
            && (s.finished ==> t.finished) && (s.asked ==> t.asked)
            && (t.asked ==> (t.stopRequested || t.forceStop) && t.pollsSince <= 1)
    decreases |steps|
  {
    if steps != [] {
      StepKeepsInvariant(s, steps[0]);
      EveryInterleaving(Do(s, steps[0]), steps[1..]);
    }
  }

  /** Worker steps that can still be needed to leave once stop() has been called. */
  function Distance(s: Threads): nat {
    match s.pc
    case Left => 0
    case LoopTest => if s.finished then 1 else 9
    case PollEntry => if s.forceStop then 2 else 11
    case ClearTime => if s.forceStop then 3 else 12
    case ApplyTime => if s.forceStop then 4 else 13
    case LoadTime => if s.forceStop then 5 else 14
    case ClearStop => 6
    case ForceStop => 7
    case LoadStop => 8
    case Polling => 10
  }

  function WorkerSteps(steps: seq<Step>): nat {
    if steps == [] then 0 else (if steps[0].Worker? then 1 else 0) + WorkerSteps(steps[1..])
  }

  lemma StepGetsCloser(s: Threads, step: Step)
    requires Invariant(s) && s.asked
    ensures Do(s, step).asked
    ensures Distance(Do(s, step)) + (if step.Worker? && s.pc != Left then 1 else 0) <= Distance(s)
  {
  }

  /** After stop() the worker leaves within fourteen of its own steps, whatever the others do. */
  lemma {:induction false} StopLeadsToLeaving(s: Threads, steps: seq<Step>)
    requires Invariant(s) && s.asked && WorkerSteps(steps) >= Distance(s)
    ensures After(s, steps).pc == Left && Distance(s) <= 14
    decreases |steps|
  {
    if s.pc == Left {
      LeftStays(s, steps);
    } else if steps != [] {
      StepKeepsInvariant(s, steps[0]);
      StepGetsCloser(s, steps[0]);
      StopLeadsToLeaving(Do(s, steps[0]), steps[1..]);
    }
  }

  lemma {:induction false} LeftStays(s: Threads, steps: seq<Step>)
    requires s.pc == Left
    ensures After(s, steps).pc == Left
    decreases |steps|
  {
    if steps != [] { LeftStays(Do(s, steps[0]), steps[1..]); }
  }

  // ---- The other ways to leave ----

  /** Worker steps that can still be needed to leave once an exit is requested or the partition has
      finished. */
  function ExitDistance(s: Threads): nat {
    match s.pc
    case Left => 0
    case LoopTest => 1
    case Polling => 2
    case PollEntry => 3
    case ClearTime => 4
    case ApplyTime => 5
    case LoadTime => 6
    case ClearStop => 7
    case ForceStop => 8
    case LoadStop => 9
  }

  lemma ExitWork(s: Threads, paused: bool, done: bool)
    requires (s.exit || s.finished) && s.pc != Left
    ensures Work(s, paused, done).exit || Work(s, paused, done).finished
    ensures ExitDistance(Work(s, paused, done)) < ExitDistance(s)
  {
  }

  lemma ExitStep(s: Threads, step: Step)
    requires (s.exit || s.finished) && s.pc != Left
    ensures Do(s, step).exit || Do(s, step).finished
    ensures ExitDistance(Do(s, step)) + (if step.Worker? then 1 else 0) <= ExitDistance(s)
  {
    if step.Worker? { ExitWork(s, step.paused, step.done); }
  }

  /** Once an exit is requested or the partition has finished, the worker leaves within nine of its own
      steps, whatever the others do. */
  lemma {:induction false} ExitLeadsToLeaving(s: Threads, steps: seq<Step>)
    requires (s.exit || s.finished) && WorkerSteps(steps) >= ExitDistance(s)
    ensures After(s, steps).pc == Left && ExitDistance(s) <= 9
    decreases |steps|
  {
    if s.pc == Left {
      LeftStays(s, steps);
    } else if steps != [] {
      ExitStep(s, steps[0]);
      ExitLeadsToLeaving(Do(s, steps[0]), steps[1..]);
    }
  }

  /** A request to exit, and a poll whose answer ends the partition, have that effect; and the worker leaves
      for no other reason than these and stop(). */
  lemma WaysToLeave(s: Threads, step: Step)
    ensures step == RequestExit ==> Do(s, step).exit
    ensures s.pc == Polling && step.Worker? && step.done ==> Do(s, step).finished && ExitDistance(Do(s, step)) == 1
    ensures s.pc == Polling && step.Worker? && !step.done ==> Do(s, step).finished == s.finished
    ensures s.pc != Left && Do(s, step).pc == Left ==> s.exit || s.finished
    ensures Do(s, step).finished && !s.finished ==>
              step.Worker? && (if s.pc == Polling then step.done else s.pc == PollEntry && s.forceStop)
  {
  }

  // ---- A stop-time request can be lost ----

  /** The request is still pending or was handed to the partition after the first `n` times were. */
  predicate TimeKept(s: Threads, t: int, n: nat) {
    s.requestedTime == t || (n <= |s.appliedTimes| && t in s.appliedTimes[n..])
  }

  predicate NoOtherTime(steps: seq<Step>) {
    forall i :: 0 <= i < |steps| ==> !steps[i].RequestTime?
  }

  lemma StepKeepsTime(s: Threads, t: int, n: nat, step: Step)
    requires n <= |s.appliedTimes| && !step.RequestTime? && TimeKept(s, t, n)
    requires s.pc == ClearTime ==> t in s.appliedTimes[n..]
    ensures var u := Do(s, step);
            && n <= |u.appliedTimes| && TimeKept(u, t, n)
            && (u.pc == ClearTime ==> t in u.appliedTimes[n..])
  {
    assert (s.appliedTimes + [s.requestedTime])[n..] == s.appliedTimes[n..] + [s.requestedTime];
  }

  lemma {:induction false} TimeStaysKept(s: Threads, t: int, n: nat, steps: seq<Step>)
    requires n <= |s.appliedTimes| && NoOtherTime(steps) && TimeKept(s, t, n)
    requires s.pc == ClearTime ==> t in s.appliedTimes[n..]
    ensures TimeKept(After(s, steps), t, n)
    decreases |steps|
  {
    if steps != [] {
      StepKeepsTime(s, t, n, steps[0]);
      assert forall i :: 0 <= i < |steps[1..]| ==> steps[1..][i] == steps[i + 1];
      TimeStaysKept(Do(s, steps[0]), t, n, steps[1..]);
    }
  }

  /** A requested stop time survives every interleaving exactly when it was not stored between the
      worker's second load and its reset. */
  lemma TimeRequestKeptIff(s: Threads, t: int)
    requires t != TIME_MAX
    ensures (forall steps :: NoOtherTime(steps) ==>
               TimeKept(After(Do(s, RequestTime(t)), steps), t, |s.appliedTimes|))
            <==> s.pc != ClearTime
  {
    var u, n := Do(s, RequestTime(t)), |s.appliedTimes|;
    if s.pc != ClearTime {
      forall steps | NoOtherTime(steps) ensures TimeKept(After(u, steps), t, n) {
        TimeStaysKept(u, t, n, steps);
      }
    } else {
      var steps := [Worker(false, false)];
      assert steps[1..] == [] && After(u, steps) == Do(u, steps[0]);
      assert After(u, steps).appliedTimes[n..] == [];
      assert NoOtherTime(steps) && !TimeKept(After(u, steps), t, n);
    }
  }

  lemma {:induction false} AfterOneMore(s: Threads, steps: seq<Step>, step: Step)
    ensures After(s, steps + [step]) == Do(After(s, steps), step)
    decreases |steps|
  {
    if steps == [] {
      assert ([] + [step])[1..] == [];
    } else {
      assert (steps + [step])[1..] == steps[1..] + [step];
      AfterOneMore(Do(s, steps[0]), steps[1..], step);
    }
  }

  /** A run that loses a request: the second stop time arrives while the worker is about to reset the
      first. Only the first was handed on, and nothing is pending. */
  lemma TimeRequestLost() returns (run: seq<Step>)
    ensures RequestTime(6) in run
    ensures var s := After(Initial(), run);
            s.appliedTimes == [5] && s.requestedTime == TIME_MAX && !TimeKept(s, 6, 0)
  {
    var work := Worker(false, false);
    run := [];
    for k := 0 to 7
      invariant k > 5 ==> RequestTime(6) in run
      invariant After(Initial(), run) == [
                  Initial(),
                  Threads(LoopTest, false, 5, false, false, false, [], false, 0),
                  Threads(LoadStop, false, 5, false, false, false, [], false, 0),
                  Threads(LoadTime, false, 5, false, false, false, [], false, 0),
                  Threads(ApplyTime, false, 5, false, false, false, [], false, 0),
                  Threads(ClearTime, false, 5, false, false, false, [5], false, 0),
                  Threads(ClearTime, false, 6, false, false, false, [5], false, 0),
                  Threads(PollEntry, false, TIME_MAX, false, false, false, [5], false, 0)][k]
    {
      var step := if k == 0 then RequestTime(5) else if k == 5 then RequestTime(6) else work;
      AfterOneMore(Initial(), run, step);
      run := run + [step];
    }
  }
}
