/** Signals and the end of the main loop (src/RunState.h, apps/kafka-to-nexus.cpp). */
module RunStates {
  import opened MachineInts
  import opened CommandProtocol
  import CommandAlternation

  datatype RunState = Running | Stopping | SigintReceived | SigintWaiting | SigintKafkaWait | SighupReceived

  datatype Signal = Sigint | Sigterm | Sighup | OtherSignal

  const WAIT_FOR_STOP: int := 5_000_000_000

  function Signalled(r: RunState, signal: Signal): RunState {
    match signal
    case Sigint => if r == Running || r == SighupReceived then SigintReceived else Stopping
    case Sigterm => Stopping
    case Sighup => if r == Running then SighupReceived else r
    case OtherSignal => r
  }

  /** No job, or a job whose controller reports that it is done. */
  predicate WritingIsFinished(s: State, i: Input) {
    s.controller.None? || IsDone(s.controller.value, i)
  }

  /** The main loop's memory: the service, the run state and when the wait after SIGINT began. */
  datatype Program = Program(service: State, run: RunState, sigintStart: int)

  /** What the test at the top of the main loop says; an exception is not caught there. */
  datatype Verdict = GoOn | End | Throws

  /** After SIGINT an unfinished job is stopped, which throws if there is a controller but no job. */
  function Tested(p: Program, findTopicMode: bool, i: Input): (Program, Verdict) {
    match p.run
    case Stopping => (p, End)
    case SigintReceived =>
      if findTopicMode || WritingIsFinished(p.service, i) then (p, End)
      else
        var (s, stopped) := StoppedNow(p.service, i.now);
        if !stopped then (p, Throws) else (Program(s, SigintWaiting, i.now), GoOn)
    case SigintWaiting =>
      if i.now > p.sigintStart + WAIT_FOR_STOP then (p, End)
      else if WritingIsFinished(p.service, i) then (p.(run := SigintKafkaWait), End)
      else (p, GoOn)
    case SighupReceived =>
      if findTopicMode then (p, End)
      else if WritingIsFinished(p.service, i) then (p.(run := SigintKafkaWait), End)
      else (p, GoOn)
    case _ => (p, GoOn)
  }

  class MainLoop {
    const service: Service
    var run: RunState
    var sigintStart: int

    ghost function View(): Program
      reads this, service
    {
      Program(service.View(), run, sigintStart)
    }

    constructor (service: Service)
      ensures this.service == service && run == Running
    {
      this.service, run, sigintStart := service, Running, 0;
    }

    method SignalHandler(signal: Signal)
      modifies this`run
      ensures run == Signalled(old(run), signal)
    {
      match signal
      case Sigint =>
        if run == Running || run == SighupReceived {
          run := SigintReceived;
        } else {
          run := Stopping;
        }
      case Sigterm => run := Stopping;
      case Sighup =>
        if run == Running {
          run := SighupReceived;
        }
      case OtherSignal =>
    }

    method ShouldStop(findTopicMode: bool, i: Input) returns (verdict: Verdict)
      modifies this`run, this`sigintStart, service
      ensures (View(), verdict) == Tested(old(View()), findTopicMode, i)
    {
      if run == Stopping { return End; }
      var finished := service.controller.None? || IsDone(service.controller.value, i);
      if run == SigintReceived {
        if findTopicMode { return End; }
        if finished { return End; }
        var stopped := service.StopNow(i.now);
        if !stopped { return Throws; }
        run := SigintWaiting;
        sigintStart := i.now;
      } else if run == SigintWaiting {
        if i.now > sigintStart + WAIT_FOR_STOP { return End; }
        if finished {
          run := SigintKafkaWait;
          return End;
        }
      } else if run == SighupReceived {
        if findTopicMode { return End; }
        if finished {
          run := SigintKafkaWait;
          return End;
        }
      }
      return GoOn;
    }
  }

  /** In a run that never orphaned a job the test does not throw, whatever signals came in. */
  lemma TestThrowsOnlyForOrphans(cfg: Config, ts: Turns, run: RunState, start: int, findTopicMode: bool, i: Input)
    requires CommandAlternation.NeverOrphaned(cfg, ts) && !StateAfter(cfg, ts).halted
    ensures Tested(Program(StateAfter(cfg, ts), run, start), findTopicMode, i).1 != Throws
  {
    CommandAlternation.EveryRunAccountedIff(cfg, ts);
  }

  /** A test without an error report while the streams are still running. */
  function StillStreaming(i: Input): Input { i.(hasError := false, streaming := true) }

  /** After a turn, a SIGINT can make the test throw exactly when the turn orphaned a job and did not
      finish it at once. */
  lemma TestCanThrowIff(cfg: Config, s: State, i: Input, start: int)
    requires CommandAlternation.Accounted(cfg, s) && !s.halted && !Ran(cfg, s, i).halted
    ensures (exists test :: Tested(Program(Ran(cfg, s, i), SigintReceived, start), false, test).1 == Throws)
            <==> CommandAlternation.Orphans(cfg, s, i) && !IsDone(Controller(false, i.jobs.message.stopTime), i)
  {
    var t := Ran(cfg, s, i);
    forall test ensures Tested(Program(t, SigintReceived, start), false, test).1 == Throws <==> CanThrow(t, test) {
      ThrowsWhen(t, start, test);
    }
    CommandAlternation.TurnAccountedIff(cfg, s, i);
    if CommandAlternation.Orphans(cfg, s, i) {
      OrphanLeft(cfg, s, i);
      if !IsDone(Controller(false, i.jobs.message.stopTime), i) { assert CanThrow(t, StillStreaming(i)); }
    }
  }

  predicate CanThrow(s: State, test: Input) {
    s.controller.Some? && !IsDone(s.controller.value, test) && !s.job.writing
  }

  lemma ThrowsWhen(s: State, start: int, test: Input)
    ensures Tested(Program(s, SigintReceived, start), false, test).1 == Throws <==> CanThrow(s, test)
  {
  }

  /** The controller of an orphan is left with its stop time, unless it is done in the same turn. */
  lemma OrphanLeft(cfg: Config, s: State, i: Input)
    requires CommandAlternation.Accounted(cfg, s) && !s.halted && CommandAlternation.Orphans(cfg, s, i)
    requires !Ran(cfg, s, i).halted
    ensures var t, c := Ran(cfg, s, i), Controller(false, i.jobs.message.stopTime);
            !t.job.writing && t.controller == if IsDone(c, i) then None else Some(c)
  {
    CommandAlternation.LoopAccounted(cfg, s, i);
    var m := i.jobs.message;
    CommandAlternation.SwitchLeaves(cfg, s, m, i);
    assert Looped(cfg, s, i).controller == Some(Controller(false, m.stopTime));
  }

  // ---- When the loop ends ----

  /** Without a signal, or after an unknown one, the loop goes on. */
  lemma QuietLoopGoesOn(p: Program, findTopicMode: bool, i: Input)
    requires p.run == Running
    ensures Tested(p, findTopicMode, i) == (p, GoOn)
    ensures Signalled(p.run, OtherSignal) == p.run
  {
  }

  /** SIGTERM ends the loop at the next test, whatever came before and whatever is being written. */
  lemma SigtermEnds(p: Program, findTopicMode: bool, i: Input)
    ensures var q := p.(run := Signalled(p.run, Sigterm));
            Tested(q, findTopicMode, i) == (q, End) && q.service == p.service
  {
  }

  /** A second SIGINT ends the loop at the next test, with or without a test in between. */
  lemma SecondSigintEnds(p: Program, findTopicMode: bool, i: Input, laterMode: bool, j: Input)
    ensures var once := p.(run := Signalled(p.run, Sigint));
            var (tested, verdict) := Tested(once, findTopicMode, i);
            && Tested(once.(run := Signalled(once.run, Sigint)), findTopicMode, i).1 == End
            && (verdict == GoOn ==> Tested(tested.(run := Signalled(tested.run, Sigint)), laterMode, j).1 == End)
  {
  }

  /** SIGHUP lets a job finish: the loop goes on, and nothing is stopped, exactly while there is a controller
      that is not done. It is only heard while running. */
  lemma SighupWaitsForJob(p: Program, i: Input)
    requires p.run == Running
    ensures var q := p.(run := Signalled(p.run, Sighup));
            if p.service.controller.Some? && !IsDone(p.service.controller.value, i)
            then Tested(q, false, i) == (q, GoOn)
            else Tested(q, false, i).1 == End && Tested(q, false, i).0.service == p.service
    ensures Tested(p.(run := Signalled(p.run, Sighup)), true, i).1 == End
    ensures forall r: RunState :: r != Running ==> Signalled(r, Sighup) == r
  {
  }

  /** After a SIGINT that stopped a job, whatever the service does in between, a later test ends the loop
      exactly when the job has finished or more than five seconds have passed since the job was stopped. */
  lemma SigintGracePeriod(p: Program, test: Input, service: State, later: Input)
    requires (p.run == Running || p.run == SighupReceived) && p.service.job.writing && !WritingIsFinished(p.service, test)
    ensures var (q, verdict) := Tested(p.(run := Signalled(p.run, Sigint)), false, test);
            var after := q.(service := service);
            && verdict == GoOn && q.service.controller.value.stopNow
            && (Tested(after, false, later).1 == End <==>
                  later.now > test.now + 5_000_000_000 || service.controller.None? || IsDone(service.controller.value, later))
            && (Tested(after, false, later).1 != End ==> Tested(after, false, later) == (after, GoOn))
  {
  }

  /** A SIGINT without an unfinished job, or while topics are being looked for, ends the loop. */
  lemma IdleSigintEnds(p: Program, findTopicMode: bool, i: Input)
    requires p.run == Running || p.run == SighupReceived
    requires findTopicMode || WritingIsFinished(p.service, i)
    ensures Tested(p.(run := Signalled(p.run, Sigint)), findTopicMode, i).1 == End
  {
  }

  function FinishCount(log: seq<Published>): nat {
    if log == [] then 0 else FinishCount(log[..|log| - 1]) + (if log[|log| - 1].Finished? then 1 else 0)
  }

  lemma FinishCountOneMore(log: seq<Published>, p: Published)
    ensures FinishCount(log + [p]) == FinishCount(log) + (if p.Finished? then 1 else 0)
  {
    assert (log + [p])[..|log|] == log;
  }

  /** The command part of a turn leaves such a job as it is and publishes no finished message. */
  lemma LoopKeepsStoppedJob(cfg: Config, s: State, i: Input)
    requires Invariant(cfg, s) && !s.halted && s.job.writing && s.controller.value.stopNow
    requires i.connectSource == Connected
    ensures var t := Looped(cfg, s, i);
            && !t.halted && t.job.writing && t.controller.Some? && t.controller.value.stopNow
            && t.job.jobId == s.job.jobId && t.job.filename == s.job.filename && t.response == s.response
            && FinishCount(t.log) == FinishCount(s.log)
  {
    if s.source.consumer != NoConsumer && i.commands != Silence {
      var r := i.commands;
      StopKeepsJob(cfg, s, Heard(cfg, s.log).open.value, r, i.now);
      var (id, command) := if r.Command? then (r.message.jobId, r.message.commandId) else ("", "");
      FinishCountOneMore(s.log, StopAnswer(s.response.topic, id, command, StopProcess(cfg, s, r, i.now).1));
    }
  }

  /** While a job that was told to stop now is running, a turn publishes at most a command answer and then
      exactly one finished message, for that job on its control topic, and leaves the service idle. */
  lemma StoppedJobFinishes(cfg: Config, s: State, i: Input)
    requires Invariant(cfg, s) && !s.halted && s.job.writing && s.controller.value.stopNow
    requires i.connectSource == Connected && i.connectDefault == Connected
    ensures var t := Ran(cfg, s, i);
            && Idle(cfg, t) && !t.halted
            && FinishCount(t.log) == FinishCount(s.log) + 1
            && t.log != [] && t.log[|t.log| - 1]
                 == Finished(s.response.topic, s.job.jobId, FilePath(cfg, s.job.filename), i.hasError)
  {
    var t := Looped(cfg, s, i);
    LoopKeepsStoppedJob(cfg, s, i);
    LoopTurn(cfg, s, i);
    FinishTurn(cfg, t, i);
    FinishCountOneMore(t.log, Finished(t.response.topic, t.job.jobId, FilePath(cfg, t.job.filename), i.hasError));
  }

  /** A SIGINT during an unfinished job: the test stops the job and lets the loop go on, one more turn
      publishes exactly one finished message for that job, and the next test ends the loop. */
  lemma SigintFinishesJob(cfg: Config, p: Program, test: Input, turn: Input, next: Input)
    requires Invariant(cfg, p.service) && !p.service.halted && p.service.job.writing
    requires (p.run == Running || p.run == SighupReceived) && !WritingIsFinished(p.service, test)
    requires turn.connectSource == Connected && turn.connectDefault == Connected
    ensures var (q, verdict) := Tested(p.(run := Signalled(p.run, Sigint)), false, test);
            && verdict == GoOn && q.service.job.writing && q.service.controller.Some?
            && var after := q.(service := Ran(cfg, q.service, turn));
               && Idle(cfg, after.service)
               && FinishCount(after.service.log) == FinishCount(p.service.log) + 1
               && after.service.log != []
               && after.service.log[|after.service.log| - 1]
                    == Finished(p.service.response.topic, p.service.job.jobId,
                                FilePath(cfg, p.service.job.filename), turn.hasError)
               && Tested(after, false, next).1 == End
  {
    var q := Tested(p.(run := Signalled(p.run, Sigint)), false, test).0;
    assert q.service == StoppedNow(p.service, test.now).0;
    assert Invariant(cfg, q.service);
    StoppedJobFinishes(cfg, q.service, turn);
  }
}
