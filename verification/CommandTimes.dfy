/** When a job ends: stop commands with a time, and what makes a turn publish the finished message
    (src/CommandSystem/Handler.cpp, src/Master.cpp, src/StreamController.cpp). */
module CommandTimes {
  import opened MachineInts
  import opened CommandProtocol
  import opened CommandAlternation

  // ---- Stop commands ----

  /** The running job's command source yields a stop command that it can read. */
  predicate HearsStop(s: State, i: Input) {
    s.job.writing && s.source.topic != "" && s.source.consumer != NoConsumer && i.commands.Command?
  }

  predicate NamesJob(cfg: Config, s: State, i: Input) {
    HearsStop(s, i) && i.commands.message.jobId == s.job.jobId && cfg.validId(i.commands.message.commandId)
  }

  /** The running job is told to stop at once, or at a time. */
  predicate AsksNow(cfg: Config, s: State, i: Input) { NamesJob(cfg, s, i) && i.commands.message.stopTime == 0 }
  predicate AsksTime(cfg: Config, s: State, i: Input) { NamesJob(cfg, s, i) && i.commands.message.stopTime != 0 }

  /** A stop command with a time for the running job: if the stop time noted so far has not passed, the
      controller and the note get the requested time and nothing else changes; otherwise nothing does. */
  lemma StopTimeAnswered(cfg: Config, s: State, i: Input)
    requires !s.halted && s.controller.Some? && AsksTime(cfg, s, i)
    ensures var m, t := i.commands.message, Looped(cfg, s, i);
            if i.now <= s.job.stopTime
            then t == s.(controller := Some(Controller(s.controller.value.stopNow, m.stopTime)),
                         job := Job(true, s.job.jobId, s.job.filename, m.stopTime),
                         log := s.log + [StopAnswer(s.response.topic, m.jobId, m.commandId, 201)])
            else t == s.(log := s.log + [StopAnswer(s.response.topic, m.jobId, m.commandId, 500)])
  {
  }

  /** A stop command without a time for the running job: the controller is told to stop and to take now for
      its stop time, and the noted stop time is cleared. */
  lemma StopNowAnswered(cfg: Config, s: State, i: Input)
    requires !s.halted && s.controller.Some? && AsksNow(cfg, s, i)
    ensures var m := i.commands.message;
            Looped(cfg, s, i) == s.(controller := Some(Controller(true, i.now)),
                                    job := Job(true, s.job.jobId, s.job.filename, 0),
                                    log := s.log + [StopAnswer(s.response.topic, m.jobId, m.commandId, 201)])
  {
  }

  /** A stop command that cannot be read is refused and changes nothing. */
  lemma UnreadableStopRefused(cfg: Config, s: State, i: Input)
    requires !s.halted && s.job.writing && s.controller.Some? && s.source.topic != "" && s.source.consumer != NoConsumer
    requires i.commands.Unreadable?
    ensures Looped(cfg, s, i) == s.(log := s.log + [StopAnswer(s.response.topic, "", "", 400)])
  {
  }

  // ---- Start commands ----

  /** The code that a start command is answered with, if it is answered: 400 if it does not pass the checks,
      201 if its topic can be switched to and its job and status topic created, 500 otherwise; an exception
      on the way back leaves it unanswered. */
  function StartCode(cfg: Config, s: State, i: Input): Option<nat> {
    if !TriesToStart(cfg, s, i) then Some(400)
    else
      var works := SwitchWorks(cfg, i.jobs.message, i);
      if works && i.jobCreated && (s.status.usingAlt || i.statusCreated) then Some(201)
      else if i.connectDefault != Connected && (s.response.usingAlt || (works && i.jobs.message.controlTopic != cfg.commandTopic))
      then None else Some(500)
  }

  /** A start command found while idle is echoed and answered with that code on the topic in use afterwards,
      and the pool is left, whatever comes of it. */
  lemma StartAnswered(cfg: Config, s: State, i: Input)
    requires !s.halted && !s.job.writing && s.pool != NoConsumer && i.jobs != Silence
    requires s.status.usingAlt ==> s.status.alt.Some?
    ensures var t, code := Looped(cfg, s, i), StartCode(cfg, s, i);
            var id := if i.jobs.Command? then i.jobs.message.jobId else "";
            && t.pool == NoConsumer && !t.halted
            && t.log == s.log + (if code.None? then []
                                 else [Echo(t.response.topic, i.jobs), StartAnswer(t.response.topic, id, code.value)])
  {
    if TriesToStart(cfg, s, i) { AttemptLeaves(cfg, s, i); } else { NoAttempt(cfg, s, i); }
    assert s.log + [] == s.log;
  }

  // ---- What makes a turn finish the job ----

  /** The controller of the running job works with the stop time that is noted. */
  predicate InTime(s: State) {
    s.job.writing ==> s.controller == Some(Controller(false, s.job.stopTime))
  }

  /** The stop time that holds once the commands of the turn are dealt with. */
  function StopTimeThen(cfg: Config, s: State, i: Input): int {
    if AsksTime(cfg, s, i) && i.now <= s.job.stopTime then i.commands.message.stopTime else s.job.stopTime
  }

  /** The command source cannot be connected, which ends the program. */
  predicate CannotListen(s: State, i: Input) {
    s.job.writing && s.source.topic != "" && s.source.consumer == NoConsumer && i.connectSource != Connected
  }

  /** An error, an order to stop at once, or the end of all streams after a stop time that is set. */
  predicate Finishes(cfg: Config, s: State, i: Input) {
    var stop := StopTimeThen(cfg, s, i);
    !CannotListen(s, i) && (i.hasError || AsksNow(cfg, s, i) || (!i.streaming && stop != 0 && i.now > stop))
  }

  function FinishedMessage(cfg: Config, s: State, i: Input): Published {
    Finished(s.response.topic, s.job.jobId, FilePath(cfg, s.job.filename), i.hasError)
  }

  /** The command part of the turn answers at most a stop command and keeps to the stop time. */
  lemma CommandPart(cfg: Config, s: State, i: Input)
    requires !s.halted && s.job.writing && InTime(s)
    ensures var t := Looped(cfg, s, i);
            && t.halted == CannotListen(s, i)
            && t.job.writing && t.job.jobId == s.job.jobId && t.job.filename == s.job.filename && t.response == s.response
            && t.controller.Some? && t.controller.value.stopNow == AsksNow(cfg, s, i)
            && (!AsksNow(cfg, s, i) ==> t.job.stopTime == t.controller.value.stopTime == StopTimeThen(cfg, s, i))
            && (t.log == s.log || (t.log != [] && t.log == s.log + [t.log[|t.log| - 1]] && t.log[|t.log| - 1].StopAnswer?))
  {
    if s.source.topic != "" && s.source.consumer != NoConsumer && i.commands != Silence {
      StopPart(cfg, s, i.commands, i.now);
      if AsksTime(cfg, s, i) { StopTimeAnswered(cfg, s, i); }
    }
  }

  lemma StopPart(cfg: Config, s: State, r: Received<StopMessage>, now: int)
    requires s.job.writing && InTime(s)
    ensures var t := StopProcess(cfg, s, r, now).0;
            var named := r.Command? && r.message.jobId == s.job.jobId && cfg.validId(r.message.commandId);
            && t == s.(controller := t.controller, job := s.job.(stopTime := t.job.stopTime)) && t.controller.Some?
            && (t.controller.value.stopNow <==> named && r.message.stopTime == 0)
            && (!named ==> t == s)
  {
  }

  /** While a job is written, a turn publishes its finished message exactly when an error is reported, the
      job is told to stop at once, or its streams have ended and its stop time has passed; otherwise the job
      goes on with the stop time that was asked for. */
  lemma FinishesExactlyWhen(cfg: Config, s: State, i: Input)
    requires !s.halted && s.job.writing && InTime(s)
    ensures var t, u := Looped(cfg, s, i), Ran(cfg, s, i);
            && (t.log == s.log || (t.log != [] && t.log == s.log + [t.log[|t.log| - 1]] && t.log[|t.log| - 1].StopAnswer?))
            && u.log == t.log + (if Finishes(cfg, s, i) then [FinishedMessage(cfg, s, i)] else [])
            && (!Finishes(cfg, s, i) ==>
                  u == t && u.job.writing && u.job.jobId == s.job.jobId && InTime(u)
                  && u.job.stopTime == StopTimeThen(cfg, s, i))
            && (Finishes(cfg, s, i) ==> u.halted || !u.job.writing)
  {
    CommandPart(cfg, s, i);
    assert Looped(cfg, s, i).log + [] == Looped(cfg, s, i).log;
  }

  /** A turn ends the program exactly when the job pool or the command source cannot be connected, or when a
      job finishes and the way back to the command topic cannot. */
  lemma HaltsExactlyWhen(cfg: Config, s: State, i: Input)
    requires !s.halted && (if s.job.writing then InTime(s) else s.controller.None?)
    requires s.job.writing || s.pool == NoConsumer || i.jobs == Silence
    ensures Ran(cfg, s, i).halted <==>
            if s.job.writing then CannotListen(s, i) || (Finishes(cfg, s, i) && s.response.usingAlt && i.connectDefault != Connected)
            else s.pool == NoConsumer && i.connectPool != Connected
    ensures !s.job.writing ==>
              Ran(cfg, s, i) == s.(halted := Ran(cfg, s, i).halted, pool := Ran(cfg, s, i).pool)
    ensures !s.job.writing && s.pool == NoConsumer && i.connectPool == Connected ==> Ran(cfg, s, i).pool == On(cfg.poolTopic)
  {
    if s.job.writing { CommandPart(cfg, s, i); }
  }

  // ---- Every run ----

  /** The stop time that was asked for last: by the start message, then by every stop command for the job
      that came before the time noted until then had passed. */
  ghost function Requested(cfg: Config, ts: Turns): int {
    match ts
    case NoTurns => 0
    case Next(p, i) =>
      var s := StateAfter(cfg, p);
      if s.halted then Requested(cfg, p)
      else if !s.job.writing then (if i.jobs.Command? then i.jobs.message.stopTime else 0)
      else if AsksTime(cfg, s, i) && i.now <= Requested(cfg, p) then i.commands.message.stopTime
      else Requested(cfg, p)
  }

  lemma StartedInTime(cfg: Config, s: State, i: Input)
    requires !s.halted && !s.job.writing
    ensures var t := Looped(cfg, s, i);
            t.job.writing ==> i.jobs.Command? && InTime(t) && t.job.stopTime == i.jobs.message.stopTime
  {
  }

  /** In every run the job being written has the stop time that was asked for last. */
  lemma {:induction false} EveryRunInTime(cfg: Config, ts: Turns)
    ensures var s := StateAfter(cfg, ts);
            !s.halted && s.job.writing ==> InTime(s) && s.job.stopTime == Requested(cfg, ts)
  {
    if ts.Next? {
      var p, i := ts.prior, ts.input;
      var s := StateAfter(cfg, p);
      EveryRunInTime(cfg, p);
      if !s.halted {
        if s.job.writing { FinishesExactlyWhen(cfg, s, i); } else { StartedInTime(cfg, s, i); }
      }
    }
  }

  /** In every run, without an error and without an order to stop at once, the finished message of a job is
      published in the first turn in which its streams have ended and the time asked for last has passed,
      and not before. */
  lemma RunFinishesInTime(cfg: Config, ts: Turns, i: Input)
    requires var s := StateAfter(cfg, ts);
             !s.halted && s.job.writing && !i.hasError && !AsksNow(cfg, s, i) && !CannotListen(s, i)
    ensures var s, u, stop := StateAfter(cfg, ts), Ran(cfg, StateAfter(cfg, ts), i), Requested(cfg, Next(ts, i));
            && (u.log != [] && u.log[|u.log| - 1] == FinishedMessage(cfg, s, i) && |u.log| > |Looped(cfg, s, i).log|
                <==> !i.streaming && stop != 0 && i.now > stop)
            && (i.streaming || stop == 0 || i.now <= stop ==> !u.halted && u.job.writing && u.job.jobId == s.job.jobId)
  {
    EveryRunInTime(cfg, ts);
    var s := StateAfter(cfg, ts);
    FinishesExactlyWhen(cfg, s, i);
    CommandPart(cfg, s, i);
  }
}
