/** The topics on which starts and finishes are published, over every run, whichever connections fail
    (src/CommandSystem/Handler.cpp, src/Master.cpp). */
module CommandTopics {
  import opened MachineInts
  import opened CommandProtocol
  import opened CommandAlternation

  /** Responses go to the command topic, or to an alternative while a job is written, with the way back
      noted. */
  predicate Home(cfg: Config, s: State) {
    && (!s.job.writing ==> !s.response.usingAlt)
    && (if s.response.usingAlt then s.response.alt == Some(cfg.commandTopic) else s.response.topic == cfg.commandTopic)
  }

  /** The job cannot be started after its control topic was switched to, and the way back fails too: the
      responses stay on a topic that no job owns. */
  predicate Strands(cfg: Config, s: State, i: Input) {
    && TriesToStart(cfg, s, i)
    && i.jobs.message.controlTopic != cfg.commandTopic && i.connectControl == Connected && i.responseCreated
    && !(i.jobCreated && (s.status.usingAlt || i.statusCreated))
    && i.connectDefault != Connected
  }

  /** An alternative status topic knows the default one. */
  predicate StatusKnowsDefault(s: State) { s.status.usingAlt ==> s.status.alt.Some? }

  // ---- Every turn ----

  lemma OnControlTopicsOneMore(ms: seq<Milestone>, more: seq<Milestone>)
    requires OnControlTopics(ms) && |more| <= 1
    requires more != [] && more[0].Began? ==>
               more[0].start.Command? && more[0].topic == more[0].start.message.controlTopic
    ensures OnControlTopics(ms + more)
  {
  }

  lemma OutcomeTopics(cfg: Config, s: State, i: Input)
    requires Home(cfg, s) && StatusKnowsDefault(s) && !s.job.writing && s.pool != NoConsumer
    ensures var (t, code) := StartProcess(cfg, s, i.jobs, i);
            && t.log == s.log && t.halted == s.halted && StatusKnowsDefault(t)
            && (code.Some? && code.value < 400 ==> i.jobs.Command? && t.response.topic == i.jobs.message.controlTopic)
            && (Home(cfg, t) <==> !Strands(cfg, s, i))
            && (Strands(cfg, s, i) ==> !t.job.writing && t.response == Alternative(s.response, i.jobs.message.controlTopic))
  {
    if TriesToStart(cfg, s, i) { AttemptLeaves(cfg, s, i); } else { NoAttempt(cfg, s, i); }
  }

  /** A start command from a state at home is answered on the topic that it names if it succeeds, and
      leaves the responses at home exactly when it does not strand them. */
  lemma StartTopics(cfg: Config, s: State, i: Input)
    requires Home(cfg, s) && StatusKnowsDefault(s) && OnControlTopics(Milestones(s.log))
    requires !s.job.writing && i.jobs != Silence && s.pool != NoConsumer
    ensures var t := HandledStart(cfg, s, i.jobs, i).(pool := NoConsumer);
            && t.halted == s.halted && StatusKnowsDefault(t) && OnControlTopics(Milestones(t.log))
            && (Home(cfg, t) <==> !Strands(cfg, s, i))
            && (Strands(cfg, s, i) ==> !t.job.writing && t.response == Alternative(s.response, i.jobs.message.controlTopic))
  {
    OutcomeTopics(cfg, s, i);
    var (t, code) := StartProcess(cfg, s, i.jobs, i);
    if code.Some? {
      var topic, id := t.response.topic, JobIdOf(i.jobs);
      MilestonesAfterAnswer(s.log, topic, i.jobs, id, code.value);
      OnControlTopicsOneMore(Milestones(s.log), if code.value < 400 then [Began(topic, id, i.jobs)] else []);
    }
  }

  lemma StopTopics(cfg: Config, s: State, r: Received<StopMessage>, now: int)
    requires Home(cfg, s) && StatusKnowsDefault(s) && OnControlTopics(Milestones(s.log))
    requires s.job.writing && s.controller.Some?
    ensures var t := HandledStop(cfg, s, r, now);
            && t.halted == s.halted && StatusKnowsDefault(t) && OnControlTopics(Milestones(t.log)) && Home(cfg, t)
  {
    StopTouches(cfg, s, r, now);
    var (t, code) := StopProcess(cfg, s, r, now);
    var (id, command) := if r.Command? then (r.message.jobId, r.message.commandId) else ("", "");
    MilestonesOneMore(s.log, StopAnswer(t.response.topic, id, command, code));
    assert Milestones(s.log) + [] == Milestones(s.log);
  }

  /** A stop command changes the controller and the stop time of the job at most. */
  lemma StopTouches(cfg: Config, s: State, r: Received<StopMessage>, now: int)
    requires s.job.writing && s.controller.Some?
    ensures var t := StopProcess(cfg, s, r, now).0;
            t == s.(controller := t.controller, job := s.job.(stopTime := t.job.stopTime))
  {
  }

  lemma LoopTopics(cfg: Config, s: State, i: Input)
    requires Home(cfg, s) && StatusKnowsDefault(s) && OnControlTopics(Milestones(s.log))
    requires !s.halted && (s.job.writing ==> s.controller.Some?)
    ensures var t := Looped(cfg, s, i);
            && StatusKnowsDefault(t) && OnControlTopics(Milestones(t.log)) && (Home(cfg, t) <==> !Strands(cfg, s, i))
            && (Strands(cfg, s, i) ==>
                  && !t.halted && !t.job.writing && t.pool == NoConsumer
                  && t.response == Alternative(s.response, i.jobs.message.controlTopic))
  {
    if !s.job.writing {
      if s.pool != NoConsumer && i.jobs != Silence { StartTopics(cfg, s, i); }
    } else if s.source.topic != "" && s.source.consumer != NoConsumer && i.commands != Silence {
      StopTopics(cfg, s, i.commands, i.now);
    }
  }

  /** Going idle brings the responses home, or halts the program. */
  lemma IdleTopics(cfg: Config, s: State, i: Input)
    requires StatusKnowsDefault(s) && OnControlTopics(Milestones(s.log)) && !s.halted
    ensures var t := SetIdle(cfg, s, i);
            && StatusKnowsDefault(t) && OnControlTopics(Milestones(t.log))
            && (Home(cfg, s) ==> t.halted || Home(cfg, t))
            && (s.response.usingAlt && i.connectDefault != Connected ==> t.halted)
  {
    var end := Finished(s.response.topic, s.job.jobId, FilePath(cfg, s.job.filename), i.hasError);
    MilestonesOneMore(s.log, end);
    OnControlTopicsOneMore(Milestones(s.log), MilestoneOf(Echoed(s.log), end));
  }

  /** From home, whatever fails, every successful start of the turn is answered on the control topic that
      it names; and the turn ends at home, unless it halts the program, exactly when it does not strand the
      responses. */
  lemma TurnHomeIff(cfg: Config, s: State, i: Input)
    requires Home(cfg, s) && StatusKnowsDefault(s) && OnControlTopics(Milestones(s.log))
    requires !s.halted && (s.job.writing ==> s.controller.Some?)
    ensures var t := Ran(cfg, s, i);
            && StatusKnowsDefault(t) && OnControlTopics(Milestones(t.log))
            && (t.halted || (Home(cfg, t) <==> !Strands(cfg, s, i)))
  {
    LoopTopics(cfg, s, i);
    var t := Looped(cfg, s, i);
    if !t.halted && t.controller.Some? && IsDone(t.controller.value, i) { IdleTopics(cfg, t, i); }
  }

  // ---- Every run ----

  /** A turn that strands the responses and lets the program go on. */
  predicate LeavesStranded(cfg: Config, s: State, i: Input)
    requires s.job.writing ==> s.controller.Some?
  {
    !s.halted && Strands(cfg, s, i) && !Ran(cfg, s, i).halted
  }

  ghost predicate NeverStranded(cfg: Config, ts: Turns) {
    ts.Next? ==> NeverStranded(cfg, ts.prior) && !LeavesStranded(cfg, StateAfter(cfg, ts.prior), ts.input)
  }

  ghost predicate AlwaysHome(cfg: Config, ts: Turns) {
    && (StateAfter(cfg, ts).halted || Home(cfg, StateAfter(cfg, ts)))
    && (ts.Next? ==> AlwaysHome(cfg, ts.prior))
  }

  /** The responses are at home at every boundary of a run exactly when no turn left them stranded, and
      then every successful start was answered on the control topic that it names. */
  lemma {:induction false} EveryRunHomeIff(cfg: Config, ts: Turns)
    ensures AlwaysHome(cfg, ts) <==> NeverStranded(cfg, ts)
    ensures NeverStranded(cfg, ts) ==> OnControlTopics(Milestones(StateAfter(cfg, ts).log))
    ensures NeverStranded(cfg, ts) ==> StatusKnowsDefault(StateAfter(cfg, ts))
  {
    match ts
    case NoTurns =>
    case Next(p, i) =>
      EveryRunHomeIff(cfg, p);
      var s := StateAfter(cfg, p);
      if NeverStranded(cfg, p) && !s.halted { TurnHomeIff(cfg, s, i); }
  }

  /** In every run that orphans no job and strands no responses, whatever else fails, starts and finishes
      alternate, each finish with the job id and file path of the start before it, and both on the control
      topic that the start names. */
  lemma AlternatesOnControlTopics(cfg: Config, ts: Turns)
    requires NeverOrphaned(cfg, ts) && NeverStranded(cfg, ts)
    ensures var ms := Milestones(StateAfter(cfg, ts).log);
            Alternating(cfg, ms) && OnControlTopics(ms)
  {
    EveryRunAlternates(cfg, ts);
    EveryRunHomeIff(cfg, ts);
  }

  /** Where every failure is recovered from, no job is orphaned and no responses are stranded. */
  lemma {:induction false} RecoveredAlternatesOnControlTopics(cfg: Config, ts: Turns)
    requires Recovered(cfg, ts)
    ensures NeverOrphaned(cfg, ts) && NeverStranded(cfg, ts)
    ensures var ms := Milestones(StateAfter(cfg, ts).log);
            Alternating(cfg, ms) && OnControlTopics(ms)
  {
    if ts.Next? { RecoveredAlternatesOnControlTopics(cfg, ts.prior); }
    AlternatesOnControlTopics(cfg, ts);
  }

  // ---- Stranded responses show ----

  /** A turn without messages and without errors. */
  function QuietTurn(): Input {
    Input(Silence, Silence, Connected, Connected, Connected, true, true, true, Connected, false, true, 0)
  }

  /** A job that names the command topic and that nothing stands in the way of. */
  function DefaultJob(cfg: Config, id: string): Input {
    QuietTurn().(jobs := Command(StartMessage(id, "f", cfg.commandTopic, 0, 0)))
  }

  /** While the responses are stranded, a job that names the command topic is answered elsewhere. */
  lemma DefaultJobAnswered(cfg: Config, s: State, id: string)
    requires !s.halted && !s.job.writing && s.pool != NoConsumer && cfg.validId(id) && cfg.commandTopic != ""
    requires StatusKnowsDefault(s)
    ensures var t, r := Ran(cfg, s, DefaultJob(cfg, id)), DefaultJob(cfg, id).jobs;
            && t.log == s.log + [Echo(s.response.topic, r), StartAnswer(s.response.topic, id, 201)]
            && Milestones(t.log) == Milestones(s.log) + [Began(s.response.topic, id, r)]
  {
    var i := DefaultJob(cfg, id);
    AttemptLeaves(cfg, s, i);
    MilestonesAfterAnswer(s.log, s.response.topic, i.jobs, id, 201);
    var t := StartProcess(cfg, s, i.jobs, i).0;
    assert Looped(cfg, s, i).log == s.log + [Echo(s.response.topic, i.jobs), StartAnswer(s.response.topic, id, 201)];
    assert Looped(cfg, s, i).controller == Some(Controller(false, 0));
  }

  lemma StrandingShows(cfg: Config, s: State, i: Input, id: string)
    requires Home(cfg, s) && StatusKnowsDefault(s) && OnControlTopics(Milestones(s.log))
    requires !s.halted && (s.job.writing ==> s.controller.Some?) && cfg.validId(id) && cfg.commandTopic != ""
    requires LeavesStranded(cfg, s, i)
    ensures var u := Ran(cfg, Ran(cfg, s, i), QuietTurn());
            !OnControlTopics(Milestones(Ran(cfg, u, DefaultJob(cfg, id)).log))
  {
    LoopTopics(cfg, s, i);
    var t := Ran(cfg, s, i);
    if Looped(cfg, s, i) != t { IdleTopics(cfg, Looped(cfg, s, i), i); }
    assert t == Looped(cfg, s, i);
    var u := Ran(cfg, t, QuietTurn());
    assert u.response == t.response && !u.halted && !u.job.writing && u.pool == On(cfg.poolTopic) && u.log == t.log;
    DefaultJobAnswered(cfg, u, id);
    var ms := Milestones(Ran(cfg, u, DefaultJob(cfg, id)).log);
    assert ms[|ms| - 1].Began? && ms[|ms| - 1].topic != cfg.commandTopic;
  }

  /** What is published tells: whatever the next turn brings that leaves nothing stranded, and whatever the
      one after it brings, starts are answered on the topics that they name, exactly when the turn itself
      did not leave the responses stranded. */
  lemma ControlTopicsSurviveIff(cfg: Config, s: State, i: Input, id: string)
    requires Home(cfg, s) && StatusKnowsDefault(s) && OnControlTopics(Milestones(s.log))
    requires !s.halted && (s.job.writing ==> s.controller.Some?) && cfg.validId(id) && cfg.commandTopic != ""
    ensures (forall a, b :: !LeavesStranded(cfg, Ran(cfg, s, i), a) ==>
               OnControlTopics(Milestones(Ran(cfg, Ran(cfg, Ran(cfg, s, i), a), b).log)))
            <==> !LeavesStranded(cfg, s, i)
  {
    var t := Ran(cfg, s, i);
    TurnHomeIff(cfg, s, i);
    if LeavesStranded(cfg, s, i) {
      StrandingShows(cfg, s, i, id);
      assert !LeavesStranded(cfg, t, QuietTurn());
    } else {
      forall a, b | !LeavesStranded(cfg, t, a) ensures OnControlTopics(Milestones(Ran(cfg, Ran(cfg, t, a), b).log)) {
        var u := Ran(cfg, t, a);
        if !t.halted { TurnHomeIff(cfg, t, a); }
        if !u.halted { TurnHomeIff(cfg, u, b); }
      }
    }
  }

  /** One concrete failure: a job cannot be created and the way back cannot be subscribed to. The next job
      names the command topic and is answered on the control topic of the first. */
  lemma StrandedJobAnsweredElsewhere(cfg: Config)
    requires cfg.commandTopic == "commands" && cfg.validId("a")
    ensures var s := Initial(cfg).(pool := On(cfg.poolTopic));
            var m := StartMessage("a", "f", "control", 0, 0);
            var i := QuietTurn().(jobs := Command(m), jobCreated := false, connectDefault := NotSubscribed);
            var next := DefaultJob(cfg, "a");
            && Home(cfg, s) && next.jobs.message.controlTopic == "commands"
            && Ran(cfg, Ran(cfg, Ran(cfg, s, i), QuietTurn()), next).log
               == [Echo("control", next.jobs), StartAnswer("control", "a", 201)]
  {
    var s := Initial(cfg).(pool := On(cfg.poolTopic));
    var m := StartMessage("a", "f", "control", 0, 0);
    var i := QuietTurn().(jobs := Command(m), jobCreated := false, connectDefault := NotSubscribed);
    AttemptLeaves(cfg, s, i);
    var t := Ran(cfg, s, i);
    assert t.log == [] && t.response.topic == "control" && t.controller.None? && t.pool == NoConsumer;
    var u := Ran(cfg, t, QuietTurn());
    assert u.log == [] && u.response == t.response && u.pool == On(cfg.poolTopic);
    DefaultJobAnswered(cfg, u, "a");
  }
}
