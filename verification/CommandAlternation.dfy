/** Successful starts and finished messages in everything that the service publishes, over every run,
    whichever connections fail (src/CommandSystem/Handler.cpp, src/Master.cpp). */
module CommandAlternation {
  import opened MachineInts
  import opened CommandProtocol

  // ---- Milestones: jobs that begin and end ----

  /** A successful start answer, with the start message echoed before it, or a finished message. */
  datatype Milestone =
    | Began(topic: string, jobId: string, start: Received<StartMessage>)
    | Ended(topic: string, jobId: string, file: string)

  /** The start message that was echoed last. */
  function Echoed(log: seq<Published>): Received<StartMessage> {
    if log == [] then Silence
    else if log[|log| - 1].Echo? then log[|log| - 1].message
    else Echoed(log[..|log| - 1])
  }

  function MilestoneOf(echoed: Received<StartMessage>, p: Published): seq<Milestone> {
    match p
    case StartAnswer(topic, id, code) => if code < 400 then [Began(topic, id, echoed)] else []
    case Finished(topic, id, file, _) => [Ended(topic, id, file)]
    case _ => []
  }

  function Milestones(log: seq<Published>): seq<Milestone> {
    if log == [] then []
    else Milestones(log[..|log| - 1]) + MilestoneOf(Echoed(log[..|log| - 1]), log[|log| - 1])
  }

  /** The finished message is for the job that began, with its file path and on the same topic. */
  predicate SameJob(cfg: Config, b: Milestone, e: Milestone) {
    && b.Began? && e.Ended? && b.start.Command?
    && e.jobId == b.jobId == b.start.message.jobId
    && e.file == FilePath(cfg, b.start.message.filename)
    && e.topic == b.topic
  }

  /** Start, finish, start, finish, and so on, each finish for the start before it. */
  ghost predicate Alternating(cfg: Config, ms: seq<Milestone>) {
    forall k :: 0 <= k < |ms| ==> InTurn(cfg, ms, k)
  }

  predicate InTurn(cfg: Config, ms: seq<Milestone>, k: nat)
    requires k < |ms|
  {
    if k % 2 == 0 then ms[k].Began? else SameJob(cfg, ms[k - 1], ms[k])
  }

  /** Every start is answered on the control topic that it names. */
  ghost predicate OnControlTopics(ms: seq<Milestone>) {
    forall k :: 0 <= k < |ms| && ms[k].Began? ==> ms[k].start.Command? && ms[k].topic == ms[k].start.message.controlTopic
  }

  lemma MilestonesOneMore(log: seq<Published>, p: Published)
    ensures Milestones(log + [p]) == Milestones(log) + MilestoneOf(Echoed(log), p)
    ensures Echoed(log + [p]) == if p.Echo? then p.message else Echoed(log)
  {
    assert (log + [p])[..|log|] == log;
  }

  lemma MilestonesAfterAnswer(log: seq<Published>, topic: string, r: Received<StartMessage>, id: string, code: nat)
    ensures Milestones(log + [Echo(topic, r), StartAnswer(topic, id, code)])
            == Milestones(log) + (if code < 400 then [Began(topic, id, r)] else [])
  {
    var echo, answer := Echo(topic, r), StartAnswer(topic, id, code);
    MilestonesOneMore(log, echo);
    MilestonesOneMore(log + [echo], answer);
    assert log + [echo] + [answer] == log + [echo, answer];
    assert Milestones(log) + [] == Milestones(log);
  }

  lemma AlternatingOneMore(cfg: Config, ms: seq<Milestone>, m: Milestone)
    requires Alternating(cfg, ms)
    ensures Alternating(cfg, ms + [m]) <==> InTurn(cfg, ms + [m], |ms|)
  {
    forall k | 0 <= k < |ms| ensures InTurn(cfg, ms + [m], k) { assert InTurn(cfg, ms, k); }
  }

  // ---- When alternation can be relied on ----

  /** A controller, a job and an alternative status topic exist together. */
  predicate Paired(s: State) {
    && (s.controller.Some? <==> s.job.writing) && (s.status.usingAlt <==> s.job.writing)
    && (s.status.usingAlt ==> s.status.alt.Some?)
  }

  /** The job that was announced last and has not been reported finished is the one being written. */
  ghost predicate Announced(s: State, ms: seq<Milestone>) {
    && (|ms| % 2 == 1 <==> s.job.writing)
    && (s.job.writing ==>
          var last := ms[|ms| - 1];
          && last.Began? && last.topic == s.response.topic && last.start.Command?
          && last.jobId == last.start.message.jobId == s.job.jobId
          && last.start.message.filename == s.job.filename)
  }

  /** What has been published alternates, and unless the program has ended it agrees with the state. */
  ghost predicate Accounted(cfg: Config, s: State) {
    && Alternating(cfg, Milestones(s.log))
    && (s.halted || (Paired(s) && Announced(s, Milestones(s.log))))
  }

  /** A job is created, but its status topic is not: the start is refused and its controller stays. */
  predicate Orphans(cfg: Config, s: State, i: Input) {
    TriesToStart(cfg, s, i) && i.jobCreated && !i.statusCreated && SwitchWorks(cfg, i.jobs.message, i)
  }

  predicate SwitchWorks(cfg: Config, m: StartMessage, i: Input) {
    m.controlTopic == cfg.commandTopic || (i.connectControl == Connected && i.responseCreated)
  }

  /** Switching touches the topics of source and responses and nothing else. */
  lemma SwitchLeaves(cfg: Config, s: State, m: StartMessage, i: Input)
    requires m.controlTopic != ""
    ensures var (t, ok) := Switched(cfg, s, m.controlTopic, m.startTime, i);
            && t == s.(source := t.source, response := t.response) && (ok <==> SwitchWorks(cfg, m, i))
            && t.response == if ok && m.controlTopic != cfg.commandTopic then Alternative(s.response, m.controlTopic) else s.response
  {
  }

  lemma RevertLeaves(cfg: Config, s: State, c: Connect)
    ensures var (t, ok) := RevertedTopic(cfg, s, c);
            && t == s.(source := t.source, response := t.response) && (ok <==> !s.response.usingAlt || c == Connected)
            && t.response == if ok then Reverted(s.response) else s.response
  {
  }

  /** Starting leaves the topics of source and responses alone. */
  lemma StartedLeaves(s: State, m: StartMessage, i: Input)
    requires !s.job.writing && m.controlTopic != "" && (s.status.usingAlt ==> s.status.alt.Some?)
    ensures var (t, ok) := StartedWriting(s, m, i);
            && t == s.(controller := t.controller, status := t.status, job := t.job)
            && (ok <==> i.jobCreated && (s.status.usingAlt || i.statusCreated))
            && (t.controller.Some? <==> s.controller.Some? || i.jobCreated)
            && (ok ==> t.job == Job(true, m.jobId, m.filename, m.stopTime) && t.status.usingAlt && t.status.alt.Some?)
            && (!ok ==> t.job == s.job && t.status == s.status)
  {
  }

  /** The attempt to start a job that passes the checks: its outcome, its controller and its answer's topic. */
  lemma AttemptLeaves(cfg: Config, s: State, i: Input)
    requires TriesToStart(cfg, s, i) && (s.status.usingAlt ==> s.status.alt.Some?)
    ensures var m := i.jobs.message;
            var (t, code) := StartProcess(cfg, s, i.jobs, i);
            var works := SwitchWorks(cfg, m, i);
            var was := if works && m.controlTopic != cfg.commandTopic then Alternative(s.response, m.controlTopic) else s.response;
            && t.log == s.log && t.halted == s.halted
            && (t.controller.Some? <==> s.controller.Some? || (works && i.jobCreated))
            && if works && i.jobCreated && (s.status.usingAlt || i.statusCreated)
               then && code == Some(201) && t.job == Job(true, m.jobId, m.filename, m.stopTime)
                    && t.status.usingAlt && t.status.alt.Some? && t.response == was
               else && code == (if !was.usingAlt || i.connectDefault == Connected then Some(500) else None)
                    && t.job == s.job && t.status == s.status && t.response == if code.Some? then Reverted(was) else was
  {
    var m := i.jobs.message;
    SwitchLeaves(cfg, s, m, i);
    var (t, switched) := Switched(cfg, s, m.controlTopic, m.startTime, i);
    StartedLeaves(t, m, i);
    var (u, started) := if switched then StartedWriting(t, m, i) else (t, false);
    RevertLeaves(cfg, u, i.connectDefault);
  }

  /** A start command that does not pass the checks changes nothing. */
  lemma NoAttempt(cfg: Config, s: State, i: Input)
    requires !TriesToStart(cfg, s, i) && s.pool != NoConsumer
    ensures StartProcess(cfg, s, i.jobs, i) == (s, Some(400))
  {
  }

  /** What comes of a start command while nothing is written. */
  lemma StartLeaves(cfg: Config, s: State, i: Input)
    requires Paired(s) && !s.job.writing && i.jobs != Silence && s.pool != NoConsumer
    ensures var (t, code) := StartProcess(cfg, s, i.jobs, i);
            && t.log == s.log && t.halted == s.halted
            && if code == Some(201)
               then && !Orphans(cfg, s, i) && i.jobs.Command? && Paired(t) && t.job.writing
                    && t.job.jobId == i.jobs.message.jobId && t.job.filename == i.jobs.message.filename
               else && (code.Some? ==> code.value >= 400) && !t.job.writing && t.status == s.status
                    && (t.controller.Some? <==> Orphans(cfg, s, i))
  {
    if TriesToStart(cfg, s, i) { AttemptLeaves(cfg, s, i); } else { NoAttempt(cfg, s, i); }
  }

  /** The answer to a start that was not refused. */
  lemma BeginAccounted(cfg: Config, s: State, t: State, m: StartMessage)
    requires Accounted(cfg, s) && !s.halted && !s.job.writing && t.log == s.log
    requires Paired(t) && t.job.writing && t.job.jobId == m.jobId && t.job.filename == m.filename
    ensures var log := t.log + [Echo(t.response.topic, Command(m)), StartAnswer(t.response.topic, m.jobId, 201)];
            Accounted(cfg, t.(log := log, pool := NoConsumer))
  {
    MilestonesAfterAnswer(s.log, t.response.topic, Command(m), m.jobId, 201);
    AlternatingOneMore(cfg, Milestones(s.log), Began(t.response.topic, m.jobId, Command(m)));
  }

  /** A start command keeps the account exactly when it does not leave an orphan. */
  lemma StartAccounted(cfg: Config, s: State, i: Input)
    requires Accounted(cfg, s) && !s.halted && !s.job.writing && i.jobs != Silence && s.pool != NoConsumer
    ensures var t := HandledStart(cfg, s, i.jobs, i).(pool := NoConsumer);
            && !t.halted
            && (if Orphans(cfg, s, i) then !t.job.writing && t.controller.Some? && Milestones(t.log) == Milestones(s.log)
                else Accounted(cfg, t))
  {
    StartLeaves(cfg, s, i);
    var (t, code) := StartProcess(cfg, s, i.jobs, i);
    if code == Some(201) {
      BeginAccounted(cfg, s, t, i.jobs.message);
    } else if code.Some? {
      MilestonesAfterAnswer(s.log, t.response.topic, i.jobs, JobIdOf(i.jobs), code.value);
      assert Milestones(s.log) + [] == Milestones(s.log);
    }
  }

  lemma StopLeaves(cfg: Config, s: State, r: Received<StopMessage>, now: int)
    requires Paired(s) && s.job.writing
    ensures var t := StopProcess(cfg, s, r, now).0;
            && Paired(t) && t.job.writing && t.job.jobId == s.job.jobId && t.job.filename == s.job.filename
            && t.log == s.log && t.halted == s.halted && t.response == s.response
  {
  }

  lemma StopAccounted(cfg: Config, s: State, r: Received<StopMessage>, now: int)
    requires Accounted(cfg, s) && !s.halted && s.job.writing
    ensures Accounted(cfg, HandledStop(cfg, s, r, now)) && !HandledStop(cfg, s, r, now).halted
    ensures HandledStop(cfg, s, r, now).job.writing
  {
    StopLeaves(cfg, s, r, now);
    var (t, code) := StopProcess(cfg, s, r, now);
    var (id, command) := if r.Command? then (r.message.jobId, r.message.commandId) else ("", "");
    MilestonesOneMore(s.log, StopAnswer(t.response.topic, id, command, code));
    assert Milestones(s.log) + [] == Milestones(s.log);
  }

  lemma LoopAccounted(cfg: Config, s: State, i: Input)
    requires Accounted(cfg, s) && !s.halted
    ensures var t := Looped(cfg, s, i);
            if Orphans(cfg, s, i)
            then !t.halted && !t.job.writing && t.controller.Some? && Milestones(t.log) == Milestones(s.log)
            else Accounted(cfg, t)
  {
    if !s.job.writing {
      if s.pool != NoConsumer && i.jobs != Silence { StartAccounted(cfg, s, i); }
    } else if s.source.topic != "" && s.source.consumer != NoConsumer && i.commands != Silence {
      StopAccounted(cfg, s, i.commands, i.now);
    }
  }

  /** The finished message of a job that is written closes it; any other breaks the alternation. */
  lemma FinishAlternatesIff(cfg: Config, s: State, i: Input)
    requires Alternating(cfg, Milestones(s.log)) && !s.halted
    requires if s.job.writing then Paired(s) && Announced(s, Milestones(s.log)) else |Milestones(s.log)| % 2 == 0
    ensures Alternating(cfg, Milestones(SetIdle(cfg, s, i).log)) <==> s.job.writing
    ensures s.job.writing ==> Accounted(cfg, SetIdle(cfg, s, i))
  {
    var file := FilePath(cfg, s.job.filename);
    MilestonesOneMore(s.log, Finished(s.response.topic, s.job.jobId, file, i.hasError));
    AlternatingOneMore(cfg, Milestones(s.log), Ended(s.response.topic, s.job.jobId, file));
  }

  /** One turn keeps the account exactly when it does not orphan a job; no other failure matters, not
      even one that ends the program. */
  lemma TurnAccountedIff(cfg: Config, s: State, i: Input)
    requires Accounted(cfg, s) && !s.halted
    ensures Accounted(cfg, Ran(cfg, s, i)) <==> !Orphans(cfg, s, i)
  {
    LoopAccounted(cfg, s, i);
    var t := Looped(cfg, s, i);
    if !t.halted && t.controller.Some? && IsDone(t.controller.value, i) { FinishAlternatesIff(cfg, t, i); }
  }

  // ---- Every run ----

  ghost predicate AlwaysAccounted(cfg: Config, ts: Turns) {
    Accounted(cfg, StateAfter(cfg, ts)) && (ts.Next? ==> AlwaysAccounted(cfg, ts.prior))
  }

  /** No job was ever orphaned. */
  ghost predicate NeverOrphaned(cfg: Config, ts: Turns) {
    ts.Next? ==>
      var s := StateAfter(cfg, ts.prior);
      NeverOrphaned(cfg, ts.prior) && (s.halted || !Orphans(cfg, s, ts.input))
  }

  lemma {:induction false} EveryRunAccountedIff(cfg: Config, ts: Turns)
    ensures AlwaysAccounted(cfg, ts) <==> NeverOrphaned(cfg, ts)
  {
    match ts
    case NoTurns =>
    case Next(p, i) =>
      EveryRunAccountedIff(cfg, p);
      var s := StateAfter(cfg, p);
      if AlwaysAccounted(cfg, p) && !s.halted { TurnAccountedIff(cfg, s, i); }
  }

  /** In every run that orphans no job, whatever else fails, successful starts and finished messages
      strictly alternate, each finished message with job id, file path and topic of the start before it. */
  lemma EveryRunAlternates(cfg: Config, ts: Turns)
    requires NeverOrphaned(cfg, ts)
    ensures Alternating(cfg, Milestones(StateAfter(cfg, ts).log))
  {
    EveryRunAccountedIff(cfg, ts);
  }

  /** A turn in which nothing arrives, everything can be connected and the controller reports an error. */
  function ErrorOnly(): Input {
    Input(Silence, Silence, Connected, Connected, Connected, true, true, true, Connected, true, true, 0)
  }

  /** After a turn that orphaned a job, an error of its controller is enough. */
  lemma OrphanShows(cfg: Config, s: State, i: Input)
    requires Accounted(cfg, s) && !s.halted && Orphans(cfg, s, i)
    ensures !Alternating(cfg, Milestones(Ran(cfg, Ran(cfg, s, i), ErrorOnly()).log))
  {
    LoopAccounted(cfg, s, i);
    var t := Looped(cfg, s, i);
    assert t.pool == NoConsumer;
    if IsDone(t.controller.value, i) {
      FinishAlternatesIff(cfg, t, i);
    } else {
      FinishAlternatesIff(cfg, t.(pool := On(cfg.poolTopic)), ErrorOnly());
    }
  }

  /** The orphan shows in what is published: the alternation survives a turn and whatever a next turn
      brings that orphans nothing, exactly when the turn itself orphans no job. */
  lemma AlternationSurvivesIff(cfg: Config, s: State, i: Input)
    requires Accounted(cfg, s) && !s.halted
    ensures (forall next :: !Orphans(cfg, Ran(cfg, s, i), next) ==>
               Alternating(cfg, Milestones(Ran(cfg, Ran(cfg, s, i), next).log)))
            <==> !Orphans(cfg, s, i)
  {
    var t := Ran(cfg, s, i);
    TurnAccountedIff(cfg, s, i);
    if Orphans(cfg, s, i) {
      OrphanShows(cfg, s, i);
      assert !Orphans(cfg, t, ErrorOnly());
    } else if !t.halted {
      forall next | !Orphans(cfg, t, next) ensures Alternating(cfg, Milestones(Ran(cfg, t, next).log)) {
        TurnAccountedIff(cfg, t, next);
      }
    }
  }

  /** One concrete failure: a job is created, its status topic is not, and its streams report an error.
      A finished message goes out for a job that nobody announced. */
  lemma OrphanFinishesForNobody(cfg: Config)
    requires cfg.commandTopic == "commands" && cfg.validId("a")
    ensures var s := Initial(cfg).(pool := On(cfg.poolTopic));
            var m := StartMessage("a", "f", "control", 0, 0);
            var i := Input(Command(m), Silence, Connected, Connected, Connected, true, true, false, Connected, true, true, 0);
            && Accounted(cfg, s) && !Alternating(cfg, Milestones(Ran(cfg, s, i).log))
            && Ran(cfg, s, i).log == [Echo("commands", Command(m)), StartAnswer("commands", "a", 500),
                                      Finished("commands", NO_JOB, FilePath(cfg, ""), true)]
  {
    var s := Initial(cfg).(pool := On(cfg.poolTopic));
    var m := StartMessage("a", "f", "control", 0, 0);
    var i := Input(Command(m), Silence, Connected, Connected, Connected, true, true, false, Connected, true, true, 0);
    var (t, code) := StartProcess(cfg, s, i.jobs, i);
    assert code == Some(500) && t.response.topic == "commands" && !t.response.usingAlt && t.job == IdleJob();
    LoopAccounted(cfg, s, i);
    FinishAlternatesIff(cfg, Looped(cfg, s, i), i);
  }

  // ---- Messages that make sense ----

  lemma {:induction false} EchoedIsLast(cfg: Config, log: seq<Published>)
    ensures Heard(cfg, log).last == if Echoed(log).Command? then Some(Echoed(log).message) else None
  {
    if log != [] { EchoedIsLast(cfg, log[..|log| - 1]); }
  }

  /** Messages that make sense alternate, every start is answered on its control topic, and the job taken
      to be running is the one that began last. */
  lemma {:induction false} SoundAlternates(cfg: Config, log: seq<Published>)
    requires Heard(cfg, log).sound
    ensures var ms, open := Milestones(log), Heard(cfg, log).open;
            && Alternating(cfg, ms) && OnControlTopics(ms)
            && (open.Some? <==> |ms| % 2 == 1)
            && (open.Some? ==> ms[|ms| - 1] == Began(open.value.controlTopic, open.value.jobId, Command(open.value)))
  {
    if log != [] {
      var init, p := log[..|log| - 1], log[|log| - 1];
      SoundAlternates(cfg, init);
      EchoedIsLast(cfg, init);
      var ms, more := Milestones(init), MilestoneOf(Echoed(init), p);
      if more == [] { assert ms + more == ms; } else { AlternatingOneMore(cfg, ms, more[0]); }
    }
  }
}
