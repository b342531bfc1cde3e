/** The job protocol: commands in, answers and status out, one writing job at a time
    (src/CommandSystem/Handler.cpp, src/CommandSystem/CommandListener.cpp,
    src/CommandSystem/JobListener.cpp, src/Master.cpp, src/Status/StatusReporterBase.cpp and the parts
    of src/StreamController.cpp that the protocol relies on).

    What brokers, clock and job creation answer is input; failures that the source reports by throwing
    are outcomes. */
module CommandProtocol {
  import opened MachineInts

  const NO_JOB: string := "not_currently_writing"

  datatype StartMessage = StartMessage(
    jobId: string, filename: string, controlTopic: string, startTime: int, stopTime: int)

  datatype StopMessage = StopMessage(jobId: string, commandId: string, stopTime: int)

  /** What the poll of a command source yields; `Unreadable` is of the right kind but cannot be parsed. */
  datatype Received<T> = Silence | Unreadable | Command(message: T)

  /** The outcome of connecting a consumer to a topic. */
  datatype Connect = Connected | NotCreated | NotSubscribed

  datatype Consumer = NoConsumer | Unsubscribed | On(topic: string)

  datatype Listener = Listener(topic: string, startTime: int, consumer: Consumer)

  /** A running job's stream controller, as far as the protocol looks at it. */
  datatype Controller = Controller(stopNow: bool, stopTime: int)

  datatype Published =
    | Echo(topic: string, message: Received<StartMessage>)
    | StartAnswer(topic: string, jobId: string, code: nat)
    | StopAnswer(topic: string, jobId: string, commandId: string, code: nat)
    | Finished(topic: string, jobId: string, file: string, failed: bool)

  /** Settings; `validId` stands for the UUID test. */
  datatype Config = Config(commandTopic: string, poolTopic: string, statusTopic: string, prefix: string,
                           validId: string -> bool)

  datatype Producers = Producers(topic: string, alt: Option<string>, usingAlt: bool)

  datatype Job = Job(writing: bool, jobId: string, filename: string, stopTime: int)

  datatype State = State(
    pool: Consumer, source: Listener, response: Producers, status: Producers,
    job: Job, controller: Option<Controller>, log: seq<Published>, halted: bool)

  function IdleJob(): Job { Job(false, NO_JOB, "", 0) }

  function Initial(cfg: Config): State {
    State(NoConsumer, Listener(cfg.commandTopic, TIME_MAX, NoConsumer),
          Producers(cfg.commandTopic, None, false), Producers(cfg.statusTopic, None, false),
          IdleJob(), None, [], false)
  }

  /** What the environment does during one turn of the main loop. */
  datatype Input = Input(
    jobs: Received<StartMessage>, commands: Received<StopMessage>,
    connectPool: Connect, connectSource: Connect,
    connectControl: Connect, responseCreated: bool, jobCreated: bool, statusCreated: bool, connectDefault: Connect,
    hasError: bool, streaming: bool, now: int)

  // ---- Listeners and producers ----

  function AfterConnect(c: Connect, topic: string, was: Consumer): Consumer {
    match c
    case Connected => On(topic)
    case NotCreated => was
    case NotSubscribed => Unsubscribed
  }

  /** The topic is overwritten before the connection is tried. */
  function ChangedTopic(l: Listener, topic: string, start: int, c: Connect): Listener {
    Listener(topic, start, AfterConnect(c, topic, l.consumer))
  }

  function Alternative(p: Producers, topic: string): Producers {
    Producers(topic, Some(p.topic), true)
  }

  function Reverted(p: Producers): Producers {
    if p.usingAlt && p.alt.Some? then Producers(p.alt.value, Some(p.topic), false) else p
  }

  /** Switching to a job's control topic; the second result is false where the source throws. */
  function Switched(cfg: Config, s: State, topic: string, start: int, i: Input): (State, bool) {
    if topic == "" || topic == cfg.commandTopic then (s, true)
    else
      var t := s.(source := ChangedTopic(s.source, topic, start, i.connectControl));
      if i.connectControl != Connected || !i.responseCreated then (t, false)
      else (t.(response := Alternative(s.response, topic)), true)
  }

  function RevertedTopic(cfg: Config, s: State, c: Connect): (State, bool) {
    if !s.response.usingAlt then (s, true)
    else
      var t := s.(source := ChangedTopic(s.source, cfg.commandTopic, TIME_MAX, c));
      if c != Connected then (t, false) else (t.(response := Reverted(s.response)), true)
  }

  // ---- The job ----

  function StartedWriting(s: State, m: StartMessage, i: Input): (State, bool) {
    if s.job.writing || !i.jobCreated then (s, false)
    else
      var t := s.(controller := Some(Controller(false, m.stopTime)));
      if m.controlTopic != "" && !s.status.usingAlt && !i.statusCreated then (t, false)
      else
        var u := if m.controlTopic != "" && !s.status.usingAlt
                 then t.(status := Alternative(s.status, m.controlTopic)) else t;
        (u.(job := Job(true, m.jobId, m.filename, m.stopTime)), true)
  }

  /** Status code of the answer to a start command; none if an exception escapes before the answer. */
  function StartProcess(cfg: Config, s: State, r: Received<StartMessage>, i: Input): (State, Option<nat>) {
    if !r.Command? then (s, Some(400))
    else
      var m := r.message;
      if s.job.writing || !cfg.validId(m.jobId) || m.controlTopic == "" then (s, Some(400))
      else
        var (t, switched) := Switched(cfg, s, m.controlTopic, m.startTime, i);
        var (u, started) := if switched then StartedWriting(t, m, i) else (t, false);
        if started then (u, Some(201))
        else
          var (v, reverted) := RevertedTopic(cfg, u, i.connectDefault);
          (v, if reverted then Some(500) else None)
  }

  function JobIdOf(r: Received<StartMessage>): string { if r.Command? then r.message.jobId else "" }

  function HandledStart(cfg: Config, s: State, r: Received<StartMessage>, i: Input): State {
    var (t, code) := StartProcess(cfg, s, r, i);
    if code.None? then t
    else t.(log := t.log + [Echo(t.response.topic, r), StartAnswer(t.response.topic, JobIdOf(r), code.value)])
  }

  function StoppedNow(s: State, now: int): (State, bool) {
    if !s.job.writing then (s, false)
    else
      var t := if s.controller.Some? then s.(controller := Some(Controller(true, now))) else s;
      (t.(job := t.job.(stopTime := 0)), true)
  }

  function StopTimeSet(s: State, time: int, now: int): (State, bool)
    requires s.job.writing ==> s.controller.Some?
  {
    if !s.job.writing || s.job.stopTime < now then (s, false)
    else (s.(controller := Some(s.controller.value.(stopTime := time)), job := s.job.(stopTime := time)), true)
  }

  function StopProcess(cfg: Config, s: State, r: Received<StopMessage>, now: int): (State, nat)
    requires s.job.writing ==> s.controller.Some?
  {
    if !r.Command? then (s, 400)
    else
      var m := r.message;
      if !s.job.writing || s.job.jobId != m.jobId || !cfg.validId(m.commandId) then (s, 400)
      else
        var (t, ok) := if m.stopTime == 0 then StoppedNow(s, now) else StopTimeSet(s, m.stopTime, now);
        (t, if ok then 201 else 500)
  }

  function HandledStop(cfg: Config, s: State, r: Received<StopMessage>, now: int): State
    requires s.job.writing ==> s.controller.Some?
  {
    var (t, code) := StopProcess(cfg, s, r, now);
    var (id, command) := if r.Command? then (r.message.jobId, r.message.commandId) else ("", "");
    t.(log := t.log + [StopAnswer(t.response.topic, id, command, code)])
  }

  // ---- One turn of the main loop ----

  /** Jobs are looked for while idle, commands while writing; a missing consumer is set up instead. */
  function Looped(cfg: Config, s: State, i: Input): State
    requires s.job.writing ==> s.controller.Some?
  {
    if !s.job.writing then
      if s.pool == NoConsumer then
        s.(pool := AfterConnect(i.connectPool, cfg.poolTopic, s.pool), halted := i.connectPool != Connected)
      else if i.jobs == Silence then s
      else HandledStart(cfg, s, i.jobs, i).(pool := NoConsumer)
    else if s.source.topic == "" then s
    else if s.source.consumer == NoConsumer then
      s.(source := s.source.(consumer := AfterConnect(i.connectSource, s.source.topic, s.source.consumer)),
         halted := i.connectSource != Connected)
    else if i.commands == Silence then s
    else HandledStop(cfg, s, i.commands, i.now)
  }

  predicate IsDone(c: Controller, i: Input) {
    i.hasError || c.stopNow || (!i.streaming && c.stopTime != 0 && i.now > c.stopTime)
  }

  /** Root directory stripped, then joined to the output prefix. */
  function RelativePath(name: string): string {
    if name != "" && name[0] == '/' then RelativePath(name[1..]) else name
  }

  function FilePath(cfg: Config, filename: string): string {
    var p := cfg.prefix;
    (if p == "" || p[|p| - 1] == '/' then p else p + "/") + RelativePath(filename)
  }

  /** The path is the prefix, a slash if the prefix does not end in one, and the name without its leading
      slashes. */
  lemma FilePathParts(cfg: Config, filename: string) returns (k: nat)
    ensures k <= |filename| && (forall i :: 0 <= i < k ==> filename[i] == '/') && (k < |filename| ==> filename[k] != '/')
    ensures var slash := if cfg.prefix != "" && cfg.prefix[|cfg.prefix| - 1] != '/' then "/" else "";
            FilePath(cfg, filename) == cfg.prefix + slash + filename[k..]
  {
    k := LeadingSlashes(filename);
  }

  lemma {:induction false} LeadingSlashes(name: string) returns (k: nat)
    ensures k <= |name| && (forall i :: 0 <= i < k ==> name[i] == '/') && (k < |name| ==> name[k] != '/')
    ensures RelativePath(name) == name[k..]
  {
    k := 0;
    if name != "" && name[0] == '/' {
      var j := LeadingSlashes(name[1..]);
      k := j + 1;
    }
  }

  function SetIdle(cfg: Config, s: State, i: Input): State {
    var t := s.(log := s.log + [Finished(s.response.topic, s.job.jobId, FilePath(cfg, s.job.filename), i.hasError)]);
    var (u, reverted) := RevertedTopic(cfg, t, i.connectDefault);
    if !reverted then u.(halted := true)
    else u.(controller := None, job := IdleJob(), status := Reverted(u.status))
  }

  function Ran(cfg: Config, s: State, i: Input): (r: State)
    requires s.job.writing ==> s.controller.Some?
    ensures r.job.writing ==> r.controller.Some?
  {
    if s.halted then s
    else
      var t := Looped(cfg, s, i);
      if t.halted || t.controller.None? || !IsDone(t.controller.value, i) then t else SetIdle(cfg, t, i)
  }

  // ---- What the published messages say ----

  /** A listener to the published messages: the last echoed start message, the job taken to be running,
      and whether everything heard so far made sense. */
  datatype Ear = Ear(last: Option<StartMessage>, open: Option<StartMessage>, sound: bool)

  function Hear(cfg: Config, e: Ear, p: Published): Ear {
    match p
    case Echo(_, r) => e.(last := if r.Command? then Some(r.message) else None)
    case StartAnswer(topic, id, code) =>
      if code >= 400 then e
      else if e.open.None? && e.last.Some? && id == e.last.value.jobId && topic == e.last.value.controlTopic
      then e.(open := e.last)
      else e.(sound := false)
    case StopAnswer(_, _, _, _) => e
    case Finished(topic, id, file, _) =>
      if e.open.Some? && id == e.open.value.jobId && topic == e.open.value.controlTopic
         && file == FilePath(cfg, e.open.value.filename)
      then e.(open := None)
      else e.(sound := false)
  }

  function Heard(cfg: Config, log: seq<Published>): Ear {
    if log == [] then Ear(None, None, true) else Hear(cfg, Heard(cfg, log[..|log| - 1]), log[|log| - 1])
  }

  lemma HeardOneMore(cfg: Config, log: seq<Published>, p: Published)
    ensures Heard(cfg, log + [p]) == Hear(cfg, Heard(cfg, log), p)
  {
    assert (log + [p])[..|log|] == log;
  }

  lemma HeardTwoMore(cfg: Config, log: seq<Published>, p: Published, q: Published)
    ensures Heard(cfg, log + [p, q]) == Hear(cfg, Hear(cfg, Heard(cfg, log), p), q)
  {
    HeardOneMore(cfg, log, p);
    HeardOneMore(cfg, log + [p], q);
    assert log + [p] + [q] == log + [p, q];
  }

  // ---- The invariant at loop boundaries ----

  /** A consumer that was set up listens to the topic that is noted. */
  predicate Listening(l: Listener) {
    l.consumer == NoConsumer || l.consumer == On(l.topic)
  }

  ghost predicate Idle(cfg: Config, s: State) {
    && s.job == IdleJob() && s.controller == None
    && s.source.topic == cfg.commandTopic && s.source.startTime == TIME_MAX && Listening(s.source)
    && s.response.topic == cfg.commandTopic && !s.response.usingAlt
    && s.status.topic == cfg.statusTopic && !s.status.usingAlt
  }

  ghost predicate WritingJob(cfg: Config, s: State, m: StartMessage) {
    && s.job.writing && s.job.jobId == m.jobId && s.job.filename == m.filename
    && s.controller.Some? && m.controlTopic != ""
    && s.pool == NoConsumer
    && s.source.startTime == (if m.controlTopic == cfg.commandTopic then TIME_MAX else m.startTime)
    && s.source.topic == m.controlTopic && Listening(s.source) && s.response.topic == m.controlTopic
    && s.response.usingAlt == (m.controlTopic != cfg.commandTopic)
    && (s.response.usingAlt ==> s.response.alt == Some(cfg.commandTopic))
    && s.status == Producers(m.controlTopic, Some(cfg.statusTopic), true)
  }

  /** Everything is on its defaults and no job is announced, or one job is running, all its traffic goes
      to its control topic, and it is the one that was announced. */
  ghost predicate Invariant(cfg: Config, s: State) {
    var e := Heard(cfg, s.log);
    && e.sound
    && match e.open
       case None => Idle(cfg, s)
       case Some(m) => WritingJob(cfg, s, m)
  }

  /** A start command that passes the checks is on the table. */
  predicate TriesToStart(cfg: Config, s: State, i: Input) {
    !s.job.writing && s.pool != NoConsumer && i.jobs.Command?
    && cfg.validId(i.jobs.message.jobId) && i.jobs.message.controlTopic != ""
  }

  /** The failures that the protocol does not recover from: a control topic that cannot be switched to, a
      status topic that cannot be created, or a way back to the default topic that fails after a job
      could not be created. */
  predicate Unrecovered(cfg: Config, s: State, i: Input) {
    TriesToStart(cfg, s, i) &&
      var other := i.jobs.message.controlTopic != cfg.commandTopic;
      || (other && (i.connectControl != Connected || !i.responseCreated))
      || (i.jobCreated && !i.statusCreated)
      || (!i.jobCreated && other && i.connectDefault != Connected)
  }

  // ---- Every turn ----

  lemma AnswerStarted(cfg: Config, s: State, t: State, m: StartMessage)
    requires Heard(cfg, s.log).sound && Heard(cfg, s.log).open.None? && t.log == s.log
    requires WritingJob(cfg, t.(pool := NoConsumer), m)
    ensures var log := t.log + [Echo(m.controlTopic, Command(m)), StartAnswer(m.controlTopic, m.jobId, 201)];
            Invariant(cfg, t.(log := log, pool := NoConsumer))
  {
    HeardTwoMore(cfg, s.log, Echo(m.controlTopic, Command(m)), StartAnswer(m.controlTopic, m.jobId, 201));
  }

  /** The outcome of the start process on an idle service. */
  lemma StartOutcome(cfg: Config, s: State, i: Input)
    requires Idle(cfg, s) && i.jobs != Silence && s.pool != NoConsumer
    ensures var (t, code) := StartProcess(cfg, s, i.jobs, i);
            && t.log == s.log && t.halted == s.halted
            && (!Unrecovered(cfg, s, i) ==>
                  || (code.Some? && code.value >= 400 && Idle(cfg, t))
                  || (code == Some(201) && i.jobs.Command? && WritingJob(cfg, t.(pool := NoConsumer), i.jobs.message)))
            && (Unrecovered(cfg, s, i) ==>
                  && (code.Some? ==> code.value >= 400) && !t.job.writing
                  && (t.controller.Some? || t.source.topic != cfg.commandTopic || t.response.usingAlt))
  {
  }

  lemma AnswerRefused(cfg: Config, log: seq<Published>, topic: string, r: Received<StartMessage>, code: nat)
    requires code >= 400
    ensures var e, e' := Heard(cfg, log), Heard(cfg, log + [Echo(topic, r), StartAnswer(topic, JobIdOf(r), code)]);
            e'.sound == e.sound && e'.open == e.open
  {
    HeardTwoMore(cfg, log, Echo(topic, r), StartAnswer(topic, JobIdOf(r), code));
  }

  /** A start command handled while idle. */
  lemma StartTurn(cfg: Config, s: State, i: Input)
    requires Invariant(cfg, s) && !s.halted && !s.job.writing && s.pool != NoConsumer && i.jobs != Silence
    ensures var t := HandledStart(cfg, s, i.jobs, i).(pool := NoConsumer);
            && !t.halted
            && (!Unrecovered(cfg, s, i) ==> Invariant(cfg, t))
            && (Unrecovered(cfg, s, i) ==>
                  && Heard(cfg, t.log).open.None? && !t.job.writing
                  && (t.controller.Some? || t.source.topic != cfg.commandTopic || t.response.usingAlt))
  {
    StartOutcome(cfg, s, i);
    var (t, code) := StartProcess(cfg, s, i.jobs, i);
    if code == Some(201) {
      AnswerStarted(cfg, s, t, i.jobs.message);
    } else if code.Some? {
      AnswerRefused(cfg, s.log, t.response.topic, i.jobs, code.value);
    }
  }

  /** The end of a job that was announced. */
  lemma FinishTurn(cfg: Config, s: State, i: Input)
    requires Invariant(cfg, s) && !s.halted && s.job.writing
    ensures var t := SetIdle(cfg, s, i);
            && Heard(cfg, t.log).sound && Heard(cfg, t.log).open.None?
            && t.log == s.log + [Finished(s.response.topic, s.job.jobId, FilePath(cfg, s.job.filename), i.hasError)]
            && (t.halted || Invariant(cfg, t))
  {
    HeardOneMore(cfg, s.log, Finished(s.response.topic, s.job.jobId, FilePath(cfg, s.job.filename), i.hasError));
  }

  /** A stop command changes stop times at most. */
  lemma StopKeepsJob(cfg: Config, s: State, m: StartMessage, r: Received<StopMessage>, now: int)
    requires WritingJob(cfg, s, m)
    ensures var t := StopProcess(cfg, s, r, now).0;
            WritingJob(cfg, t, m) && t.log == s.log && t.halted == s.halted && t.response == s.response
  {
  }

  lemma StopTurn(cfg: Config, s: State, r: Received<StopMessage>, now: int)
    requires Invariant(cfg, s) && s.job.writing
    ensures Invariant(cfg, HandledStop(cfg, s, r, now)) && HandledStop(cfg, s, r, now).job.writing
    ensures HandledStop(cfg, s, r, now).halted == s.halted
  {
    var m := Heard(cfg, s.log).open.value;
    StopKeepsJob(cfg, s, m, r, now);
    var (t, code) := StopProcess(cfg, s, r, now);
    var (id, command) := if r.Command? then (r.message.jobId, r.message.commandId) else ("", "");
    var answer := StopAnswer(t.response.topic, id, command, code);
    HeardOneMore(cfg, s.log, answer);
    WritingWithLog(cfg, t, m, t.log + [answer]);
  }

  lemma WritingWithLog(cfg: Config, t: State, m: StartMessage, log: seq<Published>)
    requires WritingJob(cfg, t, m) && Heard(cfg, log).sound && Heard(cfg, log).open == Some(m)
    ensures Invariant(cfg, t.(log := log))
  {
  }

  lemma LoopTurn(cfg: Config, s: State, i: Input)
    requires Invariant(cfg, s) && !s.halted
    ensures var t := Looped(cfg, s, i);
            && (!Unrecovered(cfg, s, i) ==> Heard(cfg, t.log).sound && (t.halted || Invariant(cfg, t)))
            && (Unrecovered(cfg, s, i) ==>
                  && !t.halted && Heard(cfg, t.log).open.None? && !t.job.writing
                  && (t.controller.Some? || t.source.topic != cfg.commandTopic || t.response.usingAlt))
  {
    if !s.job.writing {
      if s.pool != NoConsumer && i.jobs != Silence { StartTurn(cfg, s, i); }
    } else if s.source.consumer != NoConsumer && i.commands != Silence {
      StopTurn(cfg, s, i.commands, i.now);
    }
  }

  lemma BogusFinish(cfg: Config, s: State, i: Input)
    requires Heard(cfg, s.log).open.None?
    ensures !Heard(cfg, SetIdle(cfg, s, i).log).sound
  {
    HeardOneMore(cfg, s.log, Finished(s.response.topic, s.job.jobId, FilePath(cfg, s.job.filename), i.hasError));
  }

  lemma RecoveredTurn(cfg: Config, s: State, i: Input)
    requires Invariant(cfg, s) && !s.halted && !Unrecovered(cfg, s, i)
    ensures Heard(cfg, Ran(cfg, s, i).log).sound && (Ran(cfg, s, i).halted || Invariant(cfg, Ran(cfg, s, i)))
  {
    LoopTurn(cfg, s, i);
    var t := Looped(cfg, s, i);
    if !t.halted && t.controller.Some? && IsDone(t.controller.value, i) { FinishTurn(cfg, t, i); }
  }

  lemma UnrecoveredTurn(cfg: Config, s: State, i: Input)
    requires Invariant(cfg, s) && !s.halted && Unrecovered(cfg, s, i)
    ensures !Invariant(cfg, Ran(cfg, s, i))
  {
    LoopTurn(cfg, s, i);
    var t := Looped(cfg, s, i);
    if t.controller.Some? && IsDone(t.controller.value, i) { BogusFinish(cfg, t, i); }
  }

  /** From a good state one turn leads to a good state, unless it halts the program, exactly when none of
      the unrecovered failures happens; and what is published makes sense even when it halts. */
  lemma TurnKeepsInvariantIff(cfg: Config, s: State, i: Input)
    requires Invariant(cfg, s) && !s.halted
    ensures !Unrecovered(cfg, s, i) ==> Heard(cfg, Ran(cfg, s, i).log).sound
    ensures Ran(cfg, s, i).halted || (Invariant(cfg, Ran(cfg, s, i)) <==> !Unrecovered(cfg, s, i))
  {
    if Unrecovered(cfg, s, i) { UnrecoveredTurn(cfg, s, i); } else { RecoveredTurn(cfg, s, i); }
  }

  // ---- Every run ----

  /** Turns of the main loop, the latest outermost. */
  datatype Turns = NoTurns | Next(prior: Turns, input: Input)

  ghost function StateAfter(cfg: Config, ts: Turns): (s: State)
    ensures s.job.writing ==> s.controller.Some?
  {
    match ts
    case NoTurns => Initial(cfg)
    case Next(p, i) => Ran(cfg, StateAfter(cfg, p), i)
  }

  /** None of the unrecovered failures happened. */
  ghost predicate Recovered(cfg: Config, ts: Turns) {
    match ts
    case NoTurns => true
    case Next(p, i) =>
      Recovered(cfg, p) && (StateAfter(cfg, p).halted || !Unrecovered(cfg, StateAfter(cfg, p), i))
  }

  /** In every run without unrecovered failures the messages make sense throughout, and at every loop
      boundary the service is either idle on its defaults or writing exactly the announced job. */
  lemma {:induction false} EveryRunSound(cfg: Config, ts: Turns)
    requires Recovered(cfg, ts)
    ensures var s := StateAfter(cfg, ts);
            Heard(cfg, s.log).sound && (s.halted || Invariant(cfg, s))
  {
    match ts
    case NoTurns =>
    case Next(p, i) =>
      EveryRunSound(cfg, p);
      if !StateAfter(cfg, p).halted { TurnKeepsInvariantIff(cfg, StateAfter(cfg, p), i); }
  }

  /** A stop command for another job, or with an invalid command id, is refused and changes nothing; one
      that names the running job and asks to stop now ends that job in the same turn. Neither needs the
      topics to be right; where they are, the service is idle afterwards. */
  lemma StopAffectsNamedJobOnly(cfg: Config, s: State, i: Input)
    requires !s.halted && s.job.writing && s.controller.Some?
    requires s.source.topic != "" && s.source.consumer != NoConsumer && i.commands.Command?
    ensures var m := i.commands.message;
            && (m.jobId != s.job.jobId || !cfg.validId(m.commandId) ==>
                  Looped(cfg, s, i) == s.(log := s.log + [StopAnswer(s.response.topic, m.jobId, m.commandId, 400)]))
            && (m.jobId == s.job.jobId && cfg.validId(m.commandId) && m.stopTime == 0 ==>
                  var t := Ran(cfg, s, i);
                  && t.log == s.log + [StopAnswer(s.response.topic, m.jobId, m.commandId, 201),
                                       Finished(s.response.topic, s.job.jobId, FilePath(cfg, s.job.filename), i.hasError)]
                  && (Invariant(cfg, s) && i.connectDefault == Connected ==> Idle(cfg, t)))
  {
    var m := i.commands.message;
    if m.jobId == s.job.jobId && cfg.validId(m.commandId) && m.stopTime == 0 {
      var t := Looped(cfg, s, i);
      assert t.log == s.log + [StopAnswer(s.response.topic, m.jobId, m.commandId, 201)];
      assert t.response == s.response && t.job.jobId == s.job.jobId && t.job.filename == s.job.filename;
      assert Ran(cfg, s, i) == SetIdle(cfg, t, i);
      if Invariant(cfg, s) {
        StopTurn(cfg, s, i.commands, i.now);
        FinishTurn(cfg, t, i);
      }
    }
  }

  /** One concrete failure: the control topic cannot be subscribed to. The service is idle afterwards, but
      its command source is left on the control topic. */
  lemma FailedSwitchLeavesControlTopic(cfg: Config)
    requires cfg.commandTopic == "commands" && cfg.validId("a")
    ensures var s := Initial(cfg).(pool := On(cfg.poolTopic));
            var m := StartMessage("a", "f", "control", 0, 0);
            var i := Input(Command(m), Silence, Connected, Connected, NotSubscribed, true, true, true, Connected, false, true, 0);
            && Invariant(cfg, s) && !Invariant(cfg, Ran(cfg, s, i))
            && !Ran(cfg, s, i).job.writing && Ran(cfg, s, i).source.topic == "control"
            && Ran(cfg, s, i).source.consumer == Unsubscribed
            && Ran(cfg, s, i.(connectControl := NotCreated)).source == Listener("control", 0, NoConsumer)
  {
    var s := Initial(cfg).(pool := On(cfg.poolTopic));
    var m := StartMessage("a", "f", "control", 0, 0);
    var i := Input(Command(m), Silence, Connected, Connected, NotSubscribed, true, true, true, Connected, false, true, 0);
    assert Heard(cfg, []) == Ear(None, None, true);
    TurnKeepsInvariantIff(cfg, s, i);
  }

  // ---- The service itself ----

  /** Handler, master, listeners and status reporter. Each is owned by the one before it and by nobody
      else, so their fields are kept in one object. */
  class Service {
    const cfg: Config
    var pool: Consumer
    var source: Listener
    var response: Producers
    var status: Producers
    var job: Job
    var controller: Option<Controller>
    var log: seq<Published>
    var halted: bool

    ghost function View(): State
      reads this
    {
      State(pool, source, response, status, job, controller, log, halted)
    }

    constructor (cfg: Config)
      ensures this.cfg == cfg && View() == Initial(cfg)
    {
      this.cfg := cfg;
      pool, source := NoConsumer, Listener(cfg.commandTopic, TIME_MAX, NoConsumer);
      response, status := Producers(cfg.commandTopic, None, false), Producers(cfg.statusTopic, None, false);
      job, controller, log, halted := IdleJob(), None, [], false;
    }

    method ChangeTopic(topic: string, start: int, c: Connect) returns (ok: bool)
      modifies this`source
      ensures source == ChangedTopic(old(source), topic, start, c) && ok == (c == Connected)
    {
      source := source.(topic := topic);
      source := source.(startTime := start);
      source := source.(consumer := AfterConnect(c, topic, source.consumer));
      ok := c == Connected;
    }

    method SwitchCommandTopic(topic: string, start: int, i: Input) returns (ok: bool)
      modifies this`source, this`response
      ensures (View(), ok) == Switched(cfg, old(View()), topic, start, i)
    {
      if topic != "" && topic != cfg.commandTopic {
        var connected := ChangeTopic(topic, start, i.connectControl);
        if !connected || !i.responseCreated { return false; }
        response := Producers(topic, Some(response.topic), true);
      }
      return true;
    }

    method RevertCommandTopic(c: Connect) returns (ok: bool)
      modifies this`source, this`response
      ensures (View(), ok) == RevertedTopic(cfg, old(View()), c)
    {
      if response.usingAlt {
        var connected := ChangeTopic(cfg.commandTopic, TIME_MAX, c);
        if !connected { return false; }
        response := Reverted(response);
      }
      return true;
    }

    /** False if the topic could not be created. */
    method UseAlternativeStatusTopic(topic: string, created: bool) returns (ok: bool)
      modifies this`status
      ensures ok == (old(status).usingAlt || created)
      ensures status == if old(status).usingAlt || !created then old(status) else Alternative(old(status), topic)
    {
      if status.usingAlt { return true; }
      if !created { return false; }
      status := Producers(topic, Some(status.topic), true);
      return true;
    }

    method StartWriting(m: StartMessage, i: Input) returns (ok: bool)
      modifies this`controller, this`status, this`job
      ensures (View(), ok) == StartedWriting(old(View()), m, i)
    {
      if job.writing || !i.jobCreated { return false; }
      controller := Some(Controller(false, m.stopTime));
      if m.controlTopic != "" {
        var created := UseAlternativeStatusTopic(m.controlTopic, i.statusCreated);
        if !created { return false; }
      }
      job := Job(true, m.jobId, m.filename, m.stopTime);
      return true;
    }

    method StartWritingProcess(r: Received<StartMessage>, i: Input) returns (code: Option<nat>)
      modifies this`source, this`response, this`controller, this`status, this`job
      ensures (View(), code) == StartProcess(cfg, old(View()), r, i)
    {
      if !r.Command? { return Some(400); }
      var m := r.message;
      if job.writing { return Some(400); }
      if !cfg.validId(m.jobId) { return Some(400); }
      if m.controlTopic == "" { return Some(400); }
      var ok := SwitchCommandTopic(m.controlTopic, m.startTime, i);
      if ok {
        ok := StartWriting(m, i);
      }
      if !ok {
        var reverted := RevertCommandTopic(i.connectDefault);
        return if reverted then Some(500) else None;
      }
      return Some(201);
    }

    method HandleStartCommand(r: Received<StartMessage>, i: Input)
      modifies this`source, this`response, this`controller, this`status, this`job, this`log
      ensures View() == HandledStart(cfg, old(View()), r, i)
    {
      var code := StartWritingProcess(r, i);
      if code.Some? {
        log := log + [Echo(response.topic, r), StartAnswer(response.topic, JobIdOf(r), code.value)];
      }
    }

    method StopNow(now: int) returns (ok: bool)
      modifies this`controller, this`job
      ensures (View(), ok) == StoppedNow(old(View()), now)
    {
      if !job.writing { return false; }
      if controller.Some? {
        controller := Some(controller.value.(stopNow := true));
        controller := Some(controller.value.(stopTime := now));
      }
      job := job.(stopTime := 0);
      return true;
    }

    method SetStopTime(time: int, now: int) returns (ok: bool)
      requires job.writing ==> controller.Some?
      modifies this`controller, this`job
      ensures (View(), ok) == StopTimeSet(old(View()), time, now)
    {
      if !job.writing { return false; }
      if job.stopTime < now { return false; }
      controller := Some(controller.value.(stopTime := time));
      job := job.(stopTime := time);
      return true;
    }

    method StopWritingProcess(r: Received<StopMessage>, now: int) returns (code: nat)
      requires job.writing ==> controller.Some?
      modifies this`controller, this`job
      ensures (View(), code) == StopProcess(cfg, old(View()), r, now)
    {
      if !r.Command? { return 400; }
      var m := r.message;
      if !job.writing { return 400; }
      if job.jobId != m.jobId { return 400; }
      if !cfg.validId(m.commandId) { return 400; }
      var ok;
      if m.stopTime == 0 {
        ok := StopNow(now);
      } else {
        ok := SetStopTime(m.stopTime, now);
      }
      return if ok then 201 else 500;
    }

    method HandleStopCommand(r: Received<StopMessage>, now: int)
      requires job.writing ==> controller.Some?
      modifies this`controller, this`job, this`log
      ensures View() == HandledStop(cfg, old(View()), r, now)
    {
      var code := StopWritingProcess(r, now);
      var id, command := "", "";
      if r.Command? {
        id, command := r.message.jobId, r.message.commandId;
      }
      log := log + [StopAnswer(response.topic, id, command, code)];
    }

    method LoopFunction(i: Input)
      requires !halted && (job.writing ==> controller.Some?)
      modifies this
      ensures View() == Looped(cfg, old(View()), i)
    {
      if !job.writing {
        if pool == NoConsumer {
          pool := AfterConnect(i.connectPool, cfg.poolTopic, pool);
          halted := i.connectPool != Connected;
        } else if i.jobs != Silence {
          HandleStartCommand(i.jobs, i);
          pool := NoConsumer;
        }
      } else if source.topic != "" {
        if source.consumer == NoConsumer {
          source := source.(consumer := AfterConnect(i.connectSource, source.topic, source.consumer));
          halted := i.connectSource != Connected;
        } else if i.commands != Silence {
          HandleStopCommand(i.commands, i.now);
        }
      }
    }

    method SetToIdle(i: Input)
      modifies this
      ensures View() == SetIdle(cfg, old(View()), i)
    {
      log := log + [Finished(response.topic, job.jobId, FilePath(cfg, job.filename), i.hasError)];
      var reverted := RevertCommandTopic(i.connectDefault);
      if !reverted {
        halted := true;
        return;
      }
      controller := None;
      job := IdleJob();
      if status.usingAlt {
        status := Reverted(status);
      }
    }

    method Run(i: Input)
      requires job.writing ==> controller.Some?
      modifies this
      ensures View() == Ran(cfg, old(View()), i)
    {
      if halted { return; }
      LoopFunction(i);
      if !halted && controller.Some? && IsDone(controller.value, i) {
        SetToIdle(i);
      }
    }
  }
}
