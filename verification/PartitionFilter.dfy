/** When a partition stops because of what polling returns (src/Stream/PartitionFilter.cpp), with the
    overflow guard on stop times (src/Stream/Partition.cpp). Times are 64-bit nanoseconds. */
module PartitionFilters {
  import opened MachineInts

  datatype PollStatus = Message | Error | EndOfPartition | TimedOut
  datatype PartitionState = DEFAULT | END_OF_PARTITION | ERROR | TIMEOUT

  /** A stop time too close to the largest time is moved back by the leeway. */
  function SanitiseStopTime(stop: int, leeway: int): int {
    if TIME_MAX - stop <= leeway then stop - leeway else stop
  }

  /** A stop time that leaves room for the leeway below the largest time is kept; any other is moved back
      by exactly the leeway. */
  lemma GuardedStopTime(stop: int, leeway: int)
    ensures stop + leeway < TIME_MAX ==> SanitiseStopTime(stop, leeway) == stop
    ensures stop + leeway >= TIME_MAX ==> SanitiseStopTime(stop, leeway) == stop - leeway
  {
  }

  /** The time after which a requested stop time has passed for good: later by the leeway if there is room
      for it. */
  function Deadline(requested: int, leeway: int): int {
    if requested + leeway < TIME_MAX then requested + leeway else requested
  }

  datatype FilterState = FilterState(
    state: PartitionState, occurrence: int, atEnd: bool, stop: int, leeway: int, limit: int)

  function InState(f: FilterState, s: PartitionState, seen: int): FilterState {
    if f.state == s then f else f.(state := s, occurrence := seen)
  }

  predicate ExceededTimeLimit(f: FilterState, now: int) {
    now > Add64(f.occurrence, f.limit)
  }

  predicate TopicTimedOut(f: FilterState, now: int) {
    ExceededTimeLimit(f, now) && f.state == TIMEOUT
  }

  /** State after a poll. The clock is read once to stamp a new state and once more to decide. */
  function AfterPoll(f: FilterState, status: PollStatus, seen: int): FilterState {
    match status
    case Message => f.(atEnd := false, state := DEFAULT)
    case EndOfPartition => f.(atEnd := true, state := END_OF_PARTITION)
    case TimedOut => InState(f, TIMEOUT, seen)
    case Error => InState(f, ERROR, seen)
  }

  predicate Stops(f: FilterState, status: PollStatus, seen: int, now: int) {
    match status
    case TimedOut => f.atEnd && now > Add64(f.stop, f.leeway)
    case Error => ExceededTimeLimit(AfterPoll(f, status, seen), now)
    case _ => false
  }

  class PartitionFilter {
    var state: PartitionState
    var occurrence: int
    var stop: int
    const leeway: int
    const limit: int
    var atEnd: bool

    ghost function View(): FilterState
      reads this
    {
      FilterState(state, occurrence, atEnd, stop, leeway, limit)
    }

    constructor (stop: int, leeway: int, limit: int)
      ensures View() == FilterState(DEFAULT, TIME_MAX, false, SanitiseStopTime(stop, leeway), leeway, limit)
    {
      state, occurrence, atEnd := DEFAULT, TIME_MAX, false;
      this.leeway, this.limit := leeway, limit;
      this.stop := if TIME_MAX - stop <= leeway then stop - leeway else stop;
    }

    method SetStopTime(time: int)
      modifies this`stop
      ensures stop == time
    {
      stop := time;
    }

    method UpdateStatusOccurrenceTime(s: PartitionState, seen: int)
      modifies this`state, this`occurrence
      ensures View() == InState(old(View()), s, seen)
    {
      if state != s {
        state := s;
        occurrence := seen;
      }
    }

    method HasTopicTimedOut(now: int) returns (r: bool)
      ensures r == TopicTimedOut(View(), now)
    {
      r := now > Add64(occurrence, limit) && state == TIMEOUT;
    }

    method ShouldStopPartition(status: PollStatus, seen: int, now: int) returns (r: bool)
      modifies this`state, this`occurrence, this`atEnd
      ensures View() == AfterPoll(old(View()), status, seen)
      ensures r == Stops(old(View()), status, seen, now)
    {
      match status
      case Message =>
        atEnd := false;
        state := DEFAULT;
        return false;
      case EndOfPartition =>
        atEnd := true;
        state := END_OF_PARTITION;
        return false;
      case TimedOut =>
        UpdateStatusOccurrenceTime(TIMEOUT, seen);
        if !atEnd { return false; }
        return now > Add64(stop, leeway);
      case Error =>
        UpdateStatusOccurrenceTime(ERROR, seen);
        return now > Add64(occurrence, limit);
    }
  }

  // ---- The filter seen from the history of polls and stop-time requests ----

  datatype Polls =
    | Begin(stop: int)
    | Polled(prior: Polls, status: PollStatus, seen: int, now: int)
    | StopRequested(prior: Polls, stop: int)

  /** The partition filter inside a partition: every stop time passes the guard first. */
  function StateOf(h: Polls, leeway: int, limit: int): FilterState {
    match h
    case Begin(stop) => FilterState(DEFAULT, TIME_MAX, false, SanitiseStopTime(stop, leeway), leeway, limit)
    case Polled(p, status, seen, _) => AfterPoll(StateOf(p, leeway, limit), status, seen)
    case StopRequested(p, stop) => StateOf(p, leeway, limit).(stop := SanitiseStopTime(stop, leeway))
  }

  function RequestedStop(h: Polls): int {
    match h
    case Begin(stop) => stop
    case Polled(p, _, _, _) => RequestedStop(p)
    case StopRequested(_, stop) => stop
  }

  /** The latest poll had this status. */
  predicate LastPollWas(h: Polls, s: PollStatus) {
    match h
    case Begin(_) => false
    case Polled(_, status, _, _) => status == s
    case StopRequested(p, _) => LastPollWas(p, s)
  }

  /** When the current unbroken run of polls with this status began. */
  function RunStart(h: Polls, s: PollStatus): int
    requires LastPollWas(h, s)
  {
    match h
    case Polled(p, _, seen, _) => if LastPollWas(p, s) then RunStart(p, s) else seen
    case StopRequested(p, _) => RunStart(p, s)
  }

  /** The latest poll that was a message or an end of partition was an end of partition. */
  predicate AtEnd(h: Polls) {
    match h
    case Begin(_) => false
    case Polled(p, status, _, _) => status == EndOfPartition || (status != Message && AtEnd(p))
    case StopRequested(p, _) => AtEnd(p)
  }

  /** Stop times and clock readings are real times that leave room for the time limit. */
  predicate InRange(h: Polls, limit: int) {
    match h
    case Begin(stop) => 0 <= stop <= TIME_MAX
    case Polled(p, _, seen, _) => InRange(p, limit) && 0 <= seen <= TIME_MAX - limit
    case StopRequested(p, stop) => InRange(p, limit) && 0 <= stop <= TIME_MAX
  }

  /** The sum of stop time and leeway never overflows, whatever stop times were requested; the stop time in
      force is the requested one, moved back by the leeway only where the sum would leave the range. */
  lemma {:induction false} StopPlusLeewayInRange(h: Polls, leeway: int, limit: int)
    requires InRange(h, limit) && 0 <= leeway <= TIME_MAX
    ensures var stop := StateOf(h, leeway, limit).stop;
            && -TIME_MAX <= stop && 0 <= stop + leeway <= TIME_MAX
            && Add64(stop, leeway) == stop + leeway
            && stop == (if RequestedStop(h) + leeway < TIME_MAX then RequestedStop(h) else RequestedStop(h) - leeway)
            && stop + leeway == Deadline(RequestedStop(h), leeway)
  {
    match h
    case Begin(_) =>
    case Polled(p, _, _, _) => StopPlusLeewayInRange(p, leeway, limit);
    case StopRequested(p, _) => StopPlusLeewayInRange(p, leeway, limit);
  }

  lemma {:induction false} StateFromPolls(h: Polls, leeway: int, limit: int)
    requires InRange(h, limit) && 0 <= limit
    ensures var f := StateOf(h, leeway, limit);
            && f.atEnd == AtEnd(h) && f.leeway == leeway && f.limit == limit
            && (f.state == ERROR <==> LastPollWas(h, Error))
            && (f.state == TIMEOUT <==> LastPollWas(h, TimedOut))
            && (f.state == ERROR ==> f.occurrence == RunStart(h, Error))
            && (f.state == TIMEOUT ==> f.occurrence == RunStart(h, TimedOut))
            && (f.state == ERROR || f.state == TIMEOUT ==> 0 <= f.occurrence <= TIME_MAX - limit)
  {
    match h
    case Begin(_) =>
    case Polled(p, _, _, _) => StateFromPolls(p, leeway, limit);
    case StopRequested(p, _) => StateFromPolls(p, leeway, limit);
  }

  /** Over any history, polling stops exactly when the unbroken run of errors began more than the limit
      ago, or a poll timed out at the end of the partition and the requested stop time plus leeway has
      passed. */
  lemma StopsExactlyWhen(h: Polls, leeway: int, limit: int, status: PollStatus, seen: int, now: int)
    requires 0 <= leeway <= TIME_MAX && 0 <= limit <= TIME_MAX
    requires InRange(Polled(h, status, seen, now), limit)
    ensures Stops(StateOf(h, leeway, limit), status, seen, now) <==>
            || (status == Error && now > RunStart(Polled(h, status, seen, now), Error) + limit)
            || (status == TimedOut && AtEnd(h) && now > Deadline(RequestedStop(h), leeway))
  {
    StateFromPolls(h, leeway, limit);
    StateFromPolls(Polled(h, status, seen, now), leeway, limit);
    StopPlusLeewayInRange(h, leeway, limit);
    var f := StateOf(Polled(h, status, seen, now), leeway, limit);
    if status == Error { Add64Exact(f.occurrence, limit); }
  }

  /** The time-out report is right from the first poll on, although the sum behind it overflows
      before any state has been stamped. */
  lemma TopicTimedOutExactlyWhen(h: Polls, leeway: int, limit: int, now: int)
    requires InRange(h, limit) && 0 <= limit <= TIME_MAX
    ensures TopicTimedOut(StateOf(h, leeway, limit), now) <==>
            LastPollWas(h, TimedOut) && now > RunStart(h, TimedOut) + limit
  {
    StateFromPolls(h, leeway, limit);
    var f := StateOf(h, leeway, limit);
    if f.state == TIMEOUT { Add64Exact(f.occurrence, limit); }
  }

  lemma FirstSumOverflows(stop: int, leeway: int, limit: int)
    requires 0 < limit <= TIME_MAX
    ensures var f := StateOf(Begin(stop), leeway, limit);
            Add64(f.occurrence, f.limit) < 0 < f.occurrence + f.limit
  {
  }
}
