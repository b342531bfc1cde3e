/** The time-window filter in front of the writer modules (src/Stream/SourceFilter.cpp).
    Times are system-clock nanoseconds. */
module SourceFilters {
  import opened MachineInts

  /** A decoded message: the parts that the filter looks at, and the payload as an opaque id. */
  datatype Message = Message(sourceHash: nat, valid: bool, timestamp: int, payload: int)

  /** A message handed to the writer modules, flagged if it was the held one. */
  datatype Forward = Forward(message: Message, buffered: bool)

  /** Message timestamps are cut to microseconds, toward zero as `duration_cast` does. */
  function ToTimepoint(timestamp: int): int {
    if timestamp >= 0 then timestamp - timestamp % 1000 else timestamp + (-timestamp) % 1000
  }

  /** What the cut is: the whole microsecond next to the timestamp on the side of zero. */
  lemma TimepointIsWholeMicrosecond(timestamp: int)
    ensures ToTimepoint(timestamp) % 1000 == 0
    ensures timestamp >= 0 ==> 0 <= ToTimepoint(timestamp) <= timestamp < ToTimepoint(timestamp) + 1000
    ensures timestamp <= 0 ==> ToTimepoint(timestamp) - 1000 < timestamp <= ToTimepoint(timestamp) <= 0
  {
  }

  lemma TimepointMonotone(a: int, b: int)
    requires a <= b
    ensures ToTimepoint(a) <= ToTimepoint(b)
  {
  }

  datatype Counters = Counters(
    received: nat, transmitted: nat, discarded: nat, invalid: nat, repeated: nat, unordered: nat)

  datatype Filter = Filter(
    start: int, stop: int, allowRepeats: bool, sourceHash: nat,
    lastSeen: int, finished: bool, held: Option<Message>, counters: Counters)

  function NewFilter(start: int, stop: int, allowRepeats: bool, sourceHash: nat): Filter {
    Filter(start, stop, allowRepeats, sourceHash, 0, false, None, Counters(0, 0, 0, 0, 0, 0))
  }

  /** Sending the held message, if there is one. */
  function Flush(f: Filter): (Filter, seq<Forward>) {
    match f.held
    case None => (f, [])
    case Some(m) =>
      (f.(held := None, counters := f.counters.(transmitted := f.counters.transmitted + 1)), [Forward(m, true)])
  }

  /** One message through the filter. */
  function Step(f: Filter, m: Message): (Filter, seq<Forward>) {
    if m.sourceHash != f.sourceHash then (f, [])
    else
      var f1 := f.(counters := f.counters.(received := f.counters.received + 1));
      if f.finished then (Discard(f1), [])
      else if !m.valid then
        (Discard(f1.(counters := f1.counters.(invalid := f1.counters.invalid + 1))), [])
      else if m.timestamp == f.lastSeen && !f.allowRepeats then
        (Discard(f1.(counters := f1.counters.(repeated := f1.counters.repeated + 1))), [])
      else Accept(Seen(f1, m), m)
  }

  function Discard(f: Filter): Filter {
    f.(counters := f.counters.(discarded := f.counters.discarded + 1))
  }

  function Seen(f: Filter, m: Message): Filter {
    f.(lastSeen := m.timestamp,
       counters := f.counters.(
         repeated := f.counters.repeated + (if m.timestamp == f.lastSeen then 1 else 0),
         unordered := f.counters.unordered + (if m.timestamp < f.lastSeen then 1 else 0)))
  }

  function Accept(f: Filter, m: Message): (Filter, seq<Forward>) {
    var t := ToTimepoint(m.timestamp);
    if t < f.start then
      if f.held.Some? && t < ToTimepoint(f.held.value.timestamp) then (Discard(f), [])
      else (f.(held := Some(m)), [])
    else if t > f.stop then Flush(f.(finished := true))
    else
      var (f1, out) := Flush(f);
      (f1.(counters := f1.counters.(transmitted := f1.counters.transmitted + 1)), out + [Forward(m, false)])
  }

  /** The queue of the writer thread, in the order in which messages were added. */
  datatype Write = Write(destination: nat, message: Message, buffered: bool)

  class MessageQueue {
    var queue: seq<Write>
    constructor () ensures queue == [] { queue := []; }
  }

  /** The writes that a list of forwards causes: each goes to every destination in turn. */
  function WritesOf(out: seq<Forward>, destinations: seq<nat>): seq<Write> {
    if out == [] then []
    else WritesOf(out[..|out| - 1], destinations) + Fan(out[|out| - 1], destinations)
  }

  function Fan(fw: Forward, destinations: seq<nat>): (r: seq<Write>)
    ensures |r| == |destinations|
  {
    seq(|destinations|, i requires 0 <= i < |destinations| => Write(destinations[i], fw.message, fw.buffered))
  }

  class SourceFilter {
    const start: int
    var stop: int
    const allowRepeats: bool
    var sourceHash: nat
    var lastSeen: int
    var finished: bool
    var held: Option<Message>
    var destinations: seq<nat>
    const writer: MessageQueue
    var counters: Counters

    ghost function View(): Filter
      reads this
    {
      Filter(start, stop, allowRepeats, sourceHash, lastSeen, finished, held, counters)
    }

    constructor (start: int, stop: int, allowRepeats: bool, writer: MessageQueue)
      ensures View() == NewFilter(start, stop, allowRepeats, 0) && destinations == [] && this.writer == writer
    {
      this.start, this.stop, this.allowRepeats, this.writer := start, stop, allowRepeats, writer;
      lastSeen, finished, held, destinations, sourceHash := 0, false, None, [], 0;
      counters := Counters(0, 0, 0, 0, 0, 0);
    }

    method AddWriterModule(destination: nat)
      modifies this`destinations
      ensures destinations == old(destinations) + [destination]
    {
      destinations := destinations + [destination];
    }

    method SetSourceHash(hash: nat)
      modifies this`sourceHash
      ensures sourceHash == hash
    {
      sourceHash := hash;
    }

    method SetStopTime(time: int)
      modifies this`stop
      ensures stop == time
    {
      stop := time;
    }

    method ForwardMessage(m: Message, isBuffered: bool)
      modifies this`counters, writer
      ensures counters == old(counters).(transmitted := old(counters).transmitted + 1)
      ensures writer.queue == old(writer.queue) + Fan(Forward(m, isBuffered), destinations)
    {
      counters := counters.(transmitted := counters.transmitted + 1);
      for i := 0 to |destinations|
        modifies writer
        invariant writer.queue == old(writer.queue) + Fan(Forward(m, isBuffered), destinations[..i])
      {
        writer.queue := writer.queue + [Write(destinations[i], m, isBuffered)];
        assert Fan(Forward(m, isBuffered), destinations[..i + 1])
            == Fan(Forward(m, isBuffered), destinations[..i]) + [Write(destinations[i], m, isBuffered)];
      }
      assert destinations[..|destinations|] == destinations;
    }

    /** Also the whole of the destructor. */
    method ForwardBufferedMessage()
      modifies this`counters, this`held, writer
      ensures View() == Flush(old(View())).0
      ensures writer.queue == old(writer.queue) + WritesOf(Flush(old(View())).1, destinations)
    {
      if held.Some? {
        assert WritesOf([Forward(held.value, true)], destinations)
            == Fan(Forward(held.value, true), destinations) by {
          assert [Forward(held.value, true)][..0] == [];
        }
        ForwardMessage(held.value, true);
        held := None;
      }
    }

    method FilterMessage(m: Message) returns (processed: bool)
      modifies this`counters, this`lastSeen, this`finished, this`held, writer
      ensures View() == Step(old(View()), m).0
      ensures writer.queue == old(writer.queue) + WritesOf(Step(old(View()), m).1, destinations)
      ensures processed <==> exists fw :: fw in Step(old(View()), m).1 && !fw.buffered
    {
      assert WritesOf([], destinations) == [];
      if m.sourceHash != sourceHash { return false; }
      counters := counters.(received := counters.received + 1);
      ghost var counted := View();
      if finished {
        counters := counters.(discarded := counters.discarded + 1);
        return false;
      }
      if !m.valid {
        counters := counters.(discarded := counters.discarded + 1);
        counters := counters.(invalid := counters.invalid + 1);
        return false;
      }
      if m.timestamp == lastSeen {
        counters := counters.(repeated := counters.repeated + 1);
        if !allowRepeats {
          counters := counters.(discarded := counters.discarded + 1);
          return false;
        }
      } else if m.timestamp < lastSeen {
        counters := counters.(unordered := counters.unordered + 1);
      }
      lastSeen := m.timestamp;
      assert View() == Seen(counted, m) && Step(old(View()), m) == Accept(Seen(counted, m), m);
      processed := AcceptMessage(m);
    }

    /** The window test, the second half of `filter_message`. */
    method AcceptMessage(m: Message) returns (processed: bool)
      modifies this`counters, this`finished, this`held, writer
      ensures View() == Accept(old(View()), m).0
      ensures writer.queue == old(writer.queue) + WritesOf(Accept(old(View()), m).1, destinations)
      ensures processed <==> exists fw :: fw in Accept(old(View()), m).1 && !fw.buffered
    {
      assert WritesOf([], destinations) == [];
      var messageTime := ToTimepoint(m.timestamp);
      if messageTime < start {
        if held.Some? && messageTime < ToTimepoint(held.value.timestamp) {
          counters := counters.(discarded := counters.discarded + 1);
          return false;
        }
        held := Some(m);
        return false;
      }
      if messageTime > stop {
        finished := true;
        ForwardBufferedMessage();
        return false;
      }
      ghost var out := Flush(View()).1;
      ghost var all := out + [Forward(m, false)];
      assert all[..|out|] == out && all[|out|] == Forward(m, false);
      ForwardBufferedMessage();
      ForwardMessage(m, false);
      return true;
    }
  }
}
