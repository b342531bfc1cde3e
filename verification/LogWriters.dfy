/** Log data with cue tables at a fixed interval (src/WriterModule/f144/f144_Writer.cpp,
    src/WriterModule/ad00/ad00_Writer.cpp and src/WriterModule/da00/da00_Writer.cpp). */
module LogWriters {
  import opened MachineInts
  import opened Sequences
  import opened Shapes
  import ED = ExtensibleDatasets

  // ---- The cue table that the three writers share ----

  datatype Cues = Cues(index: seq<int>, time: seq<int>)

  /** Cue `k` points at entry `(k + 1) * interval - 1` and carries its time; there are as many cues as
      full intervals. */
  ghost predicate ValidCues(c: Cues, time: seq<int>, interval: nat)
    requires interval >= 1
  {
    && |c.index| == |c.time|
    && |c.index| * interval <= |time| < (|c.index| + 1) * interval
    && forall k :: 0 <= k < |c.index| ==> CueAt(c, time, interval, k)
  }

  ghost predicate CueAt(c: Cues, time: seq<int>, interval: nat, k: nat)
    requires k < |c.index| == |c.time|
  {
    && c.index[k] == (k + 1) * interval - 1
    && 0 <= c.index[k] < |time| && c.time[k] == time[c.index[k]]
  }

  lemma Product(n: nat, interval: nat)
    ensures (n + 1) * interval == n * interval + interval
  {
  }

  /** One more entry, with a cue exactly when it completes an interval. */
  lemma CuesOneMore(c: Cues, time: seq<int>, interval: nat, t: int, c': Cues)
    requires interval >= 1 && ValidCues(c, time, interval)
    requires c' == if |time| + 1 - |c.index| * interval < interval then c
                   else Cues(c.index + [|time|], c.time + [t])
    ensures ValidCues(c', time + [t], interval)
  {
    var n := |c.index|;
    assert (n + 1) * interval == n * interval + interval;
    assert (n + 2) * interval == (n + 1) * interval + interval;
    forall k | 0 <= k < n ensures CueAt(c', time + [t], interval, k) {
      assert CueAt(c, time, interval, k);
    }
  }

  // ---- f144: scalar log data ----

  /** Array values are no longer supported; they carry no value here. */
  datatype F144 = F144(timestamp: int, value: Option<real>)

  datatype Stats = Stats(min: real, max: real, sum: real, count: nat)

  /** The metadata stored beside the values. */
  datatype Summary = Summary(min: real, max: real, mean: real)

  datatype F144File = F144File(
    time: seq<int>, values: seq<real>, cues: Cues, writes: nat, lastCued: nat, stats: Stats, summary: Option<Summary>)

  function NewF144File(): F144File {
    F144File([], [], Cues([], []), 0, 0, Stats(0.0, 0.0, 0.0, 0), None)
  }

  function Lesser(a: real, b: real): real { if b < a then b else a }
  function Greater(a: real, b: real): real { if a < b then b else a }

  function WithValue(s: Stats, v: real): (r: Stats)
    ensures r.count > 0
  {
    Stats(if s.count == 0 then v else Lesser(s.min, v), if s.count == 0 then v else Greater(s.max, v), s.sum + v, s.count + 1)
  }

  function SummaryOf(s: Stats): Summary
    requires s.count > 0
  {
    Summary(s.min, s.max, s.sum / s.count as real)
  }

  /** The time is stored before the value is looked at, so an array message leaves only its time. */
  function F144Written(f: F144File, m: F144, interval: nat, metadata: bool): F144File
    requires interval >= 1
  {
    var g := f.(time := f.time + [m.timestamp]);
    if m.value.None? then g
    else
      var writes := f.writes + 1;
      var stats := WithValue(f.stats, m.value.value);
      var k := g.(values := f.values + [m.value.value], writes := writes);
      var h := if metadata then k.(stats := stats, summary := Some(SummaryOf(stats))) else k;
      if (writes - f.lastCued) / interval > 0
      then h.(lastCued := writes, cues := Cues(f.cues.index + [writes - 1], f.cues.time + [m.timestamp]))
      else h
  }

  class F144Writer {
    var time: seq<int>
    var values: seq<real>
    var cueIndex: seq<int>
    var cueTime: seq<int>
    var nrOfWrites: nat
    var lastIndexAtWrite: nat
    var min: real
    var max: real
    var sum: real
    var count: nat
    var summary: Option<Summary>
    const interval: nat
    const metadata: bool

    ghost function View(): F144File
      reads this
    {
      F144File(time, values, Cues(cueIndex, cueTime), nrOfWrites, lastIndexAtWrite, Stats(min, max, sum, count), summary)
    }

    constructor (interval: nat, metadata: bool)
      ensures View() == NewF144File() && this.interval == interval && this.metadata == metadata
    {
      time, values, cueIndex, cueTime := [], [], [], [];
      nrOfWrites, lastIndexAtWrite, count := 0, 0, 0;
      min, max, sum, summary := 0.0, 0.0, 0.0, None;
      this.interval, this.metadata := interval, metadata;
    }

    /** False where the source throws a writer exception. */
    method WriteImpl(m: F144) returns (ok: bool)
      requires interval >= 1 && lastIndexAtWrite <= nrOfWrites
      modifies this
      ensures lastIndexAtWrite <= nrOfWrites
      ensures ok <==> m.value.Some?
      ensures View() == F144Written(old(View()), m, interval, metadata)
    {
      time := time + [m.timestamp];
      if m.value.None? { return false; }
      var v := m.value.value;
      values := values + [v];
      nrOfWrites := nrOfWrites + 1;
      if (nrOfWrites - lastIndexAtWrite) / interval > 0 {
        lastIndexAtWrite := nrOfWrites;
        cueIndex := cueIndex + [nrOfWrites - 1];
        cueTime := cueTime + [m.timestamp];
      }
      if metadata { UpdateStats(v); }
      return true;
    }

    method UpdateStats(v: real)
      modifies this`min, this`max, this`sum, this`count, this`summary
      ensures Stats(min, max, sum, count) == WithValue(old(Stats(min, max, sum, count)), v)
      ensures summary == Some(SummaryOf(Stats(min, max, sum, count)))
    {
      if count == 0 {
        min := v;
        max := v;
      }
      min := Lesser(min, v);
      max := Greater(max, v);
      sum := sum + v;
      count := count + 1;
      summary := Some(Summary(min, max, sum / count as real));
    }
  }

  function F144Of(run: seq<F144>, interval: nat, metadata: bool): F144File
    requires interval >= 1
  {
    if run == [] then NewF144File() else F144Written(F144Of(run[..|run| - 1], interval, metadata), run[|run| - 1], interval, metadata)
  }

  /** Times and values of the scalar messages. */
  function ScalarTimes(run: seq<F144>): seq<int> {
    if run == [] then []
    else ScalarTimes(run[..|run| - 1]) + (if run[|run| - 1].value.Some? then [run[|run| - 1].timestamp] else [])
  }

  function ScalarValues(run: seq<F144>): seq<real> {
    if run == [] then []
    else ScalarValues(run[..|run| - 1]) + (if run[|run| - 1].value.Some? then [run[|run| - 1].value.value] else [])
  }

  lemma DivPositive(a: nat, d: nat)
    requires d >= 1
    ensures a / d > 0 <==> a >= d
  {
    if a >= d { QuotientBelow(a - d, a / d, d); } else { QuotientBelow(a, 1, d); }
  }

  lemma F144StepCues(f: F144File, m: F144, times: seq<int>, interval: nat, metadata: bool)
    requires interval >= 1 && m.value.Some?
    requires f.writes == |times| && f.lastCued == |f.cues.index| * interval && ValidCues(f.cues, times, interval)
    ensures var g := F144Written(f, m, interval, metadata);
            && g.writes == |times| + 1 && g.lastCued == |g.cues.index| * interval
            && ValidCues(g.cues, times + [m.timestamp], interval)
  {
    var n := |f.cues.index|;
    DivPositive(f.writes + 1 - f.lastCued, interval);
    assert (n + 1) * interval == n * interval + interval;
    CuesOneMore(f.cues, times, interval, m.timestamp, F144Written(f, m, interval, metadata).cues);
  }

  /** In every run the cue table is a valid index of the scalar messages: cue `k` is message
      `(k + 1) * interval - 1` of them and carries its time. */
  lemma {:induction false} F144CuesValid(run: seq<F144>, interval: nat, metadata: bool)
    requires interval >= 1
    ensures var f := F144Of(run, interval, metadata);
            && f.values == ScalarValues(run) && f.writes == |ScalarTimes(run)|
            && f.lastCued == |f.cues.index| * interval
            && ValidCues(f.cues, ScalarTimes(run), interval)
  {
    if run != [] {
      var init, m := run[..|run| - 1], run[|run| - 1];
      F144CuesValid(init, interval, metadata);
      if m.value.Some? {
        F144StepCues(F144Of(init, interval, metadata), m, ScalarTimes(init), interval, metadata);
      } else {
        assert ScalarTimes(init) + [] == ScalarTimes(init) && ScalarValues(init) + [] == ScalarValues(init);
      }
    }
  }

  /** No array message was received. */
  predicate AllScalar(run: seq<F144>) {
    run == [] || (run[|run| - 1].value.Some? && AllScalar(run[..|run| - 1]))
  }

  lemma {:induction false} TimeLengths(run: seq<F144>, interval: nat, metadata: bool)
    requires interval >= 1
    ensures |F144Of(run, interval, metadata).time| == |run|
    ensures |ScalarTimes(run)| == |ScalarValues(run)| <= |run|
    ensures |ScalarTimes(run)| == |run| <==> AllScalar(run)
  {
    if run != [] { TimeLengths(run[..|run| - 1], interval, metadata); }
  }

  lemma {:induction false} AllScalarTimes(run: seq<F144>, interval: nat, metadata: bool)
    requires interval >= 1 && AllScalar(run)
    ensures F144Of(run, interval, metadata).time == ScalarTimes(run)
  {
    if run != [] { AllScalarTimes(run[..|run| - 1], interval, metadata); }
  }

  /** The stored times line up with the stored values exactly when no array message was received; the
      cues then index them. */
  lemma F144TimesAlignedIff(run: seq<F144>, interval: nat, metadata: bool)
    requires interval >= 1
    ensures var f := F144Of(run, interval, metadata);
            && (f.time == ScalarTimes(run) <==> AllScalar(run))
            && (|f.time| == |f.values| <==> AllScalar(run))
            && (AllScalar(run) ==> ValidCues(f.cues, f.time, interval))
  {
    TimeLengths(run, interval, metadata);
    F144CuesValid(run, interval, metadata);
    if AllScalar(run) { AllScalarTimes(run, interval, metadata); }
  }

  function Sum(vs: seq<real>): real {
    if vs == [] then 0.0 else Sum(vs[..|vs| - 1]) + vs[|vs| - 1]
  }

  /** Extremes and sum of a list of values. */
  ghost predicate StatsOf(s: Stats, vs: seq<real>) {
    && s.count == |vs| && s.sum == Sum(vs)
    && (vs != [] ==> s.min in vs && s.max in vs)
    && forall i :: 0 <= i < |vs| ==> s.min <= vs[i] <= s.max
  }

  lemma StatsOneMore(s: Stats, vs: seq<real>, v: real)
    requires StatsOf(s, vs)
    ensures StatsOf(WithValue(s, v), vs + [v])
  {
    var all, t := vs + [v], WithValue(s, v);
    assert all[..|vs|] == vs && all[|vs|] == v;
    assert t.min in all && t.max in all;
  }

  /** The stored metadata are the smallest, the largest and the mean value; nothing before the first. */
  ghost predicate SummaryRight(summary: Option<Summary>, vs: seq<real>) {
    if vs == [] then summary.None?
    else
      && summary.Some?
      && var s := summary.value;
         && s.min in vs && s.max in vs && (forall i :: 0 <= i < |vs| ==> s.min <= vs[i] <= s.max)
         && s.mean * |vs| as real == Sum(vs)
  }

  lemma MeanTimesCount(sum: real, n: real)
    requires n > 0.0
    ensures sum / n * n == sum
  {
  }

  lemma SummaryOfRight(s: Stats, vs: seq<real>)
    requires StatsOf(s, vs) && vs != []
    ensures SummaryRight(Some(SummaryOf(s)), vs)
  {
    MeanTimesCount(s.sum, s.count as real);
  }

  /** With metadata turned on, the running statistics are the extremes and the sum of all values written,
      and what is stored says so; with metadata turned off nothing is stored. */
  lemma {:induction false} F144StatsRight(run: seq<F144>, interval: nat, metadata: bool)
    requires interval >= 1
    ensures var f, vs := F144Of(run, interval, metadata), ScalarValues(run);
            if metadata then StatsOf(f.stats, vs) && SummaryRight(f.summary, vs) else f.summary.None?
  {
    if run != [] {
      var init, m := run[..|run| - 1], run[|run| - 1];
      F144StatsRight(init, interval, metadata);
      if m.value.Some? && metadata {
        var was, v := F144Of(init, interval, metadata).stats, m.value.value;
        StatsOneMore(was, ScalarValues(init), v);
        SummaryOfRight(WithValue(was, v), ScalarValues(init) + [v]);
        assert F144Of(run, interval, metadata).stats == WithValue(was, v);
      } else {
        assert ScalarValues(init) + [] == ScalarValues(init);
      }
    }
  }

  // ---- ad00: array data, one frame per message ----

  /** The number of elements handed on is computed from the shape. */
  datatype Ad00 = Ad00(timestamp: int, knownType: bool, frame: ED.Frame)

  class Ad00Writer {
    const values: ED.MultiDimDataset
    var time: seq<int>
    var cueIndex: seq<int>
    var cueTime: seq<int>
    var cueCounter: nat
    const interval: nat

    /** One time per stored frame, and a valid cue table over the times. */
    ghost predicate Valid()
      reads this, values
    {
      && values.View().Valid() && values.extent[0] == |time|
      && interval >= 1
      && ValidCues(Cues(cueIndex, cueTime), time, interval)
      && |time| == |cueIndex| * interval + cueCounter
    }

    constructor (shape: Shape, interval: nat)
      requires interval >= 1
      ensures Valid() && fresh(values) && time == []
    {
      values := new ED.MultiDimDataset(shape);
      time, cueIndex, cueTime, cueCounter := [], [], [], 0;
      this.interval := interval;
    }

    /** False where the source throws: an unknown element type or a frame of the wrong rank; then
        nothing is stored. */
    method WriteImpl(m: Ad00) returns (ok: bool)
      requires Valid() && |m.frame.data| == Size(m.frame.shape)
      modifies this, values
      ensures Valid()
      ensures ok <==> m.knownType && ED.RightRank(old(values.View()), m.frame)
      ensures ok ==> time == old(time) + [m.timestamp]
      ensures ok ==> ED.AppendStep(old(values.View()), values.View(), m.frame)
      ensures !ok ==> time == old(time) && values.View() == old(values.View())
    {
      if !m.knownType { return false; }
      var r := values.AppendArray(m.frame.data, m.frame.shape);
      if r != ED.Outcome.Appended { return false; }
      ghost var cues := Cues(cueIndex, cueTime);
      time := time + [m.timestamp];
      cueCounter := cueCounter + 1;
      if cueCounter == interval {
        cueIndex := cueIndex + [|time| - 1];
        cueTime := cueTime + [m.timestamp];
        cueCounter := 0;
      }
      CuesOneMore(cues, old(time), interval, m.timestamp, Cues(cueIndex, cueTime));
      assert (|cues.index| + 1) * interval == |cues.index| * interval + interval;
      return true;
    }
  }

  // ---- da00: named variables ----

  /** An entry with an element type that the writer knows or not, and the shape of its data. */
  datatype Entry = Entry(name: string, knownType: bool, shape: Shape, payload: int)
  datatype Da00 = Da00(timestamp: int, entries: seq<Entry>)

  /** A stored row of a variable; the filler stands in for a variable that a message did not bring. */
  datatype Row = Data(payload: int) | Missing

  function RowsFor(name: string, entries: seq<Entry>): seq<Row> {
    if entries == [] then []
    else
      var last := entries[|entries| - 1];
      RowsFor(name, entries[..|entries| - 1]) + (if last.name == name then [Data(last.payload)] else [])
  }

  /** The names of the entries that are configured variables, in order. */
  function KnownNames(vars: set<string>, entries: seq<Entry>): seq<string> {
    if entries == [] then []
    else
      var last := entries[|entries| - 1];
      KnownNames(vars, entries[..|entries| - 1]) + (if last.name in vars then [last.name] else [])
  }

  /** A row of this shape can be stored: the dataset was created with the configured shape as its maximum
      on all axes but the first, so the rank has to be right and no size may be larger. */
  predicate FitsVariable(configured: Shape, shape: Shape) {
    |shape| == |configured| && forall i :: 0 <= i < |shape| ==> shape[i] <= configured[i]
  }

  /** The append of an entry to its variable throws. */
  predicate Refused(shapes: map<string, Shape>, e: Entry) {
    e.name in shapes && !(e.knownType && FitsVariable(shapes[e.name], e.shape))
  }

  /** An entry is refused exactly if it is for a variable and has an unknown type, another rank, or a size
      beyond the configured one on some axis; smaller ones are taken. */
  lemma RefusedIff(shapes: map<string, Shape>, e: Entry)
    ensures Refused(shapes, e) <==>
            && e.name in shapes
            && (|| !e.knownType || |e.shape| != |shapes[e.name]|
                || exists i :: 0 <= i < |e.shape| && e.shape[i] > shapes[e.name][i])
  {
  }

  /** How many entries come before the first that is refused. */
  function AcceptedCount(shapes: map<string, Shape>, entries: seq<Entry>): (k: nat)
    ensures k <= |entries|
    ensures forall j :: 0 <= j < k ==> !Refused(shapes, entries[j])
    ensures k < |entries| ==> Refused(shapes, entries[k])
  {
    if entries == [] || Refused(shapes, entries[0]) then 0 else 1 + AcceptedCount(shapes, entries[1..])
  }

  predicate Throws(shapes: map<string, Shape>, entries: seq<Entry>) {
    AcceptedCount(shapes, entries) < |entries|
  }

  /** What a message adds to a variable. A refused entry ends the write: the rows appended before it stay,
      nothing else is added. */
  function Added(shapes: map<string, Shape>, name: string, entries: seq<Entry>): seq<Row> {
    if Throws(shapes, entries) then RowsFor(name, entries[..AcceptedCount(shapes, entries)])
    else Addition(shapes.Keys, name, entries)
  }

  /** What a message without refused entries adds to a variable: its own rows, or a filler if it brought
      none and the number of known entries is not the number of variables. */
  function Addition(vars: set<string>, name: string, entries: seq<Entry>): seq<Row> {
    var rows := RowsFor(name, entries);
    if rows == [] && |KnownNames(vars, entries)| != |vars| then [Missing] else rows
  }

  /** The filler that a variable gets when `known` are the names that were appended. */
  function FillerFor(vars: set<string>, known: seq<string>, name: string): seq<Row> {
    if |known| == |vars| || name in known then [] else [Missing]
  }

  /** Variables with the rows of entries, with fillers, and with all that a message adds. */
  function WithRows(vars: map<string, seq<Row>>, entries: seq<Entry>): map<string, seq<Row>> {
    map n | n in vars :: vars[n] + RowsFor(n, entries)
  }

  function WithFillers(vars: map<string, seq<Row>>, names: set<string>, known: seq<string>): map<string, seq<Row>> {
    map n | n in vars :: vars[n] + FillerFor(names, known, n)
  }

  function WithAdded(vars: map<string, seq<Row>>, shapes: map<string, Shape>, entries: seq<Entry>): map<string, seq<Row>> {
    map n | n in vars :: vars[n] + Added(shapes, n, entries)
  }

  lemma KnownOneMore(vars: map<string, seq<Row>>, entries: seq<Entry>, e: Entry)
    ensures var rows, all := WithRows(vars, entries), WithRows(vars, entries + [e]);
            all == if e.name in vars then rows[e.name := rows[e.name] + [Data(e.payload)]] else rows
    ensures KnownNames(vars.Keys, entries + [e])
            == KnownNames(vars.Keys, entries) + (if e.name in vars then [e.name] else [])
  {
    assert (entries + [e])[..|entries|] == entries;
    var rows, all := WithRows(vars, entries), WithRows(vars, entries + [e]);
    forall n | n in vars ensures all[n] == rows[n] + (if n == e.name then [Data(e.payload)] else []) {
      ConcatRows(vars[n], RowsFor(n, entries), if n == e.name then [Data(e.payload)] else []);
    }
    forall n | n in vars && n != e.name ensures all[n] == rows[n] { NoRows(rows[n]); }
  }

  lemma NoRows(a: seq<Row>)
    ensures a + [] == a
  {
  }

  lemma ConcatRows(a: seq<Row>, b: seq<Row>, c: seq<Row>)
    ensures a + (b + c) == (a + b) + c
  {
  }

  lemma NothingAdded(vars: map<string, seq<Row>>, names: set<string>, known: seq<string>)
    ensures WithRows(vars, []) == vars
    ensures |known| == |names| ==> WithFillers(vars, names, known) == vars
  {
    forall n | n in vars ensures vars[n] + [] == vars[n] { NoRows(vars[n]); }
  }

  class Da00Writer {
    var variables: map<string, seq<Row>>
    const shapes: map<string, Shape>
    var time: seq<int>
    var cueIndex: seq<int>
    var cueTime: seq<int>
    var cueCounter: nat
    var nrOfWrites: nat
    const interval: nat

    ghost predicate Valid()
      reads this
    {
      && interval >= 1 && nrOfWrites == |time| && variables.Keys == shapes.Keys
      && ValidCues(Cues(cueIndex, cueTime), time, interval)
      && |time| == |cueIndex| * interval + cueCounter
    }

    constructor (shapes: map<string, Shape>, interval: nat)
      requires interval >= 1
      ensures Valid() && time == [] && this.shapes == shapes && variables == map n | n in shapes :: []
    {
      variables := map n | n in shapes :: [];
      this.shapes := shapes;
      time, cueIndex, cueTime, cueCounter, nrOfWrites := [], [], [], 0, 0;
      this.interval := interval;
    }

    /** False where the source throws: an entry of a variable has an unknown type or the wrong rank,
        or is larger than the configured shape. */
    method WriteImpl(m: Da00) returns (ok: bool)
      requires Valid()
      modifies this
      ensures Valid()
      ensures ok <==> !Throws(shapes, m.entries)
      ensures time == old(time) + TimesAdded(shapes, m)
      ensures variables == WithAdded(old(variables), shapes, m.entries)
    {
      var order;
      ok, order := AppendKnown(m.entries);
      if ok {
        assert m.entries[..|m.entries|] == m.entries;
        Complete(order, m.timestamp);
        AddedWhole(shapes, old(variables), m.entries);
      }
    }

    /** What follows once all known entries have been appended: fillers, time and cue. */
    method Complete(order: seq<string>, timestamp: int)
      requires Valid()
      modifies this`variables, this`time, this`nrOfWrites, this`cueCounter, this`cueIndex, this`cueTime
      ensures Valid() && time == old(time) + [timestamp]
      ensures variables == WithFillers(old(variables), shapes.Keys, order)
    {
      assert |variables| == |variables.Keys|;
      NothingAdded(variables, shapes.Keys, order);
      if |order| != |variables| {
        FillMissing(order);
      }
      AppendTime(timestamp);
    }

    method AppendTime(timestamp: int)
      requires Valid()
      modifies this`time, this`nrOfWrites, this`cueCounter, this`cueIndex, this`cueTime
      ensures Valid() && time == old(time) + [timestamp]
    {
      ghost var cues := Cues(cueIndex, cueTime);
      time := time + [timestamp];
      nrOfWrites := nrOfWrites + 1;
      cueCounter := cueCounter + 1;
      if cueCounter == interval {
        cueIndex := cueIndex + [nrOfWrites - 1];
        cueTime := cueTime + [timestamp];
        cueCounter := 0;
      }
      CuesOneMore(cues, old(time), interval, timestamp, Cues(cueIndex, cueTime));
      Product(|cues.index|, interval);
    }

    /** Appends until an entry is refused. */
    method AppendKnown(entries: seq<Entry>) returns (ok: bool, order: seq<string>)
      requires variables.Keys == shapes.Keys
      modifies this`variables
      ensures variables.Keys == shapes.Keys
      ensures ok <==> !Throws(shapes, entries)
      ensures var taken := entries[..AcceptedCount(shapes, entries)];
              && order == KnownNames(shapes.Keys, taken)
              && variables == WithRows(old(variables), taken)
    {
      order := [];
      NothingAdded(variables, {}, []);
      for i := 0 to |entries|
        invariant variables.Keys == shapes.Keys
        invariant i <= AcceptedCount(shapes, entries)
        invariant order == KnownNames(shapes.Keys, entries[..i])
        invariant variables == WithRows(old(variables), entries[..i])
      {
        var e := entries[i];
        KnownOneMore(old(variables), entries[..i], e);
        assert entries[..i + 1] == entries[..i] + [e];
        if e.name in variables {
          if !e.knownType || !FitsVariable(shapes[e.name], e.shape) {
            assert Refused(shapes, entries[i]);
            return false, order;
          }
          variables := variables[e.name := variables[e.name] + [Data(e.payload)]];
          order := order + [e.name];
        }
      }
      return true, order;
    }

    method FillMissing(order: seq<string>)
      modifies this`variables
      ensures variables.Keys == old(variables.Keys)
      ensures forall n :: n in variables ==>
                variables[n] == old(variables)[n] + (if n in order then [] else [Missing])
    {
      var names := variables.Keys;
      while names != {}
        invariant names <= variables.Keys == old(variables.Keys)
        invariant forall n :: n in variables ==>
                    variables[n] == old(variables)[n] + (if n in names || n in order then [] else [Missing])
      {
        var n :| n in names;
        if n !in order {
          variables := variables[n := variables[n] + [Missing]];
        }
        names := names - {n};
      }
    }
  }

  lemma {:induction false} KnownIffRows(vars: set<string>, name: string, entries: seq<Entry>)
    requires name in vars
    ensures name in KnownNames(vars, entries) <==> RowsFor(name, entries) != []
  {
    if entries != [] { KnownIffRows(vars, name, entries[..|entries| - 1]); }
  }

  /** A message without refused entries: its rows, then fillers for variables that it did not bring. */
  lemma AddedWhole(shapes: map<string, Shape>, vars: map<string, seq<Row>>, entries: seq<Entry>)
    requires vars.Keys == shapes.Keys && !Throws(shapes, entries)
    ensures WithAdded(vars, shapes, entries)
            == WithFillers(WithRows(vars, entries), shapes.Keys, KnownNames(shapes.Keys, entries))
  {
    var known := KnownNames(shapes.Keys, entries);
    forall n | n in vars
      ensures vars[n] + Added(shapes, n, entries) == (vars[n] + RowsFor(n, entries)) + FillerFor(shapes.Keys, known, n)
    {
      AddedToOne(shapes, n, entries);
      ConcatRows(vars[n], RowsFor(n, entries), FillerFor(shapes.Keys, known, n));
    }
  }

  lemma AddedToOne(shapes: map<string, Shape>, name: string, entries: seq<Entry>)
    requires name in shapes && !Throws(shapes, entries)
    ensures Added(shapes, name, entries)
            == RowsFor(name, entries) + FillerFor(shapes.Keys, KnownNames(shapes.Keys, entries), name)
  {
    KnownIffRows(shapes.Keys, name, entries);
    NoRows(RowsFor(name, entries));
  }

  ghost predicate Distinct(names: seq<string>) {
    forall i, j :: 0 <= i < j < |names| ==> names[i] != names[j]
  }

  function Occurrences(name: string, names: seq<string>): nat {
    if names == [] then 0 else Occurrences(name, names[..|names| - 1]) + (if names[|names| - 1] == name then 1 else 0)
  }

  lemma {:induction false} RowsAreOccurrences(vars: set<string>, name: string, entries: seq<Entry>)
    requires name in vars
    ensures |RowsFor(name, entries)| == Occurrences(name, KnownNames(vars, entries))
  {
    if entries != [] {
      var init, last := entries[..|entries| - 1], entries[|entries| - 1];
      RowsAreOccurrences(vars, name, init);
      var ks := KnownNames(vars, init);
      assert (ks + [last.name])[..|ks|] == ks && ks + [] == ks;
    }
  }

  lemma {:induction false} OccursIffMember(n: string, names: seq<string>)
    ensures Occurrences(n, names) >= 1 <==> n in names
  {
    if names != [] {
      OccursIffMember(n, names[..|names| - 1]);
      assert names == names[..|names| - 1] + [names[|names| - 1]];
    }
  }

  lemma {:induction false} DistinctOccurs(n: string, names: seq<string>)
    requires Distinct(names)
    ensures Occurrences(n, names) <= 1
  {
    if names != [] {
      var init, last := names[..|names| - 1], names[|names| - 1];
      DistinctOccurs(n, init);
      OccursIffMember(n, init);
      assert last !in init;
    }
  }

  lemma {:induction false} RepeatOccursTwice(names: seq<string>, i: nat, j: nat)
    requires i < j < |names| && names[i] == names[j]
    ensures Occurrences(names[i], names) >= 2
    decreases |names|
  {
    var init := names[..|names| - 1];
    if j == |names| - 1 {
      assert init[i] == names[i];
      OccursIffMember(names[i], init);
    } else {
      RepeatOccursTwice(init, i, j);
    }
  }

  lemma {:induction false} KnownAreVariables(vars: set<string>, entries: seq<Entry>)
    ensures forall n :: n in KnownNames(vars, entries) ==> n in vars
  {
    if entries != [] { KnownAreVariables(vars, entries[..|entries| - 1]); }
  }

  /** Distinct names as many as the set they come from are all of it. */
  lemma {:induction false} DistinctNamesCover(names: seq<string>, vars: set<string>)
    requires Distinct(names) && (forall n :: n in names ==> n in vars) && |names| == |vars|
    ensures forall n :: n in vars ==> n in names
  {
    if names != [] {
      var init, last := names[..|names| - 1], names[|names| - 1];
      assert last in names;
      forall n | n in init ensures n in vars - {last} { assert n in names; }
      DistinctNamesCover(init, vars - {last});
      forall n | n in vars ensures n in names {
        if n != last { assert n in vars - {last}; assert n in init; }
      }
    }
  }

  /** A message without refused entries adds exactly one row to every variable exactly when it names no
      variable twice. */
  lemma OneRowEachIffDistinct(vars: set<string>, entries: seq<Entry>)
    ensures (forall n :: n in vars ==> |Addition(vars, n, entries)| == 1) <==> Distinct(KnownNames(vars, entries))
  {
    var known := KnownNames(vars, entries);
    KnownAreVariables(vars, entries);
    if Distinct(known) {
      if |known| == |vars| { DistinctNamesCover(known, vars); }
      forall n | n in vars ensures |Addition(vars, n, entries)| == 1 {
        RowsAreOccurrences(vars, n, entries);
        KnownIffRows(vars, n, entries);
        DistinctOccurs(n, known);
      }
    } else {
      var i, j :| 0 <= i < j < |known| && known[i] == known[j];
      RepeatOccursTwice(known, i, j);
      RowsAreOccurrences(vars, known[i], entries);
      assert |Addition(vars, known[i], entries)| != 1;
    }
  }

  /** The time that a message adds: none if it is not stored to its end. */
  function TimesAdded(shapes: map<string, Shape>, m: Da00): seq<int> {
    if Throws(shapes, m.entries) then [] else [m.timestamp]
  }

  /** No entry is refused and no variable is named twice, or the first known entry is refused. */
  ghost predicate InStepMessage(shapes: map<string, Shape>, entries: seq<Entry>) {
    if Throws(shapes, entries) then KnownNames(shapes.Keys, entries[..AcceptedCount(shapes, entries)]) == []
    else Distinct(KnownNames(shapes.Keys, entries))
  }

  /** A message adds as many rows to every variable as it adds times exactly under that condition. */
  lemma MessageInStepIff(shapes: map<string, Shape>, m: Da00)
    ensures (forall n :: n in shapes ==> |Added(shapes, n, m.entries)| == |TimesAdded(shapes, m)|)
            <==> InStepMessage(shapes, m.entries)
  {
    OneRowEachIffDistinct(shapes.Keys, m.entries);
    if Throws(shapes, m.entries) {
      var taken := m.entries[..AcceptedCount(shapes, m.entries)];
      forall n | n in shapes ensures n in KnownNames(shapes.Keys, taken) <==> |Added(shapes, n, m.entries)| != 0 {
        KnownIffRows(shapes.Keys, n, taken);
      }
      KnownAreVariables(shapes.Keys, taken);
      var known := KnownNames(shapes.Keys, taken);
      if known != [] { assert known[0] in known && known[0] in shapes; }
    } else {
      assert forall n :: n in shapes ==> Added(shapes, n, m.entries) == Addition(shapes.Keys, n, m.entries);
      assert forall n :: n in shapes <==> n in shapes.Keys;
    }
  }

  /** All rows of a variable after a run. */
  function RowsOf(shapes: map<string, Shape>, name: string, run: seq<Da00>): seq<Row> {
    if run == [] then []
    else RowsOf(shapes, name, run[..|run| - 1]) + Added(shapes, name, run[|run| - 1].entries)
  }

  function TimesOf(shapes: map<string, Shape>, run: seq<Da00>): seq<int> {
    if run == [] then [] else TimesOf(shapes, run[..|run| - 1]) + TimesAdded(shapes, run[|run| - 1])
  }

  /** After every message all variables are as long as the time array. */
  ghost predicate InStep(shapes: map<string, Shape>, run: seq<Da00>) {
    && (forall n :: n in shapes ==> |RowsOf(shapes, n, run)| == |TimesOf(shapes, run)|)
    && (run != [] ==> InStep(shapes, run[..|run| - 1]))
  }

  ghost predicate AllInStep(shapes: map<string, Shape>, run: seq<Da00>) {
    run != [] ==> InStepMessage(shapes, run[|run| - 1].entries) && AllInStep(shapes, run[..|run| - 1])
  }

  /** The variables stay as long as the time array exactly when every message is stored whole and names no
      variable twice, or is refused before anything of it is stored. */
  lemma {:induction false} Da00InStepIff(shapes: map<string, Shape>, run: seq<Da00>)
    ensures InStep(shapes, run) <==> AllInStep(shapes, run)
  {
    if run != [] {
      var init, m := run[..|run| - 1], run[|run| - 1];
      Da00InStepIff(shapes, init);
      MessageInStepIff(shapes, m);
      if InStep(shapes, init) {
        assert forall n :: n in shapes ==>
          |RowsOf(shapes, n, run)| == |TimesOf(shapes, init)| + |Added(shapes, n, m.entries)|;
      }
    }
  }

  // ---- da00: what the rows hold ----

  function Named(name: string): Entry -> bool { (e: Entry) => e.name == name }

  /** The rows that entries bring to a variable are the payloads of those with its name, in order. */
  lemma {:induction false} RowsInOrder(name: string, entries: seq<Entry>)
    ensures var own := Select(Named(name), entries);
            && |RowsFor(name, entries)| == |own|
            && forall k :: 0 <= k < |own| ==> RowsFor(name, entries)[k] == Data(own[k].payload)
  {
    if entries != [] { RowsInOrder(name, entries[..|entries| - 1]); }
  }

  /** The row is the payload of an entry with the name, or the filler if there is none. */
  ghost predicate RowRight(row: Row, name: string, entries: seq<Entry>) {
    if row.Missing? then forall i :: 0 <= i < |entries| ==> entries[i].name != name
    else exists i :: 0 <= i < |entries| && entries[i].name == name && entries[i].payload == row.payload
  }

  lemma AddedRight(shapes: map<string, Shape>, name: string, entries: seq<Entry>)
    requires name in shapes && !Throws(shapes, entries) && Distinct(KnownNames(shapes.Keys, entries))
    ensures |Added(shapes, name, entries)| == 1 && RowRight(Added(shapes, name, entries)[0], name, entries)
  {
    OneRowEachIffDistinct(shapes.Keys, entries);
    assert name in shapes.Keys;
    RowsInOrder(name, entries);
    if RowsFor(name, entries) == [] {
      forall i | 0 <= i < |entries| ensures entries[i].name != name {
        if entries[i].name == name { SelectsSome(Named(name), entries, i); }
      }
    } else {
      var i := SelectedFrom(Named(name), entries, 0);
    }
  }

  /** The messages that were stored to the end. */
  function Stored(shapes: map<string, Shape>, run: seq<Da00>): seq<Da00> {
    if run == [] then []
    else
      var m := run[|run| - 1];
      Stored(shapes, run[..|run| - 1]) + (if Throws(shapes, m.entries) then [] else [m])
  }

  /** As long as variables and time stay in step, row and time `k` are those of the `k`-th stored message. */
  lemma {:induction false} RowsBelongToTimes(shapes: map<string, Shape>, run: seq<Da00>, name: string)
    requires name in shapes && AllInStep(shapes, run)
    ensures var ms, rows, times := Stored(shapes, run), RowsOf(shapes, name, run), TimesOf(shapes, run);
            && |rows| == |times| == |ms|
            && forall k :: 0 <= k < |ms| ==> times[k] == ms[k].timestamp && RowRight(rows[k], name, ms[k].entries)
  {
    if run != [] {
      var init, m := run[..|run| - 1], run[|run| - 1];
      RowsBelongToTimes(shapes, init, name);
      if Throws(shapes, m.entries) {
        KnownIffRows(shapes.Keys, name, m.entries[..AcceptedCount(shapes, m.entries)]);
        assert Added(shapes, name, m.entries) == [];
      } else {
        AddedRight(shapes, name, m.entries);
      }
    }
  }

  /** A message for two variables of shape [2] whose second entry has the given shape. */
  function TwoEntries(second: Shape): Da00 {
    Da00(7, [Entry("a", true, [2], 10), Entry("b", true, second, 20)])
  }

  /** If that shape does not fit, the first variable has a row and time has none. */
  lemma SecondEntryRefused(second: Shape)
    requires !FitsVariable([2], second)
    ensures var shapes, m := map["a" := [2], "b" := [2]], TwoEntries(second);
            && Distinct(KnownNames(shapes.Keys, m.entries))
            && RowsOf(shapes, "a", [m]) == [Data(10)] && TimesOf(shapes, [m]) == [] && !InStep(shapes, [m])
  {
    var shapes, m := map["a" := [2], "b" := [2]], TwoEntries(second);
    var es := m.entries;
    assert es[..1] == [es[0]] && es[..2] == es && es[..1][..0] == [] && [m][..0] == [];
    assert Refused(shapes, es[1]) && !Refused(shapes, es[0]);
    assert AcceptedCount(shapes, es) == 1;
    assert KnownNames(shapes.Keys, es[..1]) == ["a"];
    assert |es| == 2 && KnownNames(shapes.Keys, es) == KnownNames(shapes.Keys, es[..1]) + ["b"];
    assert RowsFor("a", es[..1]) == [Data(10)];
    assert RowsOf(shapes, "a", [m]) == [] + Added(shapes, "a", es);
    assert "a" in shapes && |RowsOf(shapes, "a", [m])| == 1;
  }

  /** Distinct names, known types, right ranks, and an entry larger than configured. */
  lemma TooWideLosesStep()
    ensures var shapes, m := map["a" := [2], "b" := [2]], TwoEntries([3]);
            RowsOf(shapes, "a", [m]) == [Data(10)] && TimesOf(shapes, [m]) == [] && !InStep(shapes, [m])
  {
    assert [3][0] > [2][0];
    SecondEntryRefused([3]);
  }

  /** Distinct names, known types, and an entry of the wrong rank. */
  lemma WrongRankLosesStep()
    ensures var shapes, m := map["a" := [2], "b" := [2]], TwoEntries([2, 1]);
            RowsOf(shapes, "a", [m]) == [Data(10)] && TimesOf(shapes, [m]) == [] && !InStep(shapes, [m])
  {
    SecondEntryRefused([2, 1]);
  }
}
