/** Setting up a job's writer modules (src/JobCreator.cpp): sorting the configured modules into metadata
    writers, links and streams, and adding the extra modules that streams ask for. */
module JobCreation {
  import opened MachineInts
  import opened Sequences

  // ---- Splitting lists ----

  /** `xs` is made up of `a` and `b`, both in their own order. */
  ghost predicate IsMerge<T>(a: seq<T>, b: seq<T>, xs: seq<T>)
    decreases |xs|
  {
    if xs == [] then a == [] && b == []
    else
      var init, x := xs[..|xs| - 1], xs[|xs| - 1];
      || (a != [] && a[|a| - 1] == x && IsMerge(a[..|a| - 1], b, init))
      || (b != [] && b[|b| - 1] == x && IsMerge(a, b[..|b| - 1], init))
  }

  /** Splitting by a property loses, duplicates and reorders nothing. */
  lemma {:induction false} SplitMerges<T>(p: T -> bool, q: T -> bool, xs: seq<T>)
    requires forall i :: 0 <= i < |xs| ==> p(xs[i]) != q(xs[i])
    ensures IsMerge(Select(p, xs), Select(q, xs), xs)
  {
    if xs != [] {
      var init, x := xs[..|xs| - 1], xs[|xs| - 1];
      SplitMerges(p, q, init);
      assert p(x) != q(x) && xs == init + [x];
      SelectOneMore(p, init, x);
      SelectOneMore(q, init, x);
      var a, b := Select(p, xs), Select(q, xs);
      if p(x) { assert a[..|a| - 1] == Select(p, init); } else { assert b[..|b| - 1] == Select(q, init); }
    }
  }

  // ---- Modules ----

  /** A configured module: the group it sits in, its writer module and its configuration, which may not
      be readable. */
  datatype ModuleInfo = ModuleInfo(group: string, writer: string, config: Option<Settings>)

  datatype Settings = Settings(source: string, topic: Option<string>, name: Option<string>, text: string)

  datatype Item = Item(group: string, name: string, topic: string, source: string, writer: string, config: string,
                       isLink: bool)

  function MdatTest(): ModuleInfo -> bool { (m: ModuleInfo) => m.writer == "mdat" }
  function NotMdatTest(): ModuleInfo -> bool { (m: ModuleInfo) => m.writer != "mdat" }
  function LinkTest(): Item -> bool { (x: Item) => x.isLink }
  function StreamTest(): Item -> bool { (x: Item) => !x.isLink }

  /** The stable partition: metadata modules are taken out of the list. */
  method ExtractMdatModules(modules: seq<ModuleInfo>) returns (rest: seq<ModuleInfo>, mdat: seq<ModuleInfo>)
    ensures rest == Select(NotMdatTest(), modules) && mdat == Select(MdatTest(), modules)
    ensures IsMerge(rest, mdat, modules)
    ensures forall i :: 0 <= i < |mdat| ==> mdat[i].writer == "mdat"
    ensures forall i :: 0 <= i < |rest| ==> rest[i].writer != "mdat"
  {
    rest, mdat := [], [];
    for i := 0 to |modules|
      invariant rest == Select(NotMdatTest(), modules[..i]) && mdat == Select(MdatTest(), modules[..i])
    {
      SelectOneMore(NotMdatTest(), modules[..i], modules[i]);
      SelectOneMore(MdatTest(), modules[..i], modules[i]);
      assert modules[..i + 1] == modules[..i] + [modules[i]];
      if modules[i].writer != "mdat" {
        rest := rest + [modules[i]];
      } else {
        mdat := mdat + [modules[i]];
      }
    }
    assert modules[..|modules|] == modules;
    SplitMerges(NotMdatTest(), MdatTest(), modules);
    SelectedHave(MdatTest(), modules);
    SelectedHave(NotMdatTest(), modules);
  }

  /** The settings of one module; none where the source throws and skips the module: no writer module, an
      unreadable configuration, a link without a name or a stream without a topic. */
  function Extracted(m: ModuleInfo): Option<Item> {
    if m.writer == "" || m.config.None? then None
    else
      var c := m.config.value;
      if m.writer == "link" then
        if c.name.None? then None else Some(Item(m.group, c.name.value, "", c.source, m.writer, c.text, true))
      else
        if c.topic.None? then None else Some(Item(m.group, "", c.topic.value, c.source, m.writer, c.text, false))
  }

  /** Which modules are kept, and which setting each field comes from. */
  lemma ExtractedFields(m: ModuleInfo)
    ensures Extracted(m).Some? <==>
            && m.writer != "" && m.config.Some?
            && (m.writer == "link" ==> m.config.value.name.Some?)
            && (m.writer != "link" ==> m.config.value.topic.Some?)
    ensures Extracted(m).Some? ==>
              var x, c := Extracted(m).value, m.config.value;
              && x.group == m.group && x.writer == m.writer && x.source == c.source && x.config == c.text
              && (x.isLink <==> m.writer == "link")
              && (x.isLink ==> c.name == Some(x.name) && x.topic == "")
              && (!x.isLink ==> c.topic == Some(x.topic) && x.name == "")
  {
  }

  function Readable(): ModuleInfo -> bool { (m: ModuleInfo) => Extracted(m).Some? }

  /** The settings are those of the modules that are kept, in their order. */
  lemma {:induction false} ExtractedInOrder(ms: seq<ModuleInfo>)
    ensures var kept := Select(Readable(), ms);
            && |AllExtracted(ms)| == |kept|
            && forall k :: 0 <= k < |kept| ==> Extracted(kept[k]) == Some(AllExtracted(ms)[k])
  {
    if ms != [] { ExtractedInOrder(ms[..|ms| - 1]); }
  }

  function AllExtracted(ms: seq<ModuleInfo>): seq<Item> {
    if ms == [] then []
    else
      var x := Extracted(ms[|ms| - 1]);
      AllExtracted(ms[..|ms| - 1]) + (if x.Some? then [x.value] else [])
  }

  /** The settings that can be read, in order. */
  method ExtractModuleInformation(modules: seq<ModuleInfo>) returns (items: seq<Item>)
    ensures items == AllExtracted(modules)
  {
    items := [];
    for i := 0 to |modules|
      invariant items == AllExtracted(modules[..i])
    {
      assert modules[..i + 1][..i] == modules[..i];
      var x := Extracted(modules[i]);
      if x.Some? {
        items := items + [x.value];
      }
    }
    assert modules[..|modules|] == modules;
  }

  /** Readable settings are kept in order and divided into links and streams. */
  method SplitLinksAndStreams(modules: seq<ModuleInfo>) returns (links: seq<Item>, streams: seq<Item>)
    ensures links == Select(LinkTest(), AllExtracted(modules)) && streams == Select(StreamTest(), AllExtracted(modules))
    ensures IsMerge(links, streams, AllExtracted(modules))
    ensures forall i :: 0 <= i < |links| ==> links[i].isLink
    ensures forall i :: 0 <= i < |streams| ==> !streams[i].isLink
  {
    var items := ExtractModuleInformation(modules);
    links, streams := Divide(items);
    SplitMerges(LinkTest(), StreamTest(), items);
    SelectedHave(LinkTest(), items);
    SelectedHave(StreamTest(), items);
  }

  method Divide(items: seq<Item>) returns (links: seq<Item>, streams: seq<Item>)
    ensures links == Select(LinkTest(), items) && streams == Select(StreamTest(), items)
  {
    links, streams := [], [];
    for i := 0 to |items|
      invariant links == Select(LinkTest(), items[..i]) && streams == Select(StreamTest(), items[..i])
    {
      SelectOneMore(LinkTest(), items[..i], items[i]);
      SelectOneMore(StreamTest(), items[..i], items[i]);
      assert items[..i + 1] == items[..i] + [items[i]];
      if items[i].isLink {
        links := links + [items[i]];
      } else {
        streams := streams + [items[i]];
      }
    }
    assert items[..|items|] == items;
  }

  // ---- Extra modules ----

  /** The writer modules: for which settings one can be started, which extra modules one enables under a
      configuration, and a rank that goes down from a module to its extras. Starting takes finding the
      group, creating the writer module, initialising it and registering its metadata, all of which can
      throw. */
  datatype Catalogue = Catalogue(
    starts: Item -> bool, extras: (string, string) -> seq<string>, rank: string -> nat)
  {
    ghost predicate WellFounded() {
      forall m, config, i :: 0 <= i < |extras(m, config)| ==> rank(extras(m, config)[i]) < rank(m)
    }
  }

  /** The copy for an extra module keeps group, name, topic and source; its configuration starts empty. */
  function Extra(x: Item, writer: string): Item {
    Item(x.group, x.name, x.topic, x.source, writer, "{}", false)
  }

  function Children(c: Catalogue, x: Item): (r: seq<Item>)
    ensures |r| == |c.extras(x.writer, x.config)|
  {
    var es := c.extras(x.writer, x.config);
    seq(|es|, i requires 0 <= i < |es| => Extra(x, es[i]))
  }

  /** One more than the largest rank. */
  ghost function Height(c: Catalogue, xs: seq<Item>): nat {
    if xs == [] then 0
    else
      var h, r := Height(c, xs[1..]), c.rank(xs[0].writer) + 1;
      if h >= r then h else r
  }

  lemma {:induction false} HeightBelow(c: Catalogue, xs: seq<Item>, bound: nat)
    requires forall i :: 0 <= i < |xs| ==> c.rank(xs[i].writer) < bound
    ensures Height(c, xs) <= bound
  {
    if xs != [] { HeightBelow(c, xs[1..], bound); }
  }

  lemma ChildrenLower(c: Catalogue, x: Item)
    requires c.WellFounded()
    ensures Height(c, Children(c, x)) <= c.rank(x.writer)
  {
    HeightBelow(c, Children(c, x), c.rank(x.writer));
  }

  /** How many items a list grows to. */
  ghost function Weight(c: Catalogue, xs: seq<Item>): nat
    requires c.WellFounded()
    decreases Height(c, xs), |xs|
  {
    if xs == [] then 0
    else
      ChildrenLower(c, xs[0]);
      1 + Weight(c, Children(c, xs[0])) + Weight(c, xs[1..])
  }

  lemma {:induction false} WeightConcat(c: Catalogue, a: seq<Item>, b: seq<Item>)
    requires c.WellFounded()
    ensures Weight(c, a + b) == Weight(c, a) + Weight(c, b)
    decreases |a|
  {
    if a == [] {
      assert a + b == b;
    } else {
      assert (a + b)[1..] == a[1..] + b;
      WeightConcat(c, a[1..], b);
    }
  }

  /** What the worklist turns into: the first pending item, then the rest followed by its extras. */
  ghost function Worklist(c: Catalogue, xs: seq<Item>): seq<Item>
    requires c.WellFounded()
    decreases Weight(c, xs)
  {
    if xs == [] then []
    else
      WeightConcat(c, xs[1..], Children(c, xs[0]));
      [xs[0]] + Worklist(c, xs[1..] + Children(c, xs[0]))
  }

  /** The extras of a whole generation, in order. */
  function AllChildren(c: Catalogue, xs: seq<Item>): seq<Item> {
    if xs == [] then [] else Children(c, xs[0]) + AllChildren(c, xs[1..])
  }

  lemma {:induction false} AllChildrenLower(c: Catalogue, xs: seq<Item>)
    requires c.WellFounded() && xs != []
    ensures Height(c, AllChildren(c, xs)) < Height(c, xs)
  {
    ChildrenLower(c, xs[0]);
    if |xs| > 1 {
      AllChildrenLower(c, xs[1..]);
      HeightConcat(c, Children(c, xs[0]), AllChildren(c, xs[1..]));
    } else {
      assert AllChildren(c, xs) == Children(c, xs[0]);
    }
  }

  lemma {:induction false} HeightConcat(c: Catalogue, a: seq<Item>, b: seq<Item>)
    ensures Height(c, a + b) == if Height(c, a) >= Height(c, b) then Height(c, a) else Height(c, b)
    decreases |a|
  {
    if a == [] {
      assert a + b == b;
    } else {
      assert (a + b)[1..] == a[1..] + b;
      HeightConcat(c, a[1..], b);
    }
  }

  /** The streams, then their extras, then the extras of those, generation by generation. */
  ghost function Generations(c: Catalogue, xs: seq<Item>): seq<Item>
    requires c.WellFounded()
    decreases Height(c, xs)
  {
    if xs == [] then []
    else
      AllChildrenLower(c, xs);
      xs + Generations(c, AllChildren(c, xs))
  }

  /** The worklist works off whole prefixes. */
  lemma {:induction false} WorklistPrefix(c: Catalogue, a: seq<Item>, b: seq<Item>)
    requires c.WellFounded()
    ensures Worklist(c, a + b) == a + Worklist(c, b + AllChildren(c, a))
    decreases |a|
  {
    if a == [] {
      assert a + b == b && b + AllChildren(c, a) == b;
    } else {
      var x, kids := a[0], Children(c, a[0]);
      assert (a + b)[1..] + kids == a[1..] + (b + kids);
      WorklistPrefix(c, a[1..], b + kids);
      assert b + kids + AllChildren(c, a[1..]) == b + AllChildren(c, a);
      assert a == [x] + a[1..];
    }
  }

  /** Scanning a list while appending to it yields breadth-first order. */
  lemma {:induction false} WorklistIsBreadthFirst(c: Catalogue, xs: seq<Item>)
    requires c.WellFounded()
    ensures Worklist(c, xs) == Generations(c, xs)
    decreases Height(c, xs)
  {
    if xs != [] {
      WorklistPrefix(c, xs, []);
      assert xs + [] == xs && [] + AllChildren(c, xs) == AllChildren(c, xs);
      AllChildrenLower(c, xs);
      WorklistIsBreadthFirst(c, AllChildren(c, xs));
    }
  }

  /** The loop that grows the list it scans; none where the source throws because a writer module
      cannot be started. */
  method AddExtraModules(c: Catalogue, streams: seq<Item>) returns (r: Option<seq<Item>>)
    requires c.WellFounded()
    ensures r.Some? <==> forall x :: x in Generations(c, streams) ==> c.starts(x)
    ensures r.Some? ==> r.value == Generations(c, streams)
  {
    var list := streams;
    var i := 0;
    ghost var goal := Worklist(c, streams);
    ghost var passed: seq<Item>, pending := [], streams;
    assert goal == Generations(c, streams) by { WorklistIsBreadthFirst(c, streams); }
    while i < |list|
      invariant list == passed + pending && i == |passed|
      invariant passed + Worklist(c, pending) == goal
      invariant forall k :: 0 <= k < i ==> c.starts(passed[k])
      decreases Weight(c, pending)
    {
      var x := list[i];
      WorklistStep(c, passed, pending);
      if !c.starts(x) {
        assert x in goal;
        return None;
      }
      list := list + Children(c, x);
      i := i + 1;
      passed, pending := passed + [x], pending[1..] + Children(c, x);
    }
    assert pending == [] && passed + [] == passed && goal == list;
    return Some(list);
  }

  /** One turn of the loop: an item is passed and its extras join the end of the list. */
  lemma WorklistStep(c: Catalogue, passed: seq<Item>, pending: seq<Item>)
    requires c.WellFounded() && pending != []
    ensures var x := pending[0]; var pending' := pending[1..] + Children(c, x);
            && (passed + [x]) + Worklist(c, pending') == passed + Worklist(c, pending)
            && (passed + pending) + Children(c, x) == (passed + [x]) + pending'
            && Weight(c, pending') < Weight(c, pending)
    ensures pending[0] in passed + Worklist(c, pending)
  {
    var x, tail, kids := pending[0], pending[1..], Children(c, pending[0]);
    assert pending == [x] + tail;
    PendingShrinks(c, pending);
    Regroup(passed, x, tail, kids);
    Regroup(passed, x, Worklist(c, tail + kids), []);
    assert Worklist(c, pending) == [x] + Worklist(c, tail + kids);
  }

  lemma Regroup(a: seq<Item>, x: Item, b: seq<Item>, c: seq<Item>)
    ensures (a + ([x] + b)) + c == (a + [x]) + (b + c)
    ensures (a + [x]) + b == a + ([x] + b) && x in a + ([x] + b)
  {
    assert (a + ([x] + b))[|a|] == x;
  }

  lemma PendingShrinks(c: Catalogue, pending: seq<Item>)
    requires c.WellFounded() && pending != []
    ensures Weight(c, pending[1..] + Children(c, pending[0])) < Weight(c, pending)
  {
    WeightConcat(c, pending[1..], Children(c, pending[0]));
  }

  /** Everything in the final list belongs to one of the streams: same group, topic and source. */
  ghost predicate StemsFrom(x: Item, streams: seq<Item>) {
    exists s :: s in streams && x.group == s.group && x.topic == s.topic && x.source == s.source && x.name == s.name
  }

  lemma {:induction false} ChildrenStem(c: Catalogue, xs: seq<Item>, streams: seq<Item>)
    requires forall i :: 0 <= i < |xs| ==> StemsFrom(xs[i], streams)
    ensures forall i :: 0 <= i < |AllChildren(c, xs)| ==> StemsFrom(AllChildren(c, xs)[i], streams)
  {
    if xs != [] {
      ChildrenStem(c, xs[1..], streams);
      var kids, s := Children(c, xs[0]), xs[0];
      var root :| root in streams && s.group == root.group && s.topic == root.topic && s.source == root.source && s.name == root.name;
      forall i | 0 <= i < |kids| ensures StemsFrom(kids[i], streams) {
        assert root in streams && kids[i].group == root.group;
      }
    }
  }

  lemma {:induction false} ExtrasInherit(c: Catalogue, xs: seq<Item>, streams: seq<Item>)
    requires c.WellFounded() && forall i :: 0 <= i < |xs| ==> StemsFrom(xs[i], streams)
    ensures forall i :: 0 <= i < |Generations(c, xs)| ==> StemsFrom(Generations(c, xs)[i], streams)
    decreases Height(c, xs)
  {
    if xs != [] {
      AllChildrenLower(c, xs);
      ChildrenStem(c, xs, streams);
      ExtrasInherit(c, AllChildren(c, xs), streams);
    }
  }

  // ---- The whole list by positions ----

  function ExtraNames(c: Catalogue, x: Item): seq<string> { c.extras(x.writer, x.config) }

  /** Where the extras of item `i` begin: after the streams and the extras of all items before it. */
  function BlockStart(c: Catalogue, list: seq<Item>, streams: nat, i: nat): nat
    requires i <= |list|
  {
    if i == 0 then streams else BlockStart(c, list, streams, i - 1) + |ExtraNames(c, list[i - 1])|
  }

  /** The settings of an extra module: its parent's group, name, topic and source, an empty configuration. */
  predicate IsExtra(x: Item, parent: Item, writer: string) {
    && x.writer == writer && x.config == "{}" && !x.isLink
    && x.group == parent.group && x.name == parent.name && x.topic == parent.topic && x.source == parent.source
  }

  /** The extras of item `i` stand in their order from where its block begins. */
  ghost predicate BlockRight(c: Catalogue, list: seq<Item>, streams: nat, i: nat)
    requires i < |list|
  {
    var from, names := BlockStart(c, list, streams, i), ExtraNames(c, list[i]);
    && from + |names| <= |list|
    && forall k :: 0 <= k < |names| ==> IsExtra(list[from + k], list[i], names[k])
  }

  /** The first `i` items have their blocks, and the list ends with the last of them. */
  ghost predicate Blocks(c: Catalogue, list: seq<Item>, streams: nat, i: nat) {
    && i <= |list| && BlockStart(c, list, streams, i) == |list|
    && forall j :: 0 <= j < i ==> BlockRight(c, list, streams, j)
  }

  /** The streams, then for every item in turn a block with exactly its extras, and nothing else. */
  ghost predicate Expansion(c: Catalogue, streams: seq<Item>, list: seq<Item>) {
    && |streams| <= |list| && list[..|streams|] == streams
    && Blocks(c, list, |streams|, |list|)
  }

  lemma {:induction false} BlockStartPrefix(c: Catalogue, list: seq<Item>, more: seq<Item>, streams: nat, i: nat)
    requires i <= |list|
    ensures BlockStart(c, list + more, streams, i) == BlockStart(c, list, streams, i)
  {
    if i > 0 { BlockStartPrefix(c, list, more, streams, i - 1); }
  }

  lemma BlocksOneMore(c: Catalogue, list: seq<Item>, streams: nat, i: nat)
    requires i < |list| && Blocks(c, list, streams, i)
    ensures Blocks(c, list + Children(c, list[i]), streams, i + 1)
  {
    var kids := Children(c, list[i]);
    var all := list + kids;
    forall j | 0 <= j <= i ensures BlockStart(c, all, streams, j) == BlockStart(c, list, streams, j) {
      BlockStartPrefix(c, list, kids, streams, j);
    }
    forall j | 0 <= j < i ensures BlockRight(c, all, streams, j) {
      assert BlockRight(c, list, streams, j);
    }
    assert BlockRight(c, all, streams, i);
  }

  lemma {:induction false} WorklistBlocks(c: Catalogue, streams: nat, passed: seq<Item>, pending: seq<Item>)
    requires c.WellFounded() && Blocks(c, passed + pending, streams, |passed|)
    ensures var all := passed + Worklist(c, pending);
            Blocks(c, all, streams, |all|) && |passed + pending| <= |all| && all[..|passed + pending|] == passed + pending
    decreases Weight(c, pending)
  {
    var list := passed + pending;
    if pending == [] {
      assert passed + Worklist(c, pending) == passed == list;
    } else {
      var x := pending[0];
      var rest := pending[1..] + Children(c, x);
      WorklistStep(c, passed, pending);
      assert list[|passed|] == x;
      BlocksOneMore(c, list, streams, |passed|);
      WorklistBlocks(c, streams, passed + [x], rest);
      var all := passed + Worklist(c, pending);
      assert list == (list + Children(c, x))[..|list|] == all[..|list + Children(c, x)|][..|list|] == all[..|list|];
    }
  }

  /** The final list is the streams followed, item by item, by exactly the extras that each item enables, in
      their order, with their parent's group, name, topic and source. */
  lemma GenerationsExpand(c: Catalogue, streams: seq<Item>)
    requires c.WellFounded()
    ensures Expansion(c, streams, Generations(c, streams))
  {
    assert [] + streams == streams;
    WorklistBlocks(c, |streams|, [], streams);
    assert [] + Worklist(c, streams) == Worklist(c, streams);
    WorklistIsBreadthFirst(c, streams);
  }

  /** No other list has that form. */
  lemma ExpansionUnique(c: Catalogue, streams: seq<Item>, a: seq<Item>, b: seq<Item>)
    requires c.WellFounded() && Expansion(c, streams, a) && Expansion(c, streams, b)
    ensures a == b
  {
    if |a| <= |b| {
      AgreeUpTo(c, streams, a, b, |a|);
      NothingBeyond(c, streams, a, b);
    } else {
      AgreeUpTo(c, streams, b, a, |b|);
      NothingBeyond(c, streams, b, a);
    }
  }

  lemma {:induction false} AgreeUpTo(c: Catalogue, streams: seq<Item>, a: seq<Item>, b: seq<Item>, n: nat)
    requires c.WellFounded() && Expansion(c, streams, a) && Expansion(c, streams, b) && n <= |a| && n <= |b|
    ensures a[..n] == b[..n]
  {
    if n > 0 {
      AgreeUpTo(c, streams, a, b, n - 1);
      SameAt(c, streams, a, b, n - 1);
      assert a[..n] == a[..n - 1] + [a[n - 1]] && b[..n] == b[..n - 1] + [b[n - 1]];
    }
  }

  lemma NothingBeyond(c: Catalogue, streams: seq<Item>, a: seq<Item>, b: seq<Item>)
    requires c.WellFounded() && Expansion(c, streams, a) && Expansion(c, streams, b)
    requires |a| <= |b| && a[..|a|] == b[..|a|]
    ensures a == b
  {
    var n, p := |streams|, |a|;
    if p < |b| {
      BlockStartAgrees(c, a, b, n, p, p);
      var i := BlockOf(c, b, n, p, |b|);
      BlockBefore(c, b, n, i, p);
      BlockStartMonotone(c, b, n, i + 1, p);
      assert false;
    }
    assert a[..|a|] == a && b[..|a|] == b;
  }

  lemma SameAt(c: Catalogue, streams: seq<Item>, a: seq<Item>, b: seq<Item>, p: nat)
    requires c.WellFounded() && Expansion(c, streams, a) && Expansion(c, streams, b)
    requires p < |a| && p < |b| && a[..p] == b[..p]
    ensures a[p] == b[p]
  {
    var n := |streams|;
    if p < n {
      assert a[p] == a[..n][p] && b[p] == b[..n][p];
    } else {
      var i := BlockOf(c, a, n, p, |a|);
      BlockBefore(c, a, n, i, p);
      BlockStartAgrees(c, a, b, n, i, p);
      assert a[i] == a[..p][i] == b[..p][i] == b[i];
      assert BlockRight(c, a, n, i) && BlockRight(c, b, n, i);
      var k := p - BlockStart(c, a, n, i);
      assert IsExtra(a[BlockStart(c, a, n, i) + k], a[i], ExtraNames(c, a[i])[k]);
      assert IsExtra(b[BlockStart(c, b, n, i) + k], b[i], ExtraNames(c, b[i])[k]);
    }
  }

  lemma {:induction false} BlockStartMonotone(c: Catalogue, list: seq<Item>, streams: nat, i: nat, j: nat)
    requires i <= j <= |list|
    ensures BlockStart(c, list, streams, i) <= BlockStart(c, list, streams, j)
  {
    if i < j { BlockStartMonotone(c, list, streams, i, j - 1); }
  }

  /** An item stands before its extras, because ranks go down. */
  lemma {:induction false} BlockBefore(c: Catalogue, list: seq<Item>, streams: nat, i: nat, p: nat)
    requires c.WellFounded() && Blocks(c, list, streams, |list|) && i < |list| && streams <= p < |list|
    requires BlockStart(c, list, streams, i) <= p < BlockStart(c, list, streams, i) + |ExtraNames(c, list[i])|
    ensures i < p
    decreases |list| - i
  {
    if i >= p {
      var j := BlockOf(c, list, streams, i, |list|);
      if j < i { BlockStartMonotone(c, list, streams, j + 1, i); }
      assert BlockRight(c, list, streams, j);
      var k := i - BlockStart(c, list, streams, j);
      assert IsExtra(list[BlockStart(c, list, streams, j) + k], list[j], ExtraNames(c, list[j])[k]);
      assert c.rank(list[i].writer) < c.rank(list[j].writer);
      BlockBefore(c, list, streams, j, i);
    }
  }

  /** The item whose block holds a position. */
  lemma {:induction false} BlockOf(c: Catalogue, list: seq<Item>, streams: nat, p: nat, bound: nat) returns (i: nat)
    requires streams <= p && bound <= |list| && p < BlockStart(c, list, streams, bound)
    ensures i < bound && BlockStart(c, list, streams, i) <= p < BlockStart(c, list, streams, i) + |ExtraNames(c, list[i])|
  {
    if BlockStart(c, list, streams, bound - 1) <= p {
      i := bound - 1;
    } else {
      i := BlockOf(c, list, streams, p, bound - 1);
    }
  }

  lemma {:induction false} BlockStartAgrees(c: Catalogue, a: seq<Item>, b: seq<Item>, streams: nat, i: nat, p: nat)
    requires i <= p <= |a| && p <= |b| && a[..p] == b[..p]
    ensures BlockStart(c, a, streams, i) == BlockStart(c, b, streams, i)
  {
    if i > 0 {
      BlockStartAgrees(c, a, b, streams, i - 1, p);
      assert a[i - 1] == a[..p][i - 1] == b[..p][i - 1] == b[i - 1];
    }
  }
}
