/** pprof to a V8 trace: stacks interned into a tree of nodes, and each sample's
    time spread over its count. */
module TraceTree {
  import opened Wrappers
  import opened Int64
  import opened Text
  import P = Pprof
  import opened V8

  datatype Node = Node(id: int, frame: CallFrame, children: seq<int>)

  type Keys = map<(int, CallFrame), int>

  const ROOT := CallFrame("(root)", "0", "", -1, -1)

  // --------------------------------------------------------------- the trie

  /** Ids of the nodes whose parent is `p`, in increasing order. */
  ghost function ChildrenOf(parents: seq<int>, p: int): seq<int> {
    if parents == [] then []
    else
      var n := |parents| - 1;
      ChildrenOf(parents[..n], p) + if parents[n] == p then [n + 1] else []
  }

  ghost predicate Shape(nodes: seq<Node>, parents: seq<int>) {
    && |nodes| == |parents| >= 1
    && nodes[0].frame == ROOT && parents[0] == 0
    && (forall i :: 0 <= i < |nodes| ==> nodes[i].id == i + 1)
    && (forall i :: 1 <= i < |parents| ==> 1 <= parents[i] <= i)
  }

  function Frames(nodes: seq<Node>): seq<CallFrame> {
    seq(|nodes|, i requires 0 <= i < |nodes| => nodes[i].frame)
  }

  /** Every node but the root is found by its key. */
  ghost predicate KeysLead(frames: seq<CallFrame>, keys: Keys, parents: seq<int>)
    requires |frames| == |parents|
  {
    forall i :: 1 <= i < |frames| ==> (parents[i], frames[i]) in keys && keys[(parents[i], frames[i])] == i + 1
  }

  /** There is no other key. */
  ghost predicate KeysOnly(frames: seq<CallFrame>, keys: Keys, parents: seq<int>)
    requires |frames| == |parents|
  {
    forall k :: k in keys ==> 2 <= keys[k] <= |frames| && k == (parents[keys[k] - 1], frames[keys[k] - 1])
  }

  ghost predicate KeysMatch(nodes: seq<Node>, keys: Keys, parents: seq<int>)
    requires |nodes| == |parents|
  {
    KeysLead(Frames(nodes), keys, parents) && KeysOnly(Frames(nodes), keys, parents)
  }

  ghost predicate ChildrenMatch(nodes: seq<Node>, parents: seq<int>) {
    forall i :: 0 <= i < |nodes| ==> nodes[i].children == ChildrenOf(parents, i + 1)
  }

  /** Ids are dense; every node but the root has exactly one parent, of smaller id, whose children list holds it once
      and whose key leads to it; there are no other keys and no other children. */
  ghost predicate ValidTrie(nodes: seq<Node>, keys: Keys, parents: seq<int>) {
    Shape(nodes, parents) && KeysMatch(nodes, keys, parents) && ChildrenMatch(nodes, parents)
  }

  /** The frames from below the root down to node `id`. */
  ghost function Path(nodes: seq<Node>, parents: seq<int>, id: int): seq<CallFrame>
    requires |nodes| == |parents|
    decreases id
  {
    if 1 < id <= |nodes| && parents[id - 1] < id then Path(nodes, parents, parents[id - 1]) + [nodes[id - 1].frame]
    else []
  }

  /** Later nodes and longer children lists, but the same tree so far. */
  ghost predicate Extends(nodes: seq<Node>, parents: seq<int>, nodes': seq<Node>, parents': seq<int>) {
    && |nodes| == |parents| <= |nodes'| == |parents'|
    && (forall i :: 0 <= i < |nodes| ==> nodes'[i].frame == nodes[i].frame && parents'[i] == parents[i])
  }

  lemma {:induction false} PathKept(nodes: seq<Node>, parents: seq<int>, nodes': seq<Node>, parents': seq<int>, id: int)
    requires Extends(nodes, parents, nodes', parents') && id <= |nodes|
    ensures Path(nodes', parents', id) == Path(nodes, parents, id)
    decreases id
  {
    if 1 < id && parents[id - 1] < id {
      PathKept(nodes, parents, nodes', parents', parents[id - 1]);
    }
  }

  /** In a valid trie a path leads to one node only. */
  lemma {:induction false} PathInjective(nodes: seq<Node>, keys: Keys, parents: seq<int>, a: int, b: int)
    requires ValidTrie(nodes, keys, parents) && 1 <= a <= |nodes| && 1 <= b <= |nodes|
    requires Path(nodes, parents, a) == Path(nodes, parents, b)
    ensures a == b
    decreases a
  {
    if a > 1 && b > 1 {
      var p, q := Path(nodes, parents, parents[a - 1]), Path(nodes, parents, parents[b - 1]);
      var f, g := nodes[a - 1].frame, nodes[b - 1].frame;
      assert (p + [f])[..|p|] == p && (q + [g])[..|q|] == q;
      assert (p + [f])[|p|] == f && (q + [g])[|q|] == g;
      PathInjective(nodes, keys, parents, parents[a - 1], parents[b - 1]);
    }
  }

  lemma {:induction false} ChildrenAre(parents: seq<int>, p: int)
    ensures forall c :: c in ChildrenOf(parents, p) <==> 1 <= c <= |parents| && parents[c - 1] == p
    ensures forall i, j :: 0 <= i < j < |ChildrenOf(parents, p)| ==>
              ChildrenOf(parents, p)[i] < ChildrenOf(parents, p)[j]
  {
    if parents != [] {
      var init := parents[..|parents| - 1];
      ChildrenAre(init, p);
      assert forall k :: 0 <= k < |ChildrenOf(init, p)| ==> ChildrenOf(init, p)[k] in ChildrenOf(init, p);
    }
  }

  predicate IsChild(nodes: seq<Node>, p: int, c: int) {
    1 <= p <= |nodes| && c in nodes[p - 1].children
  }

  /** Every node but the root is in exactly one children list, exactly once, under a parent of smaller id. */
  lemma OneParent(nodes: seq<Node>, keys: Keys, parents: seq<int>, c: int)
    requires ValidTrie(nodes, keys, parents) && 2 <= c <= |nodes|
    ensures 1 <= parents[c - 1] < c && IsChild(nodes, parents[c - 1], c)
    ensures forall p :: IsChild(nodes, p, c) ==> p == parents[c - 1]
    ensures multiset(nodes[parents[c - 1] - 1].children)[c] == 1
  {
    hide KeysMatch;
    ChildrenAre(parents, parents[c - 1]);
    var cs := nodes[parents[c - 1] - 1].children;
    assert cs == ChildrenOf(parents, parents[c - 1]);
    OnceIn(cs, c);
    forall p | IsChild(nodes, p, c)
      ensures p == parents[c - 1]
    {
      ChildrenAre(parents, p);
      assert nodes[p - 1].children == ChildrenOf(parents, p);
    }
  }

  lemma {:induction false} OnceIn(s: seq<int>, x: int)
    requires x in s && forall i, j :: 0 <= i < j < |s| ==> s[i] < s[j]
    ensures multiset(s)[x] == 1
  {
    var rest := s[1..];
    assert s == [s[0]] + rest;
    assert multiset(s) == multiset{s[0]} + multiset(rest);
    assert forall k :: 0 <= k < |rest| ==> rest[k] == s[k + 1];
    if s[0] == x {
      assert x !in rest;
      assert x !in multiset(rest);
    } else {
      OnceIn(rest, x);
    }
  }

  /** A new child of `p`, as `intern_stack` appends it. */
  function AddChild(nodes: seq<Node>, p: int, f: CallFrame): seq<Node>
    requires 1 <= p <= |nodes|
  {
    var pushed := nodes + [Node(|nodes| + 1, f, [])];
    pushed[p - 1 := pushed[p - 1].(children := pushed[p - 1].children + [|nodes| + 1])]
  }

  lemma AddChildShape(nodes: seq<Node>, parents: seq<int>, p: int, f: CallFrame)
    requires Shape(nodes, parents) && ChildrenMatch(nodes, parents) && 1 <= p <= |nodes|
    ensures Shape(AddChild(nodes, p, f), parents + [p]) && ChildrenMatch(AddChild(nodes, p, f), parents + [p])
    ensures Extends(nodes, parents, AddChild(nodes, p, f), parents + [p])
  {
    var nodes', parents', id := AddChild(nodes, p, f), parents + [p], |nodes| + 1;
    forall i | 0 <= i < |nodes'|
      ensures nodes'[i].children == ChildrenOf(parents', i + 1)
    {
      assert parents'[..|nodes|] == parents;
      if i == |nodes| {
        NoChildrenYet(parents, id);
      }
    }
  }

  lemma AddKeyLeads(frames: seq<CallFrame>, keys: Keys, parents: seq<int>, p: int, f: CallFrame)
    requires |frames| == |parents| >= 1 && KeysLead(frames, keys, parents) && (p, f) !in keys
    ensures KeysLead(frames + [f], keys[(p, f) := |frames| + 1], parents + [p])
  {}

  lemma AddKeyOnly(frames: seq<CallFrame>, keys: Keys, parents: seq<int>, p: int, f: CallFrame)
    requires |frames| == |parents| >= 1 && KeysOnly(frames, keys, parents) && (p, f) !in keys
    ensures KeysOnly(frames + [f], keys[(p, f) := |frames| + 1], parents + [p])
  {}

  lemma AddChildFrames(nodes: seq<Node>, p: int, f: CallFrame)
    requires 1 <= p <= |nodes|
    ensures Frames(AddChild(nodes, p, f)) == Frames(nodes) + [f]
  {}

  lemma AddChildKeys(nodes: seq<Node>, keys: Keys, parents: seq<int>, p: int, f: CallFrame)
    requires |nodes| == |parents| && KeysMatch(nodes, keys, parents) && 1 <= p <= |nodes| && (p, f) !in keys
    ensures KeysMatch(AddChild(nodes, p, f), keys[(p, f) := |nodes| + 1], parents + [p])
  {
    hide KeysLead;
    hide KeysOnly;
    AddChildFrames(nodes, p, f);
    AddKeyLeads(Frames(nodes), keys, parents, p, f);
    AddKeyOnly(Frames(nodes), keys, parents, p, f);
  }

  lemma AddChildValid(nodes: seq<Node>, keys: Keys, parents: seq<int>, p: int, f: CallFrame)
    requires ValidTrie(nodes, keys, parents) && 1 <= p <= |nodes| && (p, f) !in keys
    ensures var id := |nodes| + 1;
            ValidTrie(AddChild(nodes, p, f), keys[(p, f) := id], parents + [p])
            && Extends(nodes, parents, AddChild(nodes, p, f), parents + [p])
            && Path(AddChild(nodes, p, f), parents + [p], id) == Path(nodes, parents, p) + [f]
  {
    hide ChildrenMatch;
    hide KeysMatch;
    AddChildShape(nodes, parents, p, f);
    AddChildKeys(nodes, keys, parents, p, f);
    AddChildPath(nodes, parents, p, f);
  }

  lemma AddChildPath(nodes: seq<Node>, parents: seq<int>, p: int, f: CallFrame)
    requires |nodes| == |parents| && 1 <= p <= |nodes| && Extends(nodes, parents, AddChild(nodes, p, f), parents + [p])
    ensures Path(AddChild(nodes, p, f), parents + [p], |nodes| + 1) == Path(nodes, parents, p) + [f]
  {
    PathKept(nodes, parents, AddChild(nodes, p, f), parents + [p], p);
  }

  /** An existing key leads to a child along its frame. */
  lemma KeyLeads(nodes: seq<Node>, keys: Keys, parents: seq<int>, p: int, f: CallFrame)
    requires ValidTrie(nodes, keys, parents) && (p, f) in keys
    ensures 1 <= keys[(p, f)] <= |nodes| && Path(nodes, parents, keys[(p, f)]) == Path(nodes, parents, p) + [f]
    ensures Extends(nodes, parents, nodes, parents)
  {
    hide ChildrenMatch;
    hide KeysLead;
    KeyIs(Frames(nodes), keys, parents, p, f);
  }

  lemma KeyIs(frames: seq<CallFrame>, keys: Keys, parents: seq<int>, p: int, f: CallFrame)
    requires |frames| == |parents| && KeysOnly(frames, keys, parents) && (p, f) in keys
    ensures 2 <= keys[(p, f)] <= |frames| && parents[keys[(p, f)] - 1] == p && frames[keys[(p, f)] - 1] == f
  {}

  lemma NoChildrenYet(parents: seq<int>, p: int)
    requires forall i :: 0 <= i < |parents| ==> parents[i] < p
    ensures ChildrenOf(parents, p) == []
  {}

  class TreeBuilder {
    var nodes: seq<Node>
    var childByKey: Keys
    ghost var parents: seq<int>

    ghost predicate Valid()
      reads this
    {
      ValidTrie(nodes, childByKey, parents)
    }

    constructor ()
      ensures Valid() && |nodes| == 1
    {
      nodes, childByKey, parents := [Node(1, ROOT, [])], map[], [0];
    }

    /** One step down the tree, along an existing child or a new one. */
    method InternChild(parent: int, frame: CallFrame) returns (id: int)
      requires Valid() && 1 <= parent <= |nodes|
      modifies this
      ensures Valid() && Extends(old(nodes), old(parents), nodes, parents)
      ensures 1 <= id <= |nodes| && Path(nodes, parents, id) == Path(old(nodes), old(parents), parent) + [frame]
      ensures |nodes| == |old(nodes)| || (|nodes| == |old(nodes)| + 1 && nodes[|old(nodes)|].frame == frame)
    {
      hide ChildrenMatch;
      hide ChildrenOf;
      hide KeysMatch;
      var key := (parent, frame);
      if key in childByKey {
        KeyLeads(nodes, childByKey, parents, parent, frame);
        id := childByKey[key];
      } else {
        AddChildValid(nodes, childByKey, parents, parent, frame);
        hide Shape;
        hide Path;
        id := |nodes| + 1;
        nodes := nodes + [Node(id, frame, [])];
        nodes := nodes[parent - 1 := nodes[parent - 1].(children := nodes[parent - 1].children + [id])];
        childByKey := childByKey[key := id];
        parents := parents + [parent];
      }
    }

    /** The returned node's path spells the given frames; nothing already in the tree moves. */
    method InternStack(frames: seq<CallFrame>) returns (leaf: int)
      requires Valid()
      modifies this
      ensures Valid() && Extends(old(nodes), old(parents), nodes, parents)
      ensures 1 <= leaf <= |nodes| && Path(nodes, parents, leaf) == frames
      ensures forall i :: |old(nodes)| <= i < |nodes| ==> nodes[i].frame in frames
    {
      hide KeysMatch;
      hide ChildrenMatch;
      leaf := 1;
      for k := 0 to |frames|
        invariant Valid() && Extends(old(nodes), old(parents), nodes, parents)
        invariant 1 <= leaf <= |nodes| && Path(nodes, parents, leaf) == frames[..k]
        invariant forall i :: |old(nodes)| <= i < |nodes| ==> nodes[i].frame in frames
      {
        assert frames[..k + 1] == frames[..k] + [frames[k]];
        leaf := InternChild(leaf, frames[k]);
      }
      assert frames[..|frames|] == frames;
    }
  }

  /** Two stacks are interned to the same node iff they are the same stack, whatever is interned in between. */
  lemma SameNodeIffSameStack(nodes: seq<Node>, keys: Keys, parents: seq<int>, a: int, b: int)
    requires ValidTrie(nodes, keys, parents) && 1 <= a <= |nodes| && 1 <= b <= |nodes|
    ensures a == b <==> Path(nodes, parents, a) == Path(nodes, parents, b)
  {
    if Path(nodes, parents, a) == Path(nodes, parents, b) {
      PathInjective(nodes, keys, parents, a, b);
    }
  }

  // ----------------------------------------------------- reading the profile

  function Unknown(name: string): CallFrame {
    CallFrame(name, "0", "", -1, -1)
  }

  /** The first line of a location, or a placeholder for what does not resolve. */
  function FrameForLocation(p: P.Profile, locId: nat): CallFrame {
    var locs := P.LocationMap(p.locations);
    if locId !in locs then Unknown("location:" + Decimal(locId))
    else
      var loc := locs[locId];
      if loc.lines == [] then Unknown("0x" + Hex(loc.address))
      else
        var line, funcs := loc.lines[0], P.FunctionMap(p.functions);
        if line.functionId !in funcs then Unknown("function:" + Decimal(line.functionId))
        else
          var func := funcs[line.functionId];
          var name := P.StringAt(p.strings, func.name);
          CallFrame(if name == "" then "(unknown)" else name, "0", P.StringAt(p.strings, func.filename),
                    if line.line > 0 then line.line - 1 else if func.startLine > 0 then func.startLine - 1 else -1,
                    if line.column > 0 then line.column else 0)
  }

  /** What does not resolve says so: by the location's id, by its address when it has no line, or by the id of the
      function its first line leads to. */
  lemma PlaceholdersSay(p: P.Profile, id: nat)
    ensures var locs, funcs, shown := P.LocationMap(p.locations), P.FunctionMap(p.functions), FrameForLocation(p, id);
            && (id !in locs ==> "location:" <= shown.functionName && shown.functionName[9..] == Decimal(id))
            && (id in locs && locs[id].lines == [] ==>
                  "0x" <= shown.functionName && shown.functionName[2..] == Hex(locs[id].address))
            && (id in locs && locs[id].lines != [] && locs[id].lines[0].functionId !in funcs ==>
                  "function:" <= shown.functionName && shown.functionName[9..] == Decimal(locs[id].lines[0].functionId))
  {
    hide P.LocationMap;
    hide P.FunctionMap;
    hide Digits;
  }

  /** Leaf-first location ids as a root-first stack. */
  function StackOf(p: P.Profile, locationIds: seq<nat>): (stack: seq<CallFrame>)
    ensures |stack| == |locationIds|
    ensures forall k :: 0 <= k < |stack| ==> stack[k] == FrameForLocation(p, locationIds[|stack| - 1 - k])
  {
    if locationIds == [] then [] else StackOf(p, locationIds[1..]) + [FrameForLocation(p, locationIds[0])]
  }

  function ValueToUs(raw: int, unit: string): int {
    var us := match unit
      case "nanoseconds" => (raw + 500) / 1000
      case "microseconds" => raw
      case "milliseconds" => Saturate(raw * 1000)
      case "seconds" => Saturate(raw * 1_000_000)
      case _ => raw;
    if raw <= 0 then 0 else if us < 1 then 1 else us
  }

  /** One length of time is one number of microseconds, whatever unit it is given in; a unit that is none of time is
      taken for microseconds. */
  lemma UnitsAgree(seconds: int)
    requires 0 < seconds && seconds * 1_000_000_000 <= I64_MAX
    ensures ValueToUs(seconds, "seconds") == ValueToUs(seconds * 1000, "milliseconds")
            == ValueToUs(seconds * 1_000_000, "microseconds")
            == ValueToUs(seconds * 1_000_000_000, "nanoseconds") == seconds * 1_000_000
    ensures ValueToUs(seconds, "bytes") == seconds
  {}

  /** Whatever the unit: nothing positive is lost, nothing else counts, and long times stay at the edge of an i64. */
  lemma ValuesKept(raw: int, unit: string)
    requires raw <= I64_MAX
    ensures raw <= 0 ==> ValueToUs(raw, unit) == 0
    ensures raw > 0 ==> 1 <= ValueToUs(raw, unit) <= I64_MAX
    ensures raw * 1000 > I64_MAX ==> ValueToUs(raw, "milliseconds") == I64_MAX
    ensures raw * 1_000_000 > I64_MAX ==> ValueToUs(raw, "seconds") == I64_MAX
  {}

  function FindCountAxis(p: P.Profile, i: nat := 0): Option<nat>
    decreases |p.sampleTypes| - i
  {
    if i >= |p.sampleTypes| then None
    else if P.StringAt(p.strings, p.sampleTypes[i].ty) == "samples"
            && P.StringAt(p.strings, p.sampleTypes[i].unit) == "count" then Some(i)
    else FindCountAxis(p, i + 1)
  }

  predicate IsCountAxis(p: P.Profile, i: nat)
    requires i < |p.sampleTypes|
  {
    && P.StringAt(p.strings, p.sampleTypes[i].ty) == "samples"
    && P.StringAt(p.strings, p.sampleTypes[i].unit) == "count"
  }

  /** The first column of sample counts from column `i` on. */
  lemma {:induction false} CountAxisIs(p: P.Profile, i: nat)
    ensures var r := FindCountAxis(p, i);
            && (r.Some? ==> i <= r.value < |p.sampleTypes| && IsCountAxis(p, r.value)
                            && forall j :: i <= j < r.value ==> !IsCountAxis(p, j))
            && (r.None? ==> forall j :: i <= j < |p.sampleTypes| ==> !IsCountAxis(p, j))
    decreases |p.sampleTypes| - i
  {
    if i < |p.sampleTypes| {
      CountAxisIs(p, i + 1);
    }
  }

  datatype Options = Options(valueIndex: Option<nat>, countIndex: Option<nat>, expandSamples: bool)

  /** One positive sample: its stack, its time, and how many V8 samples it stands for. */
  datatype StackSample = StackSample(frames: seq<CallFrame>, deltaUs: int, count: int)

  function CountOf(s: P.Sample, countIndex: Option<nat>): int {
    if countIndex.Some? && countIndex.value < |s.values| && s.values[countIndex.value] > 1
    then s.values[countIndex.value] else 1
  }

  /** The value of the count column, and one where it is missing or less. */
  lemma CountIs(s: P.Sample, i: nat)
    ensures CountOf(s, None) == 1
    ensures CountOf(s, Some(i)) >= 1 && CountOf(s, Some(i)) >= P.ValueAt(s, i)
    ensures CountOf(s, Some(i)) > 1 ==> CountOf(s, Some(i)) == P.ValueAt(s, i)
  {}

  function CountAxis(p: P.Profile, opts: Options): Option<nat> {
    if opts.countIndex.Some? then opts.countIndex else FindCountAxis(p)
  }

  /** A sample is converted when it is positive on the chosen axis and has a non-empty stack. */
  function Converted(p: P.Profile, axis: P.Axis, opts: Options, s: P.Sample): (r: Option<StackSample>)
    ensures r.Some? <==> P.ValueAt(s, axis.idx) > 0 && s.locationIds != []
    ensures r.Some? ==> r.value.deltaUs >= 1 && r.value.count >= 1 && r.value.frames != []
  {
    var raw, frames := P.ValueAt(s, axis.idx), StackOf(p, s.locationIds);
    if raw <= 0 || frames == [] then None
    else Some(StackSample(frames, ValueToUs(raw, axis.unit),
                          if opts.expandSamples then CountOf(s, CountAxis(p, opts)) else 1))
  }

  function StackSamples(p: P.Profile, axis: P.Axis, opts: Options, samples: seq<P.Sample>): (r: seq<StackSample>)
    ensures forall x :: x in r ==> x.deltaUs >= 1 && x.count >= 1 && x.frames != []
  {
    if samples == [] then []
    else
      var c := Converted(p, axis, opts, samples[|samples| - 1]);
      StackSamples(p, axis, opts, samples[..|samples| - 1]) + if c.Some? then [c.value] else []
  }

  lemma StackSamplesStep(p: P.Profile, axis: P.Axis, opts: Options, samples: seq<P.Sample>, i: nat)
    requires i < |samples|
    ensures var c := Converted(p, axis, opts, samples[i]);
            StackSamples(p, axis, opts, samples[..i + 1]) ==
            StackSamples(p, axis, opts, samples[..i]) + if c.Some? then [c.value] else []
  {
    assert samples[..i + 1][..i] == samples[..i];
  }

  /** Samples are converted one by one, in order. */
  lemma {:induction false} StackSamplesAdd(p: P.Profile, axis: P.Axis, opts: Options, a: seq<P.Sample>,
                                           b: seq<P.Sample>)
    ensures StackSamples(p, axis, opts, a + b) == StackSamples(p, axis, opts, a) + StackSamples(p, axis, opts, b)
  {
    hide Converted;
    if b == [] {
      assert a + b == a;
    } else {
      StackSamplesAdd(p, axis, opts, a, b[..|b| - 1]);
      assert (a + b)[..|a + b| - 1] == a + b[..|b| - 1];
    }
  }

  lemma OneStackSample(p: P.Profile, axis: P.Axis, opts: Options, s: P.Sample)
    ensures var c := Converted(p, axis, opts, s);
            StackSamples(p, axis, opts, [s]) == if c.Some? then [c.value] else []
  {
    assert [s][..0] == [];
    assert StackSamples(p, axis, opts, [s][..0]) == [];
  }

  /** Each stack sample comes from a sample, and each convertible sample gives one. */
  lemma {:induction false} StackSamplesAre(p: P.Profile, axis: P.Axis, opts: Options, samples: seq<P.Sample>)
    ensures forall x :: x in StackSamples(p, axis, opts, samples) <==>
              exists s :: s in samples && Converted(p, axis, opts, s) == Some(x)
  {
    hide Converted;
    if samples != [] {
      var init, last := samples[..|samples| - 1], samples[|samples| - 1];
      StackSamplesAre(p, axis, opts, init);
      assert forall s :: s in samples <==> s in init || s == last;
    }
  }

  // ------------------------------------------------------- spreading the time

  /** One emitted V8 sample: a stack and the time since the sample before it. */
  datatype Tick = Tick(frames: seq<CallFrame>, deltaUs: int)

  function Spread(s: StackSample): seq<Tick>
    requires s.count >= 1
  {
    SpreadOf(s.frames, s.deltaUs / s.count, s.deltaUs % s.count, s.count)
  }

  function SpreadOf(frames: seq<CallFrame>, base: int, remainder: int, count: nat): seq<Tick> {
    seq(count, i requires 0 <= i < count => Tick(frames, base + if i < remainder then 1 else 0))
  }

  function Ticks(ss: seq<StackSample>): seq<Tick>
    requires forall x :: x in ss ==> x.count >= 1
  {
    if ss == [] then [] else Ticks(ss[..|ss| - 1]) + Spread(ss[|ss| - 1])
  }

  function SumUs(ts: seq<Tick>): int {
    if ts == [] then 0 else SumUs(ts[..|ts| - 1]) + ts[|ts| - 1].deltaUs
  }

  function SumDeltas(ds: seq<int>): int {
    if ds == [] then 0 else SumDeltas(ds[..|ds| - 1]) + ds[|ds| - 1]
  }

  lemma OneMore(n: int, base: int)
    ensures (n + 1) * base == n * base + base
  {}

  lemma {:induction false} SumUsSpread(frames: seq<CallFrame>, base: int, remainder: nat, n: nat)
    ensures SumUs(SpreadOf(frames, base, remainder, n)) == n * base + if n < remainder then n else remainder
  {
    if n > 0 {
      SumUsSpread(frames, base, remainder, n - 1);
      assert SpreadOf(frames, base, remainder, n)[..n - 1] == SpreadOf(frames, base, remainder, n - 1);
      OneMore(n - 1, base);
    }
  }

  /** Expanding a sample emits exactly `count` ticks, which sum to its time and differ by at most one. */
  lemma SpreadIsFair(s: StackSample)
    requires s.count >= 1
    ensures |Spread(s)| == s.count && SumUs(Spread(s)) == s.deltaUs
    ensures forall i, j :: 0 <= i < s.count && 0 <= j < s.count ==> Spread(s)[i].deltaUs - Spread(s)[j].deltaUs <= 1
    ensures forall i, j :: 0 <= i < j < s.count ==> Spread(s)[i].deltaUs >= Spread(s)[j].deltaUs
    ensures forall i :: 0 <= i < s.count ==> Spread(s)[i].frames == s.frames
  {
    var base, remainder := s.deltaUs / s.count, s.deltaUs % s.count;
    assert s.deltaUs == s.count * base + remainder;
    SumUsSpread(s.frames, base, remainder, s.count);
  }

  lemma {:induction false} SumUsAppend(a: seq<Tick>, b: seq<Tick>)
    ensures SumUs(a + b) == SumUs(a) + SumUs(b)
  {
    if b == [] {
      assert a + b == a;
    } else {
      assert (a + b)[..|a + b| - 1] == a + b[..|b| - 1];
      SumUsAppend(a, b[..|b| - 1]);
    }
  }

  function TotalUs(ss: seq<StackSample>): int {
    if ss == [] then 0 else TotalUs(ss[..|ss| - 1]) + ss[|ss| - 1].deltaUs
  }

  /** Over a whole profile, spreading conserves time. */
  lemma {:induction false} TicksConserveTime(ss: seq<StackSample>)
    requires forall x :: x in ss ==> x.count >= 1
    ensures SumUs(Ticks(ss)) == TotalUs(ss)
  {
    if ss != [] {
      var init, s := ss[..|ss| - 1], ss[|ss| - 1];
      TicksConserveTime(init);
      SpreadIsFair(s);
      hide Spread;
      SumUsAppend(Ticks(init), Spread(s));
    }
  }

  /** In nanoseconds, rounding to whole microseconds (and up to at least one) moves a sample by less than 1000. */
  lemma RoundingBound(raw: int)
    requires raw > 0
    ensures -500 <= 1000 * ValueToUs(raw, "nanoseconds") - raw < 1000
  {
    var q := (raw + 500) / 1000;
    assert 1000 * q <= raw + 500 < 1000 * q + 1000;
  }

  /** The raw values of the samples that are converted. */
  function RawTotal(p: P.Profile, axis: P.Axis, opts: Options, samples: seq<P.Sample>): int {
    if samples == [] then 0
    else
      var s := samples[|samples| - 1];
      RawTotal(p, axis, opts, samples[..|samples| - 1]) +
      if Converted(p, axis, opts, s).Some? then P.ValueAt(s, axis.idx) else 0
  }

  lemma TotalUsSnoc(ss: seq<StackSample>, s: StackSample)
    ensures TotalUs(ss + [s]) == TotalUs(ss) + s.deltaUs
  {
    assert (ss + [s])[..|ss|] == ss;
  }

  /** Over a whole profile in nanoseconds, the emitted time is within 1000 per positive sample of the raw total. */
  lemma {:induction false} ProfileRounding(p: P.Profile, axis: P.Axis, opts: Options, samples: seq<P.Sample>)
    requires axis.unit == "nanoseconds"
    ensures var ss := StackSamples(p, axis, opts, samples);
            -500 * |ss| <= 1000 * SumUs(Ticks(ss)) - RawTotal(p, axis, opts, samples) <= 1000 * |ss|
  {
    TicksConserveTime(StackSamples(p, axis, opts, samples));
    RoundingInduction(p, axis, opts, samples);
  }

  lemma {:induction false} RoundingInduction(p: P.Profile, axis: P.Axis, opts: Options, samples: seq<P.Sample>)
    requires axis.unit == "nanoseconds"
    ensures var ss := StackSamples(p, axis, opts, samples);
            -500 * |ss| <= 1000 * TotalUs(ss) - RawTotal(p, axis, opts, samples) <= 1000 * |ss|
  {
    if samples != [] {
      var init, s := samples[..|samples| - 1], samples[|samples| - 1];
      RoundingInduction(p, axis, opts, init);
      var raw, c := P.ValueAt(s, axis.idx), Converted(p, axis, opts, s);
      if c.Some? {
        assert c.value.deltaUs == ValueToUs(raw, "nanoseconds");
        RoundingBound(raw);
        TotalUsSnoc(StackSamples(p, axis, opts, init), c.value);
      } else {
        assert StackSamples(p, axis, opts, samples) == StackSamples(p, axis, opts, init);
      }
      hide Converted;
      hide ValueToUs;
    }
  }

  // -------------------------------------------------------------- conversion

  const MAX_EXPANSION := 10_000_000

  datatype CpuTrace = CpuTrace(nodes: seq<Node>, samples: seq<int>, timeDeltas: seq<int>, startTime: int, endTime: int)

  /** The emitted ids and deltas are the ticks, each id standing for its tick's stack. */
  ghost predicate Emitted(nodes: seq<Node>, parents: seq<int>, ids: seq<int>, deltas: seq<int>, ticks: seq<Tick>) {
    && |nodes| == |parents| && |ids| == |deltas| == |ticks|
    && forall k :: 0 <= k < |ticks| ==>
         1 <= ids[k] <= |nodes| && Path(nodes, parents, ids[k]) == ticks[k].frames && deltas[k] == ticks[k].deltaUs
  }

  lemma EmittedKept(nodes: seq<Node>, parents: seq<int>, nodes': seq<Node>, parents': seq<int>,
                    ids: seq<int>, deltas: seq<int>, ticks: seq<Tick>)
    requires Emitted(nodes, parents, ids, deltas, ticks) && Extends(nodes, parents, nodes', parents')
    ensures Emitted(nodes', parents', ids, deltas, ticks)
  {
    hide Path;
    forall k | 0 <= k < |ticks|
      ensures Path(nodes', parents', ids[k]) == ticks[k].frames
    {
      PathKept(nodes, parents, nodes', parents', ids[k]);
    }
  }

  /** Appends `count` samples of one leaf, the remainder going to the first ones. */
  method PushExpandedSamples(leaf: int, s: StackSample, ids0: seq<int>, deltas0: seq<int>,
                             ghost nodes: seq<Node>, ghost parents: seq<int>, ghost ticks: seq<Tick>)
    returns (ok: bool, ids: seq<int>, deltas: seq<int>)
    requires s.count >= 1 && Emitted(nodes, parents, ids0, deltas0, ticks)
    requires 1 <= leaf <= |nodes| && Path(nodes, parents, leaf) == s.frames
    ensures ok == (s.count <= MAX_EXPANSION)
    ensures ok ==> Emitted(nodes, parents, ids, deltas, ticks + Spread(s))
  {
    hide Path;
    ids, deltas := ids0, deltas0;
    if s.count > MAX_EXPANSION {
      return false, ids, deltas;
    }
    var base, remainder := s.deltaUs / s.count, s.deltaUs % s.count;
    for i := 0 to s.count
      invariant Emitted(nodes, parents, ids, deltas, ticks + Spread(s)[..i])
    {
      ids := ids + [leaf];
      deltas := deltas + [base + if i < remainder then 1 else 0];
      assert Spread(s)[..i + 1] == Spread(s)[..i] + [Spread(s)[i]];
      assert ticks + Spread(s)[..i + 1] == (ticks + Spread(s)[..i]) + [Spread(s)[i]];
    }
    assert Spread(s)[..s.count] == Spread(s);
    return true, ids, deltas;
  }

  ghost predicate OnSomeStack(ss: seq<StackSample>, f: CallFrame) {
    exists x :: x in ss && f in x.frames
  }

  /** Every node but the root is there for some sample: its frame is on that sample's stack. */
  ghost predicate FramesFrom(nodes: seq<Node>, ss: seq<StackSample>) {
    forall i :: 1 <= i < |nodes| ==> OnSomeStack(ss, nodes[i].frame)
  }

  lemma FramesFromNext(nodes: seq<Node>, parents: seq<int>, nodes': seq<Node>, parents': seq<int>, ss: seq<StackSample>,
                       s: StackSample)
    requires FramesFrom(nodes, ss) && Extends(nodes, parents, nodes', parents')
    requires forall i :: |nodes| <= i < |nodes'| ==> nodes'[i].frame in s.frames
    ensures FramesFrom(nodes', ss + [s])
  {
    forall i | 1 <= i < |nodes'|
      ensures OnSomeStack(ss + [s], nodes'[i].frame)
    {
      if i < |nodes| {
        assert OnSomeStack(ss, nodes[i].frame);
        var x :| x in ss && nodes[i].frame in x.frames;
        assert x in ss + [s];
      } else {
        assert s in ss + [s];
      }
    }
  }

  predicate AnyTooLarge(ss: seq<StackSample>) {
    exists x :: x in ss && x.count > 10_000_000
  }

  /** What the conversion has emitted for the stack samples so far. */
  ghost predicate Emitting(nodes: seq<Node>, parents: seq<int>, ids: seq<int>, deltas: seq<int>, ss: seq<StackSample>) {
    && (forall x :: x in ss ==> x.count >= 1)
    && Emitted(nodes, parents, ids, deltas, Ticks(ss)) && FramesFrom(nodes, ss) && (ids == []) == (ss == [])
  }

  /** One turn of the conversion loop: skip the sample, or intern its stack and emit its ticks. */
  method ConvertSample(p: P.Profile, axis: P.Axis, opts: Options, s: P.Sample, builder: TreeBuilder,
                       ids0: seq<int>, deltas0: seq<int>, ghost ss0: seq<StackSample>)
    returns (ok: bool, ids: seq<int>, deltas: seq<int>, ghost ss: seq<StackSample>)
    requires builder.Valid() && Emitting(builder.nodes, builder.parents, ids0, deltas0, ss0) && !AnyTooLarge(ss0)
    modifies builder
    ensures builder.Valid()
    ensures var c := Converted(p, axis, opts, s);
            && ok == (c.None? || c.value.count <= MAX_EXPANSION)
            && (ok ==> ss == (if c.Some? then ss0 + [c.value] else ss0) && !AnyTooLarge(ss)
                       && Emitting(builder.nodes, builder.parents, ids, deltas, ss))
  {
    hide ValidTrie;
    hide FrameForLocation;
    hide Ticks;
    hide Spread;
    hide Path;
    hide Emitted;
    hide CountOf;
    hide ValueToUs;
    hide FramesFrom;
    hide StackOf;
    hide Extends;
    hide P.ValueAt;
    ok, ids, deltas, ss := true, ids0, deltas0, ss0;
    var raw := P.ValueAt(s, axis.idx);
    if raw <= 0 {
      return;
    }
    var frames := StackOf(p, s.locationIds);
    if frames == [] {
      return;
    }
    ghost var before, beforeParents := builder.nodes, builder.parents;
    var leaf := builder.InternStack(frames);
    EmittedKept(before, beforeParents, builder.nodes, builder.parents, ids, deltas, Ticks(ss));
    var count := if opts.expandSamples then CountOf(s, CountAxis(p, opts)) else 1;
    var sample := StackSample(frames, ValueToUs(raw, axis.unit), count);
    assert Converted(p, axis, opts, s) == Some(sample);
    ok, ids, deltas := PushExpandedSamples(leaf, sample, ids, deltas, builder.nodes, builder.parents, Ticks(ss));
    if ok {
      TicksSnoc(ss, sample);
      FramesFromNext(before, beforeParents, builder.nodes, builder.parents, ss, sample);
      EmittedSome(builder.nodes, builder.parents, ids, deltas, Ticks(ss), sample);
      ss := ss + [sample];
    }
  }

  /** The trace starts when the profile does, in whole microseconds, and lasts as long as the profile says, or as the
      emitted samples do. */
  ghost predicate Timed(t: CpuTrace, p: P.Profile) {
    && t.startTime == (if p.timeNanos > 0 then p.timeNanos / 1000 else 0)
    && t.endTime == Saturate(t.startTime + if p.durationNanos > 0 then p.durationNanos / 1000
                                           else SumDeltas(t.timeDeltas))
  }

  /** A trace that shows the given stack samples: its nodes are a valid trie of their frames, and what it emits are
      their ticks, in order. */
  ghost predicate Shows(t: CpuTrace, ss: seq<StackSample>) {
    exists keys, parents :: ShowsBy(t, ss, keys, parents)
  }

  ghost predicate ShowsBy(t: CpuTrace, ss: seq<StackSample>, keys: Keys, parents: seq<int>) {
    && (forall x :: x in ss ==> x.count >= 1)
    && ValidTrie(t.nodes, keys, parents) && FramesFrom(t.nodes, ss)
    && Emitted(t.nodes, parents, t.samples, t.timeDeltas, Ticks(ss))
  }

  /** The conversion. On success the nodes are a valid trie and the emitted samples are exactly the ticks of the
      positive samples, in order; it fails without an axis, without positive samples, or on an oversized expansion. */
  method ConvertProfile(p: P.Profile, opts: Options)
    returns (r: Result<CpuTrace, string>)
    ensures match P.SelectAxis(p, opts.valueIndex, P.IsTimeUnit)
            case Err(_) => r.Err?
            case Ok(axis) =>
              var ss := StackSamples(p, axis, opts, p.samples);
              (r.Err? <==> ss == [] || AnyTooLarge(ss))
              && (r.Ok? ==> Shows(r.value, ss) && Timed(r.value, p))
  {
    hide ValidTrie;
    hide StackSamples;
    hide Ticks;
    hide Path;
    hide Emitted;
    hide FramesFrom;
    hide Converted;
    hide P.SelectAxis;
    hide SumDeltas;
    var selected := P.SelectAxis(p, opts.valueIndex, P.IsTimeUnit);
    if selected.Err? {
      return Err(selected.error);
    }
    hide P.IsTimeUnit;
    hide P.FirstTimeAxis;
    var axis := selected.value;
    var startUs := if p.timeNanos > 0 then p.timeNanos / 1000 else 0;
    var builder := new TreeBuilder();
    var ids, deltas := [], [];
    ghost var ss := [];
    StartEmitting(p, axis, opts, builder.nodes, builder.childByKey, builder.parents);
    for i := 0 to |p.samples|
      invariant fresh(builder) && builder.Valid()
      invariant ss == StackSamples(p, axis, opts, p.samples[..i]) && !AnyTooLarge(ss)
      invariant Emitting(builder.nodes, builder.parents, ids, deltas, ss)
    {
      StackSamplesStep(p, axis, opts, p.samples, i);
      var ok;
      ok, ids, deltas, ss := ConvertSample(p, axis, opts, p.samples[i], builder, ids, deltas, ss);
      if !ok {
        SampleSuffix(p, axis, opts, i + 1, Converted(p, axis, opts, p.samples[i]).value);
        return Err("--expand-samples would emit more than 10,000,000 samples");
      }
    }
    assert p.samples[..|p.samples|] == p.samples;
    if ids == [] {
      return Err("pprof profile had no positive samples on selected value axis");
    }
    var totalUs := SumDeltas(deltas);
    var endUs := startUs + if p.durationNanos > 0 then p.durationNanos / 1000 else totalUs;
    r := Ok(CpuTrace(builder.nodes, ids, deltas, startUs, Saturate(endUs)));
    assert ShowsBy(r.value, ss, builder.childByKey, builder.parents);
  }

  lemma StartEmitting(p: P.Profile, axis: P.Axis, opts: Options, nodes: seq<Node>, keys: Keys, parents: seq<int>)
    requires ValidTrie(nodes, keys, parents)
    requires |nodes| == 1
    ensures Emitted(nodes, parents, [], [], Ticks([])) && StackSamples(p, axis, opts, p.samples[..0]) == []
    ensures FramesFrom(nodes, [])
  {}

  lemma TicksSnoc(ss: seq<StackSample>, s: StackSample)
    requires s.count >= 1 && forall x :: x in ss ==> x.count >= 1
    ensures Ticks(ss + [s]) == Ticks(ss) + Spread(s)
  {
    assert (ss + [s])[..|ss|] == ss;
  }

  lemma EmittedSome(nodes: seq<Node>, parents: seq<int>, ids: seq<int>, deltas: seq<int>, ticks: seq<Tick>,
                    s: StackSample)
    requires s.count >= 1 && Emitted(nodes, parents, ids, deltas, ticks + Spread(s))
    ensures ids != []
  {}

  lemma {:induction false} SampleSuffix(p: P.Profile, axis: P.Axis, opts: Options, i: nat, s: StackSample)
    requires i <= |p.samples| && s in StackSamples(p, axis, opts, p.samples[..i])
    ensures s in StackSamples(p, axis, opts, p.samples)
    decreases |p.samples| - i
  {
    if i < |p.samples| {
      StackSamplesStep(p, axis, opts, p.samples, i);
      SampleSuffix(p, axis, opts, i + 1, s);
    } else {
      assert p.samples[..i] == p.samples;
    }
  }
}
