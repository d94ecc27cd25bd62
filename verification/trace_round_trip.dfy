/** pprof to Chrome trace and back, across the three converters. */
module TraceRoundTrip {
  import opened StableSort
  import opened Wrappers
  import opened Text
  import opened V8
  import opened Int64
  import P = Pprof
  import T = TraceTree
  import C = ChunkMerge
  import B = CpuProfiles
  import K = OrderedKeys

  // --------------------------------------------------------- the trace file

  datatype Ids = Ids(pid: int, tid: int, profileId: string)

  function ProfileKey(pid: int, tid: int, id: Option<string>): string {
    "pid=" + DecimalInt(pid) + "/tid=" + DecimalInt(tid) + "/id=" + if id.Some? then id.value else "none"
  }

  /** Streams are told apart by process, thread and id; an event without an id falls in with the id "none". */
  lemma ProfileKeyTells(pid: int, tid: int, id: Option<string>, pid': int, tid': int, id': Option<string>)
    ensures ProfileKey(pid, tid, id) == ProfileKey(pid', tid', id') <==>
              pid == pid' && tid == tid' && (if id.Some? then id.value else "none") ==
                                            (if id'.Some? then id'.value else "none")
  {
    hide DecimalInt;
    var name, name' := if id.Some? then id.value else "none", if id'.Some? then id'.value else "none";
    if ProfileKey(pid, tid, id) == ProfileKey(pid', tid', id') {
      var x := "tid=" + (DecimalInt(tid) + ['/'] + ("id=" + name));
      var y := "tid=" + (DecimalInt(tid') + ['/'] + ("id=" + name'));
      KeyParts(pid, tid, name);
      KeyParts(pid', tid', name');
      FieldTells("pid=", pid, x, pid', y);
      FieldTells("tid=", tid, "id=" + name, tid', "id=" + name');
      SameRest("id=", name, name');
    }
  }

  lemma KeyParts(pid: int, tid: int, name: string)
    ensures ProfileKey(pid, tid, Some(name)) ==
            "pid=" + (DecimalInt(pid) + ['/'] + ("tid=" + (DecimalInt(tid) + ['/'] + ("id=" + name))))
    ensures ProfileKey(pid, tid, None) == ProfileKey(pid, tid, Some("none"))
  {
    hide DecimalInt;
    var p, t := DecimalInt(pid), DecimalInt(tid);
    assert "/tid=" == ['/'] + "tid=" && "/id=" == ['/'] + "id=";
    assert "pid=" + p + (['/'] + "tid=") + t + (['/'] + "id=") + name ==
           "pid=" + (p + ['/'] + ("tid=" + (t + ['/'] + ("id=" + name))));
  }

  lemma FieldTells(field: string, m: int, x: string, n: int, y: string)
    requires field + (DecimalInt(m) + ['/'] + x) == field + (DecimalInt(n) + ['/'] + y)
    ensures m == n && x == y
  {
    hide DecimalInt;
    SameRest(field, DecimalInt(m) + ['/'] + x, DecimalInt(n) + ['/'] + y);
    NoSlash(m);
    NoSlash(n);
    SplitAt('/', DecimalInt(m), DecimalInt(n), x, y);
    DecimalIntInjective(m, n);
  }

  lemma NoSlash(n: int)
    ensures Free(DecimalInt(n), '/')
  {
    var digits := Decimal(if n < 0 then -n else n);
    DecimalIsDigits(if n < 0 then -n else n);
    forall i | 0 <= i < |digits|
      ensures digits[i] != '/'
    {
      assert digits[i] in digits;
    }
  }

  function RawNodes(nodes: seq<T.Node>): seq<C.RawNode> {
    seq(|nodes|, i requires 0 <= i < |nodes| => C.RawNode(nodes[i].id, nodes[i].frame, nodes[i].children, None))
  }

  function Metadata(name: string, ids: Ids, ts: int): C.Event {
    C.Event(Some(name), ProfileKey(ids.pid, ids.tid, None), ts, Some(C.EventData(None, None, None, [], [])))
  }

  /** The four events `convert_profile` writes. */
  function TraceEvents(t: T.CpuTrace, ids: Ids): seq<C.Event> {
    var key := ProfileKey(ids.pid, ids.tid, Some(ids.profileId));
    [Metadata("process_name", ids, t.startTime),
     Metadata("thread_name", ids, t.startTime),
     C.Event(Some("Profile"), key, t.startTime, Some(C.EventData(Some(t.startTime), None, None, [], []))),
     C.Event(Some("ProfileChunk"), key, t.startTime,
             Some(C.EventData(None, None, Some(C.RawCpu(RawNodes(t.nodes), [], [], Some(t.startTime), Some(t.endTime))),
                              t.samples, t.timeDeltas)))]
  }

  /** The reader decodes lines and columns as 32-bit integers. */
  predicate FitsI32(x: int) {
    -0x8000_0000 <= x < 0x8000_0000
  }

  predicate Readable(f: CallFrame) {
    FitsI32(f.lineNumber) && FitsI32(f.columnNumber)
  }

  // ------------------------------------------------ the merged tree is the trie

  lemma {:induction false} RawOrder(nodes: seq<T.Node>)
    requires forall i :: 0 <= i < |nodes| ==> nodes[i].id == i + 1
    ensures |C.OrderOf(RawNodes(nodes))| == |nodes|
    ensures forall i :: 0 <= i < |nodes| ==> C.OrderOf(RawNodes(nodes))[i] == i + 1
    ensures forall id :: C.FrameOf(RawNodes(nodes), id) ==
              if 1 <= id <= |nodes| then Some(nodes[id - 1].frame) else None
  {
    if nodes != [] {
      var init := nodes[..|nodes| - 1];
      RawOrder(init);
      assert RawNodes(nodes)[..|nodes| - 1] == RawNodes(init);
    }
  }

  lemma RawDeclares(nodes: seq<T.Node>, keys: T.Keys, parents: seq<int>, p: int, c: int)
    requires T.ValidTrie(nodes, keys, parents)
    ensures C.Declares(RawNodes(nodes), p, c) <==> 2 <= c <= |nodes| && parents[c - 1] == p
  {
    hide C.OrderOf;
    hide T.KeysMatch;
    var ns := RawNodes(nodes);
    RawOrder(nodes);
    T.ChildrenAre(parents, p);
    if C.ListsChild(ns, p, c) {
      var n :| n in ns && n.id == p && c in n.children;
      var i :| 0 <= i < |ns| && ns[i] == n;
      assert nodes[i].children == T.ChildrenOf(parents, i + 1);
    }
    if 2 <= c <= |nodes| && parents[c - 1] == p {
      assert ns[p - 1] in ns && C.OrderOf(ns)[p - 1] == p;
    }
  }

  /** The trie seen through the merge: the same nodes, frames and parents. */
  ghost predicate SeenAs(byId: map<int, B.CpuNode>, parent: map<int, int>, nodes: seq<T.Node>, parents: seq<int>)
    requires |nodes| == |parents|
  {
    && (forall id :: id in byId <==> 1 <= id <= |nodes|)
    && (forall id :: 1 <= id <= |nodes| ==> byId[id].frame == nodes[id - 1].frame)
    && (forall c :: c in parent <==> 2 <= c <= |nodes|)
    && (forall c :: 2 <= c <= |nodes| ==> parent[c] == parents[c - 1])
  }

  lemma MergedTrie(nodes: seq<T.Node>, keys: T.Keys, parents: seq<int>)
    requires T.ValidTrie(nodes, keys, parents)
    ensures SeenAs(B.NodeById(C.Merged(RawNodes(nodes))), B.ParentMap(C.Merged(RawNodes(nodes))), nodes, parents)
  {
    hide T.KeysMatch;
    hide T.ChildrenMatch;
    hide C.Merged;
    hide C.OrderOf;
    hide C.FrameOf;
    hide B.NodeById;
    hide B.ParentMap;
    hide C.Declares;
    var ns := RawNodes(nodes);
    RawOrder(nodes);
    forall p, c
      ensures C.Declares(ns, p, c) <==> 2 <= c <= |nodes| && parents[c - 1] == p
    {
      RawDeclares(nodes, keys, parents, p, c);
    }
    C.ForestParents(ns);
    forall id
      ensures id in B.NodeById(C.Merged(ns)) <==> 1 <= id <= |nodes|
      ensures 1 <= id <= |nodes| ==> B.NodeById(C.Merged(ns))[id].frame == nodes[id - 1].frame
    {
      C.MergedById(ns, id);
      if 1 <= id <= |nodes| {
        assert C.OrderOf(ns)[id - 1] == id;
      }
    }
    forall c
      ensures c in B.ParentMap(C.Merged(ns)) <==> 2 <= c <= |nodes|
      ensures 2 <= c <= |nodes| ==> B.ParentMap(C.Merged(ns))[c] == parents[c - 1]
    {
      if c in B.ParentMap(C.Merged(ns)) {
        assert C.Declares(ns, B.ParentMap(C.Merged(ns))[c], c);
      }
      if 2 <= c <= |nodes| {
        assert C.Declares(ns, parents[c - 1], c);
      }
    }
  }

  /** Ids fall towards the root, so they rank themselves. */
  function IdRank(n: nat): (rank: map<int, nat>)
    ensures forall id :: id in rank <==> 1 <= id <= n
    ensures forall id :: id in rank ==> rank[id] == id
  {
    if n == 0 then map[] else IdRank(n - 1)[n := n]
  }

  lemma TrieRanks(byId: map<int, B.CpuNode>, parent: map<int, int>, nodes: seq<T.Node>, parents: seq<int>)
    requires T.Shape(nodes, parents) && SeenAs(byId, parent, nodes, parents)
    ensures B.Ranks(IdRank(|nodes|), byId, parent) && forall id :: B.Ranked(IdRank(|nodes|), byId, id)
  {}

  /** Walking up from a node spells its path, leaf first, and ends at the root. */
  lemma {:induction false} StackSpells(byId: map<int, B.CpuNode>, parent: map<int, int>, nodes: seq<T.Node>,
                                       parents: seq<int>, leaf: int)
    requires T.Shape(nodes, parents) && SeenAs(byId, parent, nodes, parents) && 1 <= leaf <= |nodes|
    requires B.Ranks(IdRank(|nodes|), byId, parent)
    ensures SpellsUp(byId, B.NodeStack(IdRank(|nodes|), byId, parent, leaf), [T.ROOT] + T.Path(nodes, parents, leaf))
    decreases leaf
  {
    if leaf > 1 {
      StackSpells(byId, parent, nodes, parents, parents[leaf - 1]);
      hide SeenAs;
      var up := B.NodeStack(IdRank(|nodes|), byId, parent, parents[leaf - 1]);
      var path := [T.ROOT] + T.Path(nodes, parents, parents[leaf - 1]);
      assert [T.ROOT] + T.Path(nodes, parents, leaf) == path + [nodes[leaf - 1].frame];
      SpellsMore(byId, up, path, leaf);
    }
  }

  ghost predicate SpellsUp(byId: map<int, B.CpuNode>, ids: seq<int>, path: seq<CallFrame>) {
    |ids| == |path| && forall k :: 0 <= k < |ids| ==> ids[k] in byId && byId[ids[k]].frame == path[|path| - 1 - k]
  }

  lemma SpellsMore(byId: map<int, B.CpuNode>, ids: seq<int>, path: seq<CallFrame>, leaf: int)
    requires SpellsUp(byId, ids, path) && leaf in byId
    ensures SpellsUp(byId, [leaf] + ids, path + [byId[leaf].frame])
  {}

  // --------------------------------------------------------- counts and times

  /** How many V8 samples a stack stands for in all, and for how long. */
  function CountFor(ss: seq<T.StackSample>, frames: seq<CallFrame>): int {
    if ss == [] then 0
    else CountFor(ss[..|ss| - 1], frames) + if ss[|ss| - 1].frames == frames then ss[|ss| - 1].count else 0
  }

  function UsFor(ss: seq<T.StackSample>, frames: seq<CallFrame>): int {
    if ss == [] then 0
    else UsFor(ss[..|ss| - 1], frames) + if ss[|ss| - 1].frames == frames then ss[|ss| - 1].deltaUs else 0
  }

  function TicksFor(ticks: seq<T.Tick>, frames: seq<CallFrame>): int {
    if ticks == [] then 0
    else TicksFor(ticks[..|ticks| - 1], frames) + if ticks[|ticks| - 1].frames == frames then 1 else 0
  }

  function TickUsFor(ticks: seq<T.Tick>, frames: seq<CallFrame>): int {
    if ticks == [] then 0
    else
      TickUsFor(ticks[..|ticks| - 1], frames)
      + if ticks[|ticks| - 1].frames == frames then ticks[|ticks| - 1].deltaUs else 0
  }

  lemma {:induction false} TicksForAppend(a: seq<T.Tick>, b: seq<T.Tick>, frames: seq<CallFrame>)
    ensures TicksFor(a + b, frames) == TicksFor(a, frames) + TicksFor(b, frames)
    ensures TickUsFor(a + b, frames) == TickUsFor(a, frames) + TickUsFor(b, frames)
  {
    if b == [] {
      assert a + b == a;
    } else {
      assert (a + b)[..|a + b| - 1] == a + b[..|b| - 1];
      TicksForAppend(a, b[..|b| - 1], frames);
    }
  }

  lemma {:induction false} OneStackTicks(ticks: seq<T.Tick>, own: seq<CallFrame>, frames: seq<CallFrame>)
    requires forall i :: 0 <= i < |ticks| ==> ticks[i].frames == own
    ensures TicksFor(ticks, frames) == (if own == frames then |ticks| else 0)
    ensures TickUsFor(ticks, frames) == (if own == frames then T.SumUs(ticks) else 0)
  {
    if ticks != [] {
      OneStackTicks(ticks[..|ticks| - 1], own, frames);
    }
  }

  lemma OneSpread(s: T.StackSample, frames: seq<CallFrame>)
    requires s.count >= 1
    ensures TicksFor(T.Spread(s), frames) == (if s.frames == frames then s.count else 0)
    ensures TickUsFor(T.Spread(s), frames) == (if s.frames == frames then s.deltaUs else 0)
  {
    T.SpreadIsFair(s);
    OneStackTicks(T.Spread(s), s.frames, frames);
  }

  /** Spreading a sample over ticks keeps, stack by stack, its count and its time. */
  lemma {:induction false} SpreadKeepsStacks(ss: seq<T.StackSample>, frames: seq<CallFrame>)
    requires forall x :: x in ss ==> x.count >= 1
    ensures TicksFor(T.Ticks(ss), frames) == CountFor(ss, frames)
    ensures TickUsFor(T.Ticks(ss), frames) == UsFor(ss, frames)
  {
    if ss != [] {
      var init, s := ss[..|ss| - 1], ss[|ss| - 1];
      hide T.Spread;
      SpreadKeepsStacks(init, frames);
      OneSpread(s, frames);
      TicksForAppend(T.Ticks(init), T.Spread(s), frames);
    }
  }

  /** A leaf's share of the emitted samples is its stack's share of the ticks. */
  lemma {:induction false} LeafShare(nodes: seq<T.Node>, keys: T.Keys, parents: seq<int>, ids: seq<int>,
                                     deltas: seq<int>, ticks: seq<T.Tick>, n: nat, leaf: int)
    requires T.ValidTrie(nodes, keys, parents) && T.Emitted(nodes, parents, ids, deltas, ticks)
    requires n <= |ticks| && 1 <= leaf <= |nodes|
    ensures B.Occurrences(ids[..n], leaf) == TicksFor(ticks[..n], T.Path(nodes, parents, leaf))
    ensures B.TimeOf(ids[..n], deltas, leaf) == TickUsFor(ticks[..n], T.Path(nodes, parents, leaf))
  {
    if n > 0 {
      LeafShare(nodes, keys, parents, ids, deltas, ticks, n - 1, leaf);
      T.SameNodeIffSameStack(nodes, keys, parents, ids[n - 1], leaf);
      hide T.ValidTrie;
      hide T.Path;
      assert ids[..n][..n - 1] == ids[..n - 1] && ticks[..n][..n - 1] == ticks[..n - 1];
    }
  }

  lemma LeafValues(nodes: seq<T.Node>, keys: T.Keys, parents: seq<int>, ids: seq<int>, deltas: seq<int>,
                   ss: seq<T.StackSample>, leaf: int)
    requires forall x :: x in ss ==> x.count >= 1
    requires T.ValidTrie(nodes, keys, parents) && T.Emitted(nodes, parents, ids, deltas, T.Ticks(ss))
             && 1 <= leaf <= |nodes|
    ensures B.Occurrences(ids, leaf) == CountFor(ss, T.Path(nodes, parents, leaf))
    ensures B.TimeOf(ids, deltas, leaf) == UsFor(ss, T.Path(nodes, parents, leaf))
  {
    hide T.ValidTrie;
    hide T.Path;
    hide T.Ticks;
    LeafShare(nodes, keys, parents, ids, deltas, T.Ticks(ss), |ids|, leaf);
    assert ids[..|ids|] == ids && T.Ticks(ss)[..|ids|] == T.Ticks(ss);
    SpreadKeepsStacks(ss, T.Path(nodes, parents, leaf));
  }

  ghost predicate HasStack(ss: seq<T.StackSample>, frames: seq<CallFrame>) {
    exists x :: x in ss && x.frames == frames
  }

  ghost predicate HasTick(ticks: seq<T.Tick>, frames: seq<CallFrame>) {
    exists k :: 0 <= k < |ticks| && ticks[k].frames == frames
  }

  lemma HasTickAppend(a: seq<T.Tick>, b: seq<T.Tick>, frames: seq<CallFrame>)
    ensures HasTick(a + b, frames) <==> HasTick(a, frames) || HasTick(b, frames)
  {
    if HasTick(a, frames) {
      var k :| 0 <= k < |a| && a[k].frames == frames;
      assert (a + b)[k].frames == frames;
    }
    if HasTick(b, frames) {
      var k :| 0 <= k < |b| && b[k].frames == frames;
      assert (a + b)[|a| + k].frames == frames;
    }
  }

  lemma SpreadTicks(s: T.StackSample, frames: seq<CallFrame>)
    requires s.count >= 1
    ensures HasTick(T.Spread(s), frames) <==> s.frames == frames
  {
    assert T.Spread(s)[0].frames == s.frames;
  }

  /** Every sample's stack is ticked, and no other. */
  lemma {:induction false} TickStacks(ss: seq<T.StackSample>, frames: seq<CallFrame>)
    requires forall x :: x in ss ==> x.count >= 1
    ensures HasTick(T.Ticks(ss), frames) <==> HasStack(ss, frames)
  {
    if ss != [] {
      var init, s := ss[..|ss| - 1], ss[|ss| - 1];
      TickStacks(init, frames);
      assert forall x :: x in ss <==> x in init || x == s;
      hide T.Spread;
      HasTickAppend(T.Ticks(init), T.Spread(s), frames);
      SpreadTicks(s, frames);
      hide HasTick;
    }
  }

  // ------------------------------------------------------- reading the trace

  /** The one stream a written trace holds. */
  function StreamOf(t: T.CpuTrace): C.Partial {
    C.Partial(Some(t.startTime), Some(t.endTime), [C.Chunk(t.startTime, RawNodes(t.nodes), t.samples, t.timeDeltas)])
  }

  lemma OwnNothing(key: string)
    ensures C.Own([], key) == []
  {}

  lemma OwnLast(e0: C.Event, e1: C.Event, e2: C.Event, e3: C.Event, key: string)
    requires !C.IsProfileEvent(e0) && !C.IsProfileEvent(e1)
    requires C.IsProfileEvent(e2) && C.IsProfileEvent(e3) && e2.key == e3.key
    ensures C.Own([e0, e1, e2, e3], key) == if key == e2.key then [e2, e3] else []
  {
    hide C.Own;
    hide C.IngestAll;
    hide C.Ingest;
    hide C.IsProfileEvent;
    OwnNothing(key);
    C.OwnSnoc([], e0, key);
    assert [] + [e0] == [e0];
    C.OwnSnoc([e0], e1, key);
    assert [e0] + [e1] == [e0, e1];
    C.OwnSnoc([e0, e1], e2, key);
    assert [e0, e1] + [e2] == [e0, e1, e2];
    C.OwnSnoc([e0, e1, e2], e3, key);
    assert [e0, e1, e2] + [e3] == [e0, e1, e2, e3];
  }

  lemma OwnEvents(t: T.CpuTrace, ids: Ids, key: string)
    ensures var events := TraceEvents(t, ids);
            C.Own(events, key) == if key == events[2].key then [events[2], events[3]] else []
  {
    hide ProfileKey;
    hide C.Own;
    var events := TraceEvents(t, ids);
    OwnLast(events[0], events[1], events[2], events[3], key);
    assert events == [events[0], events[1], events[2], events[3]];
  }

  lemma StreamIngested(t: T.CpuTrace, ids: Ids)
    requires t.samples != [] && t.timeDeltas != []
    ensures var events := TraceEvents(t, ids);
            C.IngestAll([events[2], events[3]]) == StreamOf(t)
  {
    var events := TraceEvents(t, ids);
    var e2, e3 := events[2], events[3];
    assert [e2, e3][..1] == [e2] && [e2][..0] == [];
    assert C.IngestAll([e2]) == C.Ingest(C.IngestAll([]), e2);
    assert C.IngestAll([e2, e3]) == C.Ingest(C.IngestAll([e2]), e3);
  }

  /** The profile read back from a written trace. */
  function ReadBack(t: T.CpuTrace): B.CpuProfile {
    B.CpuProfile(C.Merged(RawNodes(t.nodes)), t.samples, t.timeDeltas, t.startTime, t.endTime)
  }

  lemma StreamProfile(t: T.CpuTrace, default: int)
    requires |t.samples| == |t.timeDeltas|
    ensures C.ProfileFor(StreamOf(t), default) == Some(ReadBack(t))
  {
    hide C.Merged;
    var c := C.Chunk(t.startTime, RawNodes(t.nodes), t.samples, t.timeDeltas);
    SortedIsFixed([c], C.Ts);
    assert [c][..0] == [];
    assert C.NodesOf([c]) == [] + c.nodes == c.nodes;
    assert C.SamplesOf([c]) == [] + c.samples == c.samples;
    assert C.DeltasOf([c]) == [] + c.timeDeltas == c.timeDeltas;
    assert t.timeDeltas[..|t.samples|] == t.timeDeltas;
  }

  lemma OneKey(keys: seq<string>, key: string)
    requires K.Ascending(keys) && forall k :: k in keys <==> k == key
    ensures keys == [key]
  {
    assert key in keys;
    if |keys| >= 2 {
      K.AscendingUnique(keys, [key]);
    }
  }

  /** Reading a written trace finds exactly the profile that was written. */
  lemma TraceReadBack(t: T.CpuTrace, ids: Ids, default: int, out: seq<B.CpuProfile>)
    requires t.samples != [] && |t.samples| == |t.timeDeltas|
    requires C.Extracts(TraceEvents(t, ids), default, out)
    ensures out == [ReadBack(t)]
  {
    hide C.ExtractsBy;
    var streams, keys :| C.ExtractsBy(TraceEvents(t, ids), default, out, streams, keys);
    StreamsReadBack(t, ids, default, out, streams, keys);
  }

  lemma StreamsReadBack(t: T.CpuTrace, ids: Ids, default: int, out: seq<B.CpuProfile>, streams: map<string, C.Partial>,
                        keys: seq<string>)
    requires t.samples != [] && |t.samples| == |t.timeDeltas|
    requires C.ExtractsBy(TraceEvents(t, ids), default, out, streams, keys)
    ensures out == [ReadBack(t)]
  {
    hide C.Own;
    hide C.IngestAll;
    hide C.ProfileFor;
    hide K.Ascending;
    hide ReadBack;
    hide StreamOf;
    hide C.ProfilesIn;
    var events := TraceEvents(t, ids);
    var key := events[2].key;
    StreamIngested(t, ids);
    forall k
      ensures k in streams <==> k == key
      ensures k in streams ==> streams[k] == StreamOf(t)
    {
      OwnEvents(t, ids, k);
    }
    OneKey(keys, key);
    StreamProfile(t, default);
    OneProfile(key, streams, default);
  }

  lemma OneProfile(key: string, streams: map<string, C.Partial>, default: int)
    requires key in streams && C.ProfileFor(streams[key], default).Some?
    ensures C.ProfilesIn([key], streams, default) == [C.ProfileFor(streams[key], default).value]
  {
    hide C.ProfileFor;
    assert [key][..0] == [];
    assert C.ProfilesIn([key][..0], streams, default) == [];
  }

  // ---------------------------------------------------------- the round trip

  /** Location ids that resolve, leaf first, to the frames of a root-first path. */
  ghost predicate ShowsPath(q: P.Profile, demangle: string -> string, ids: seq<nat>, path: seq<CallFrame>) {
    && |ids| == |path|
    && forall k :: 0 <= k < |ids| ==> B.Resolve(q, ids[k]) == Some(B.Expected(demangle, path[|path| - 1 - k]))
  }

  /** Location ids in range, one per frame of a root-first path, leaf first, each with its frame's line. */
  ghost predicate LocatedPath(q: P.Profile, ids: seq<nat>, path: seq<CallFrame>) {
    |ids| == |path| && forall k :: 0 <= k < |ids| ==> B.Located(q, ids[k], path[|path| - 1 - k])
  }

  /** One result sample per distinct input stack, with the stack's count and its nanoseconds and a location for the
      added root and for every frame. */
  ghost predicate TripValues(q: P.Profile, stacks: seq<seq<CallFrame>>, ss: seq<T.StackSample>) {
    && |q.samples| == |stacks|
    && (forall i, j :: 0 <= i < j < |stacks| ==> stacks[i] != stacks[j])
    && (forall frames :: frames in stacks <==> HasStack(ss, frames))
    && (forall k :: 0 <= k < |stacks| ==>
          && q.samples[k].values == [CountFor(ss, stacks[k]), UsFor(ss, stacks[k]) * 1000]
          && LocatedPath(q, q.samples[k].locationIds, [T.ROOT] + stacks[k]))
  }

  /** Every sample shows its stack under the root. */
  ghost predicate TripShows(q: P.Profile, stacks: seq<seq<CallFrame>>, demangle: string -> string) {
    |q.samples| == |stacks| && forall k :: 0 <= k < |stacks| ==>
      ShowsPath(q, demangle, q.samples[k].locationIds, [T.ROOT] + stacks[k])
  }

  ghost predicate OnTrip(ss: seq<T.StackSample>, f: CallFrame) {
    f == T.ROOT || T.OnSomeStack(ss, f)
  }

  /** Frames of the stacks, the root's included, that share a function key show the same name and url. */
  ghost predicate FramesAgree(ss: seq<T.StackSample>, demangle: string -> string) {
    forall f, g :: OnTrip(ss, f) && OnTrip(ss, g) && B.FunctionKey(f) == B.FunctionKey(g) ==>
      B.SameShown(demangle, f, g)
  }

  /** The values always; and the right frames exactly when keys agree. */
  ghost predicate OnePerStack(q: P.Profile, ss: seq<T.StackSample>, demangle: string -> string) {
    exists stacks :: RoundTripped(q, stacks, ss, demangle)
  }

  ghost predicate RoundTripped(q: P.Profile, stacks: seq<seq<CallFrame>>, ss: seq<T.StackSample>,
                               demangle: string -> string)
  {
    TripValues(q, stacks, ss) && (TripShows(q, stacks, demangle) <==> FramesAgree(ss, demangle))
  }

  ghost predicate AllFrames(ss: seq<T.StackSample>, ok: CallFrame -> bool) {
    forall x, f :: x in ss && f in x.frames ==> ok(f)
  }

  /** Names and urls that the function key keeps apart. */
  predicate KeySafe(f: CallFrame) {
    Free(f.functionName, B.SEP) && Free(f.url, B.SEP)
  }

  lemma {:induction false} PathFrames(nodes: seq<T.Node>, parents: seq<int>, id: int, f: CallFrame)
    requires |nodes| == |parents| && f in T.Path(nodes, parents, id)
    ensures exists i :: 0 <= i < |nodes| && nodes[i].frame == f
    decreases id
  {
    if 1 < id <= |nodes| && parents[id - 1] < id && f != nodes[id - 1].frame {
      PathFrames(nodes, parents, parents[id - 1], f);
    }
  }

  /** What holds of the root's frame and of every frame on a converted stack holds of every node, and conversely. */
  lemma NodesOrStacks(nodes: seq<T.Node>, parents: seq<int>, ids: seq<int>, deltas: seq<int>, ss: seq<T.StackSample>,
                      ok: CallFrame -> bool)
    requires forall x :: x in ss ==> x.count >= 1
    requires |nodes| >= 1 && nodes[0].frame == T.ROOT && T.FramesFrom(nodes, ss) && ok(T.ROOT)
    requires T.Emitted(nodes, parents, ids, deltas, T.Ticks(ss))
    ensures (forall i :: 0 <= i < |nodes| ==> ok(nodes[i].frame)) <==> AllFrames(ss, ok)
  {
    hide T.Path;
    hide T.Ticks;
    if AllFrames(ss, ok) {
      forall i | 0 <= i < |nodes|
        ensures ok(nodes[i].frame)
      {
        if i > 0 {
          assert T.OnSomeStack(ss, nodes[i].frame);
          var x :| x in ss && nodes[i].frame in x.frames;
        }
      }
    }
    if forall i :: 0 <= i < |nodes| ==> ok(nodes[i].frame) {
      forall x, f | x in ss && f in x.frames
        ensures ok(f)
      {
        assert HasStack(ss, x.frames);
        TickStacks(ss, x.frames);
        var k :| 0 <= k < |T.Ticks(ss)| && T.Ticks(ss)[k].frames == x.frames;
        PathFrames(nodes, parents, ids[k], f);
      }
    }
  }

  /** Names and urls without the separator agree. */
  lemma SafeFramesAgree(ss: seq<T.StackSample>, demangle: string -> string)
    requires AllFrames(ss, KeySafe)
    ensures FramesAgree(ss, demangle)
  {
    hide B.FunctionKey;
    RootIsSafe();
    AnonymousIsSafe();
    forall f, g | OnTrip(ss, f) && OnTrip(ss, g) && B.FunctionKey(f) == B.FunctionKey(g)
      ensures B.SameShown(demangle, f, g)
    {
      var m, n := B.CpuNode(0, f, []), B.CpuNode(1, g, []);
      assert KeySafe(f) && KeySafe(g);
      B.SeparatorFreeKeys([m, n]);
      assert m in [m, n] && n in [m, n];
    }
  }

  /** Two stacks whose keys run together do not: one comes back under the other's name. */
  lemma CollidingFramesDisagree(demangle: string -> string)
    ensures var f, g := B.CollidingProfile().nodes[0].frame, B.CollidingProfile().nodes[1].frame;
            !FramesAgree([T.StackSample([f], 1, 1), T.StackSample([g], 1, 1)], demangle)
  {
    var f, g := B.CollidingProfile().nodes[0].frame, B.CollidingProfile().nodes[1].frame;
    var x, y := T.StackSample([f], 1, 1), T.StackSample([g], 1, 1);
    B.SeparatorCollides();
    hide B.FunctionKey;
    assert x in [x, y] && y in [x, y] && f in x.frames && g in y.frames;
    assert OnTrip([x, y], f) && OnTrip([x, y], g);
    assert |f.url| == 1 && |g.url| == 3;
  }

  lemma AnonymousIsSafe()
    ensures Free("(anonymous)", B.SEP)
  {}

  ghost function StacksOf(nodes: seq<T.Node>, parents: seq<int>, leaves: seq<int>): seq<seq<CallFrame>>
    requires |nodes| == |parents|
  {
    seq(|leaves|, k requires 0 <= k < |leaves| => T.Path(nodes, parents, leaves[k]))
  }

  lemma ShowsStack(q: P.Profile, demangle: string -> string, byId: map<int, B.CpuNode>, ids: seq<nat>, stack: seq<int>,
                   path: seq<CallFrame>)
    requires SpellsUp(byId, stack, path)
    ensures B.ResolvesTo(q, demangle, byId, ids, stack) <==> ShowsPath(q, demangle, ids, path)
    ensures B.LocatedAll(q, byId, ids, stack) <==> LocatedPath(q, ids, path)
  {
    hide B.Resolve;
    hide B.Expected;
    hide B.Located;
  }

  /** The leaves that were sampled are valid nodes, and their paths are the converted stacks. */
  lemma LeafStacks(t: T.CpuTrace, keys: T.Keys, parents: seq<int>, ss: seq<T.StackSample>, leaves: seq<int>)
    requires forall x :: x in ss ==> x.count >= 1
    requires T.ValidTrie(t.nodes, keys, parents) && T.Emitted(t.nodes, parents, t.samples, t.timeDeltas, T.Ticks(ss))
    requires B.Distinct(leaves) && forall id :: id in leaves <==> id in t.samples
    ensures forall k :: 0 <= k < |leaves| ==> 1 <= leaves[k] <= |t.nodes|
    ensures forall i, j :: 0 <= i < j < |leaves| ==>
              StacksOf(t.nodes, parents, leaves)[i] != StacksOf(t.nodes, parents, leaves)[j]
    ensures forall frames :: frames in StacksOf(t.nodes, parents, leaves) <==> HasStack(ss, frames)
  {
    hide T.ValidTrie;
    hide T.Path;
    hide T.Ticks;
    hide HasStack;
    var stacks := StacksOf(t.nodes, parents, leaves);
    forall k | 0 <= k < |leaves|
      ensures 1 <= leaves[k] <= |t.nodes|
    {
      assert leaves[k] in t.samples;
      var j :| 0 <= j < |t.samples| && t.samples[j] == leaves[k];
    }
    forall i, j | 0 <= i < j < |leaves|
      ensures stacks[i] != stacks[j]
    {
      T.SameNodeIffSameStack(t.nodes, keys, parents, leaves[i], leaves[j]);
    }
    forall frames
      ensures frames in stacks <==> HasStack(ss, frames)
    {
      TickStacks(ss, frames);
      if frames in stacks {
        var k :| 0 <= k < |stacks| && stacks[k] == frames;
        assert leaves[k] in t.samples;
        var j :| 0 <= j < |t.samples| && t.samples[j] == leaves[k];
        assert T.Ticks(ss)[j].frames == frames;
      }
      if HasTick(T.Ticks(ss), frames) {
        var j :| 0 <= j < |T.Ticks(ss)| && T.Ticks(ss)[j].frames == frames;
        assert t.samples[j] in t.samples;
        var k :| 0 <= k < |leaves| && leaves[k] == t.samples[j];
        assert stacks[k] == frames;
      }
    }
  }

  function TotalCount(ss: seq<T.StackSample>): int {
    if ss == [] then 0 else TotalCount(ss[..|ss| - 1]) + ss[|ss| - 1].count
  }

  lemma {:induction false} TickTotal(ss: seq<T.StackSample>)
    requires forall x :: x in ss ==> x.count >= 1
    ensures |T.Ticks(ss)| == TotalCount(ss)
  {
    if ss != [] {
      TickTotal(ss[..|ss| - 1]);
    }
  }

  lemma {:induction false} DeltasAreTicks(nodes: seq<T.Node>, parents: seq<int>, ids: seq<int>, deltas: seq<int>,
                                          ticks: seq<T.Tick>, n: nat)
    requires T.Emitted(nodes, parents, ids, deltas, ticks) && n <= |ticks|
    ensures B.SumDeltas(deltas, n) == T.SumUs(ticks[..n])
  {
    if n > 0 {
      DeltasAreTicks(nodes, parents, ids, deltas, ticks, n - 1);
      hide T.Path;
      assert ticks[..n][..n - 1] == ticks[..n - 1];
    }
  }

  /** The round trip conserves the total count and the total time. */
  lemma Conserved(q: P.Profile, leaves: seq<int>, t: T.CpuTrace, parents: seq<int>, ss: seq<T.StackSample>)
    requires forall x :: x in ss ==> x.count >= 1
    requires T.Emitted(t.nodes, parents, t.samples, t.timeDeltas, T.Ticks(ss))
    requires B.Ranks(IdRank(|t.nodes|), B.NodeById(ReadBack(t).nodes), B.ParentMap(ReadBack(t).nodes))
    requires B.BuiltValues(q, leaves, ReadBack(t), IdRank(|t.nodes|))
    ensures B.SumColumn(q.samples, 0) == TotalCount(ss) && B.SumColumn(q.samples, 1) == 1000 * T.TotalUs(ss)
  {
    hide T.Path;
    hide T.Ticks;
    hide C.Merged;
    hide B.BuiltValues;
    hide B.Ranks;
    B.BuiltConserves(q, leaves, ReadBack(t), IdRank(|t.nodes|));
    TickTotal(ss);
    DeltasAreTicks(t.nodes, parents, t.samples, t.timeDeltas, T.Ticks(ss), |t.samples|);
    assert T.Ticks(ss)[..|t.samples|] == T.Ticks(ss);
    T.TicksConserveTime(ss);
  }

  /** The stack of node ids a leaf stands for. */
  ghost predicate LeafSpelled(t: T.CpuTrace, parents: seq<int>, byId: map<int, B.CpuNode>, parent: map<int, int>,
                              leaf: int)
    requires |t.nodes| == |parents| && B.Ranks(IdRank(|t.nodes|), byId, parent)
  {
    SpellsUp(byId, B.NodeStack(IdRank(|t.nodes|), byId, parent, leaf), [T.ROOT] + T.Path(t.nodes, parents, leaf))
  }

  lemma LeafSpells(t: T.CpuTrace, keys: T.Keys, parents: seq<int>, leaf: int)
    requires |t.nodes| == |parents| && T.ValidTrie(t.nodes, keys, parents) && 1 <= leaf <= |t.nodes|
    requires B.Ranks(IdRank(|t.nodes|), B.NodeById(ReadBack(t).nodes), B.ParentMap(ReadBack(t).nodes))
    ensures LeafSpelled(t, parents, B.NodeById(ReadBack(t).nodes), B.ParentMap(ReadBack(t).nodes), leaf)
  {
    hide C.Merged;
    hide B.NodeById;
    hide B.ParentMap;
    hide SeenAs;
    hide B.Ranks;
    hide SpellsUp;
    hide T.Path;
    hide T.Shape;
    hide T.KeysMatch;
    hide T.ChildrenMatch;
    MergedTrie(t.nodes, keys, parents);
    StackSpells(B.NodeById(ReadBack(t).nodes), B.ParentMap(ReadBack(t).nodes), t.nodes, parents, leaf);
  }

  /** The sampled leaves: valid nodes whose paths are the converted stacks. */
  lemma SampledLeaf(t: T.CpuTrace, parents: seq<int>, ss: seq<T.StackSample>, leaf: int)
    requires forall x :: x in ss ==> x.count >= 1
    requires T.Emitted(t.nodes, parents, t.samples, t.timeDeltas, T.Ticks(ss)) && leaf in t.samples
    ensures 1 <= leaf <= |t.nodes| == |parents| && HasStack(ss, T.Path(t.nodes, parents, leaf))
  {
    hide T.Path;
    hide T.Ticks;
    hide HasStack;
    var j :| 0 <= j < |t.samples| && t.samples[j] == leaf;
    assert T.Ticks(ss)[j].frames == T.Path(t.nodes, parents, leaf);
    TickStacks(ss, T.Path(t.nodes, parents, leaf));
  }

  lemma SampledStack(t: T.CpuTrace, parents: seq<int>, ss: seq<T.StackSample>, frames: seq<CallFrame>)
    returns (leaf: int)
    requires forall x :: x in ss ==> x.count >= 1
    requires T.Emitted(t.nodes, parents, t.samples, t.timeDeltas, T.Ticks(ss)) && HasStack(ss, frames)
    ensures leaf in t.samples && 1 <= leaf <= |t.nodes| == |parents| && T.Path(t.nodes, parents, leaf) == frames
  {
    hide T.Path;
    hide T.Ticks;
    hide HasStack;
    TickStacks(ss, frames);
    var j :| 0 <= j < |T.Ticks(ss)| && T.Ticks(ss)[j].frames == frames;
    leaf := t.samples[j];
  }

  lemma SpelledAt(byId: map<int, B.CpuNode>, ids: seq<int>, path: seq<CallFrame>, id: int)
    requires SpellsUp(byId, ids, path) && id in ids
    ensures id in byId && byId[id].frame in path
  {
    var k :| 0 <= k < |ids| && ids[k] == id;
    assert path[|path| - 1 - k] in path;
  }

  lemma SpelledId(byId: map<int, B.CpuNode>, ids: seq<int>, path: seq<CallFrame>, f: CallFrame) returns (id: int)
    requires SpellsUp(byId, ids, path) && f in path
    ensures id in ids && id in byId && byId[id].frame == f
  {
    var k :| 0 <= k < |path| && path[k] == f;
    id := ids[|path| - 1 - k];
  }

  /** A node on a sampled stack has a frame of a converted stack, or the root's. */
  lemma NodeOnTrip(t: T.CpuTrace, keys: T.Keys, parents: seq<int>, ss: seq<T.StackSample>, id: int)
    requires forall x :: x in ss ==> x.count >= 1
    requires |t.nodes| == |parents| && T.ValidTrie(t.nodes, keys, parents)
    requires T.Emitted(t.nodes, parents, t.samples, t.timeDeltas, T.Ticks(ss))
    requires B.Ranks(IdRank(|t.nodes|), B.NodeById(ReadBack(t).nodes), B.ParentMap(ReadBack(t).nodes))
    requires B.OnStackOf(IdRank(|t.nodes|), B.NodeById(ReadBack(t).nodes), B.ParentMap(ReadBack(t).nodes), t.samples,
                         id)
    ensures id in B.NodeById(ReadBack(t).nodes) && OnTrip(ss, B.NodeById(ReadBack(t).nodes)[id].frame)
  {
    hide T.ValidTrie;
    hide T.Path;
    hide T.Ticks;
    hide T.Emitted;
    hide ReadBack;
    hide B.NodeById;
    hide B.ParentMap;
    hide B.NodeStack;
    hide B.Ranks;
    hide SpellsUp;
    var byId, parent := B.NodeById(ReadBack(t).nodes), B.ParentMap(ReadBack(t).nodes);
    var leaf :| leaf in t.samples && id in B.NodeStack(IdRank(|t.nodes|), byId, parent, leaf);
    SampledLeaf(t, parents, ss, leaf);
    LeafSpells(t, keys, parents, leaf);
    var path := T.Path(t.nodes, parents, leaf);
    SpelledAt(byId, B.NodeStack(IdRank(|t.nodes|), byId, parent, leaf), [T.ROOT] + path, id);
    if byId[id].frame != T.ROOT {
      assert byId[id].frame in path;
      var x :| x in ss && x.frames == path;
    }
  }

  /** And every such frame is that of a node on a sampled stack. */
  lemma TripOnNode(t: T.CpuTrace, keys: T.Keys, parents: seq<int>, ss: seq<T.StackSample>, f: CallFrame)
    returns (id: int)
    requires ss != [] && forall x :: x in ss ==> x.count >= 1
    requires |t.nodes| == |parents| && T.ValidTrie(t.nodes, keys, parents)
    requires T.Emitted(t.nodes, parents, t.samples, t.timeDeltas, T.Ticks(ss)) && OnTrip(ss, f)
    requires B.Ranks(IdRank(|t.nodes|), B.NodeById(ReadBack(t).nodes), B.ParentMap(ReadBack(t).nodes))
    ensures B.OnStackOf(IdRank(|t.nodes|), B.NodeById(ReadBack(t).nodes), B.ParentMap(ReadBack(t).nodes), t.samples, id)
    ensures id in B.NodeById(ReadBack(t).nodes) && B.NodeById(ReadBack(t).nodes)[id].frame == f
  {
    hide T.ValidTrie;
    hide T.Path;
    hide T.Ticks;
    hide T.Emitted;
    hide ReadBack;
    hide B.NodeById;
    hide B.ParentMap;
    hide B.NodeStack;
    hide B.Ranks;
    hide SpellsUp;
    var byId, parent := B.NodeById(ReadBack(t).nodes), B.ParentMap(ReadBack(t).nodes);
    var x := ss[0];
    if f != T.ROOT {
      x :| x in ss && f in x.frames;
    }
    assert HasStack(ss, x.frames);
    var leaf := SampledStack(t, parents, ss, x.frames);
    LeafSpells(t, keys, parents, leaf);
    id := SpelledId(byId, B.NodeStack(IdRank(|t.nodes|), byId, parent, leaf), [T.ROOT] + x.frames, f);
  }

  lemma AgreeAlike(t: T.CpuTrace, keys: T.Keys, parents: seq<int>, ss: seq<T.StackSample>, demangle: string -> string)
    requires ss != [] && forall x :: x in ss ==> x.count >= 1
    requires |t.nodes| == |parents| && T.ValidTrie(t.nodes, keys, parents)
    requires T.Emitted(t.nodes, parents, t.samples, t.timeDeltas, T.Ticks(ss))
    requires B.Ranks(IdRank(|t.nodes|), B.NodeById(ReadBack(t).nodes), B.ParentMap(ReadBack(t).nodes))
    ensures B.KeysAgree(demangle, IdRank(|t.nodes|), B.NodeById(ReadBack(t).nodes), B.ParentMap(ReadBack(t).nodes),
                        t.samples)
            <==> FramesAgree(ss, demangle)
  {
    hide T.ValidTrie;
    hide T.Ticks;
    hide T.Emitted;
    hide ReadBack;
    hide B.NodeById;
    hide B.ParentMap;
    hide B.Ranks;
    hide B.OnStackOf;
    hide B.FunctionKey;
    hide B.SameShown;
    hide OnTrip;
    var rank, byId, parent := IdRank(|t.nodes|), B.NodeById(ReadBack(t).nodes), B.ParentMap(ReadBack(t).nodes);
    if B.KeysAgree(demangle, rank, byId, parent, t.samples) {
      forall f, g | OnTrip(ss, f) && OnTrip(ss, g) && B.FunctionKey(f) == B.FunctionKey(g)
        ensures B.SameShown(demangle, f, g)
      {
        var a := TripOnNode(t, keys, parents, ss, f);
        var b := TripOnNode(t, keys, parents, ss, g);
      }
    }
    if FramesAgree(ss, demangle) {
      forall a, b | B.OnStackOf(rank, byId, parent, t.samples, a) && B.OnStackOf(rank, byId, parent, t.samples, b)
                    && a in byId && b in byId && B.FunctionKey(byId[a].frame) == B.FunctionKey(byId[b].frame)
        ensures B.SameShown(demangle, byId[a].frame, byId[b].frame)
      {
        NodeOnTrip(t, keys, parents, ss, a);
        NodeOnTrip(t, keys, parents, ss, b);
      }
    }
  }

  lemma Assemble(q: P.Profile, leaves: seq<int>, t: T.CpuTrace, keys: T.Keys, parents: seq<int>, ss: seq<T.StackSample>,
                 demangle: string -> string)
    requires ss != [] && forall x :: x in ss ==> x.count >= 1
    requires |t.nodes| == |parents| && T.ValidTrie(t.nodes, keys, parents)
    requires T.Emitted(t.nodes, parents, t.samples, t.timeDeltas, T.Ticks(ss))
    requires B.Ranks(IdRank(|t.nodes|), B.NodeById(ReadBack(t).nodes), B.ParentMap(ReadBack(t).nodes))
    requires B.Built(q, leaves, ReadBack(t), demangle, IdRank(|t.nodes|))
    ensures RoundTripped(q, StacksOf(t.nodes, parents, leaves), ss, demangle)
  {
    hide T.ValidTrie;
    hide T.Path;
    hide T.Ticks;
    hide HasStack;
    hide T.Emitted;
    hide B.NodeById;
    hide B.ParentMap;
    hide C.Merged;
    hide B.ResolvesTo;
    hide B.LocatedAll;
    hide B.KeysAgree;
    hide B.Ranks;
    hide B.Distinct;
    hide ShowsPath;
    hide LocatedPath;
    hide FramesAgree;
    hide B.Occurrences;
    hide B.TimeOf;
    hide B.NodeStack;
    hide SpellsUp;
    var byId, parent, rank := B.NodeById(ReadBack(t).nodes), B.ParentMap(ReadBack(t).nodes), IdRank(|t.nodes|);
    LeafStacks(t, keys, parents, ss, leaves);
    forall k | 0 <= k < |leaves|
      ensures q.samples[k].values == [CountFor(ss, T.Path(t.nodes, parents, leaves[k])),
                                      UsFor(ss, T.Path(t.nodes, parents, leaves[k])) * 1000]
      ensures LocatedPath(q, q.samples[k].locationIds, [T.ROOT] + T.Path(t.nodes, parents, leaves[k]))
      ensures B.ResolvesTo(q, demangle, byId, q.samples[k].locationIds, B.NodeStack(rank, byId, parent, leaves[k])) <==>
              ShowsPath(q, demangle, q.samples[k].locationIds, [T.ROOT] + T.Path(t.nodes, parents, leaves[k]))
    {
      LeafValues(t.nodes, keys, parents, t.samples, t.timeDeltas, ss, leaves[k]);
      LeafSpells(t, keys, parents, leaves[k]);
      ShowsStack(q, demangle, byId, q.samples[k].locationIds, B.NodeStack(rank, byId, parent, leaves[k]),
                 [T.ROOT] + T.Path(t.nodes, parents, leaves[k]));
    }
    AgreeAlike(t, keys, parents, ss, demangle);
  }

  /** The location ids of a result sample, against those of an input sample: leaf first they show the same frames in the
      same order, and then the added root. */
  ghost predicate ReturnsLocated(q: P.Profile, ids: seq<nat>, p: P.Profile, locationIds: seq<nat>) {
    && |ids| == |locationIds| + 1 && B.Located(q, ids[|locationIds|], T.ROOT)
    && forall j :: 0 <= j < |locationIds| ==> B.Located(q, ids[j], T.FrameForLocation(p, locationIds[j]))
  }

  ghost predicate ReturnsNamed(q: P.Profile, demangle: string -> string, ids: seq<nat>, p: P.Profile,
                               locationIds: seq<nat>)
  {
    && |ids| == |locationIds| + 1 && B.Resolve(q, ids[|locationIds|]) == Some(B.Expected(demangle, T.ROOT))
    && forall j :: 0 <= j < |locationIds| ==>
         B.Resolve(q, ids[j]) == Some(B.Expected(demangle, T.FrameForLocation(p, locationIds[j])))
  }

  ghost predicate Returns(q: P.Profile, demangle: string -> string, named: bool, ids: seq<nat>, p: P.Profile,
                          locationIds: seq<nat>)
  {
    ReturnsLocated(q, ids, p, locationIds) && (named ==> ReturnsNamed(q, demangle, ids, p, locationIds))
  }

  ghost predicate Kept(p: P.Profile, axis: P.Axis, s: P.Sample) {
    s in p.samples && P.ValueAt(s, axis.idx) > 0 && s.locationIds != []
  }

  /** Every kept sample has a result sample that returns its stack, and every result sample returns one's. */
  ghost predicate SamplesReturn(q: P.Profile, demangle: string -> string, named: bool, p: P.Profile, axis: P.Axis) {
    && (forall s :: Kept(p, axis, s) ==>
          exists r :: r in q.samples && Returns(q, demangle, named, r.locationIds, p, s.locationIds))
    && (forall r :: r in q.samples ==>
          exists s :: Kept(p, axis, s) && Returns(q, demangle, named, r.locationIds, p, s.locationIds))
  }

  lemma PathAt(p: P.Profile, locationIds: seq<nat>, k: nat)
    requires k <= |locationIds|
    ensures var path := [T.ROOT] + T.StackOf(p, locationIds);
            && |path| == |locationIds| + 1
            && path[|path| - 1 - k] == if k == |locationIds| then T.ROOT else T.FrameForLocation(p, locationIds[k])
  {
    hide T.StackOf;
    hide T.FrameForLocation;
  }

  lemma PathReturns(q: P.Profile, demangle: string -> string, ids: seq<nat>, p: P.Profile, locationIds: seq<nat>)
    ensures LocatedPath(q, ids, [T.ROOT] + T.StackOf(p, locationIds)) ==> ReturnsLocated(q, ids, p, locationIds)
    ensures ShowsPath(q, demangle, ids, [T.ROOT] + T.StackOf(p, locationIds)) ==>
              ReturnsNamed(q, demangle, ids, p, locationIds)
  {
    hide B.Resolve;
    hide B.Expected;
    hide B.Located;
    hide T.StackOf;
    hide T.FrameForLocation;
    var path, n := [T.ROOT] + T.StackOf(p, locationIds), |locationIds|;
    forall k | 0 <= k <= n
      ensures |path| == n + 1 && path[n - k] == if k == n then T.ROOT else T.FrameForLocation(p, locationIds[k])
    {
      PathAt(p, locationIds, k);
    }
    assert path[n - n] == T.ROOT;
    if LocatedPath(q, ids, path) {
      forall k | 0 <= k < n
        ensures B.Located(q, ids[k], T.FrameForLocation(p, locationIds[k]))
      {
        assert B.Located(q, ids[k], path[n - k]);
      }
    }
    if ShowsPath(q, demangle, ids, path) {
      forall k | 0 <= k < n
        ensures B.Resolve(q, ids[k]) == Some(B.Expected(demangle, T.FrameForLocation(p, locationIds[k])))
      {
        assert B.Resolve(q, ids[k]) == Some(B.Expected(demangle, path[n - k]));
      }
    }
  }

  lemma SampleReturns(q: P.Profile, stacks: seq<seq<CallFrame>>, demangle: string -> string, p: P.Profile, axis: P.Axis,
                      opts: T.Options, s: P.Sample)
    requires RoundTripped(q, stacks, T.StackSamples(p, axis, opts, p.samples), demangle) && Kept(p, axis, s)
    ensures var named := FramesAgree(T.StackSamples(p, axis, opts, p.samples), demangle);
            exists r :: r in q.samples && Returns(q, demangle, named, r.locationIds, p, s.locationIds)
  {
    hide FramesAgree;
    hide LocatedPath;
    hide ShowsPath;
    hide ReturnsLocated;
    hide ReturnsNamed;
    hide T.StackSamples;
    hide T.StackOf;
    var ss := T.StackSamples(p, axis, opts, p.samples);
    T.StackSamplesAre(p, axis, opts, p.samples);
    var x := T.Converted(p, axis, opts, s).value;
    assert x in ss && HasStack(ss, x.frames);
    var k :| 0 <= k < |stacks| && stacks[k] == x.frames;
    PathReturns(q, demangle, q.samples[k].locationIds, p, s.locationIds);
    assert q.samples[k] in q.samples;
  }

  lemma ResultReturns(q: P.Profile, stacks: seq<seq<CallFrame>>, demangle: string -> string, p: P.Profile, axis: P.Axis,
                      opts: T.Options, k: nat)
    requires RoundTripped(q, stacks, T.StackSamples(p, axis, opts, p.samples), demangle) && k < |q.samples|
    ensures var named := FramesAgree(T.StackSamples(p, axis, opts, p.samples), demangle);
            exists s :: Kept(p, axis, s) && Returns(q, demangle, named, q.samples[k].locationIds, p, s.locationIds)
  {
    hide FramesAgree;
    hide LocatedPath;
    hide ShowsPath;
    hide ReturnsLocated;
    hide ReturnsNamed;
    hide T.StackSamples;
    hide T.StackOf;
    var ss := T.StackSamples(p, axis, opts, p.samples);
    assert stacks[k] in stacks;
    var x :| x in ss && x.frames == stacks[k];
    T.StackSamplesAre(p, axis, opts, p.samples);
    var s :| s in p.samples && T.Converted(p, axis, opts, s) == Some(x);
    PathReturns(q, demangle, q.samples[k].locationIds, p, s.locationIds);
    assert Kept(p, axis, s);
  }

  lemma AllReturn(q: P.Profile, demangle: string -> string, p: P.Profile, axis: P.Axis, opts: T.Options)
    requires OnePerStack(q, T.StackSamples(p, axis, opts, p.samples), demangle)
    ensures SamplesReturn(q, demangle, FramesAgree(T.StackSamples(p, axis, opts, p.samples), demangle), p, axis)
  {
    hide FramesAgree;
    hide Returns;
    hide Kept;
    hide T.StackSamples;
    hide RoundTripped;
    var ss := T.StackSamples(p, axis, opts, p.samples);
    var stacks :| RoundTripped(q, stacks, ss, demangle);
    forall s | Kept(p, axis, s)
      ensures exists r :: r in q.samples &&
                          Returns(q, demangle, FramesAgree(ss, demangle), r.locationIds, p, s.locationIds)
    {
      SampleReturns(q, stacks, demangle, p, axis, opts, s);
    }
    forall r | r in q.samples
      ensures exists s :: Kept(p, axis, s) &&
                          Returns(q, demangle, FramesAgree(ss, demangle), r.locationIds, p, s.locationIds)
    {
      var k :| 0 <= k < |q.samples| && q.samples[k] == r;
      ResultReturns(q, stacks, demangle, p, axis, opts, k);
    }
  }

  /** The start in whole microseconds, and the profile's duration in them, or else the time of its samples. */
  ghost predicate TimesReturn(q: P.Profile, p: P.Profile, totalUs: int) {
    var start := if p.timeNanos > 0 then p.timeNanos / 1000 else 0;
    var length := if p.durationNanos > 0 then p.durationNanos / 1000 else totalUs;
    && q.timeNanos == Saturate(start * 1000)
    && (start + length <= I64_MAX ==> q.durationNanos == Saturate(length * 1000))
  }

  /** pprof to Chrome trace to pprof. It fails exactly when there is no usable axis, no positive sample, an oversized
      expansion, or a line or column the reader cannot hold. Otherwise the result has one sample per distinct stack,
      with that stack's summed count and time, and shows the stacks exactly when frames that share a function key show
      alike. Its samples return the location ids of the input's, in their order, under the root. */
  method RoundTrip(p: P.Profile, opts: T.Options, ids: Ids, default: int, demangle: string -> string)
    returns (r: Result<P.Profile, string>)
    ensures match P.SelectAxis(p, opts.valueIndex, P.IsTimeUnit)
            case Err(_) => r.Err?
            case Ok(axis) =>
              var ss := T.StackSamples(p, axis, opts, p.samples);
              (r.Ok? <==> ss != [] && !T.AnyTooLarge(ss) && AllFrames(ss, Readable))
              && (r.Ok? ==>
                    OnePerStack(r.value, ss, demangle)
                    && B.SumColumn(r.value.samples, 0) == TotalCount(ss)
                    && B.SumColumn(r.value.samples, 1) == 1000 * T.TotalUs(ss)
                    && SamplesReturn(r.value, demangle, FramesAgree(ss, demangle), p, axis)
                    && TimesReturn(r.value, p, T.TotalUs(ss)))
  {
    hide T.ValidTrie;
    hide T.Emitted;
    hide T.FramesFrom;
    hide T.StackSamples;
    hide T.Ticks;
    hide T.AnyTooLarge;
    hide P.SelectAxis;
    hide P.IsTimeUnit;
    hide AllFrames;
    hide RoundTripped;
    hide B.Built;
    hide B.DenseIds;
    hide C.Demuxed;
    hide ReadBack;
    hide StacksOf;
    hide TraceEvents;
    hide B.NodeById;
    hide B.ParentMap;
    hide B.Ranks;
    hide Readable;
    hide KeySafe;
    hide TotalCount;
    hide T.TotalUs;
    hide B.SumColumn;
    hide T.ShowsBy;
    hide T.Shows;
    hide T.Timed;
    hide C.Extracts;
    hide OnePerStack;
    hide SamplesReturn;
    hide TimesReturn;
    hide FramesAgree;
    var converted := T.ConvertProfile(p, opts);
    if converted.Err? {
      return Err(converted.error);
    }
    var t := converted.value;
    ghost var axis := P.SelectAxis(p, opts.valueIndex, P.IsTimeUnit).value;
    ghost var ss := T.StackSamples(p, axis, opts, p.samples);
    TrieFacts(t, ss);
    if exists i :: 0 <= i < |t.nodes| && !Readable(t.nodes[i].frame) {
      return Err("parsing embedded V8 cpuProfile");
    }
    var profiles := C.ExtractCpuProfiles(TraceEvents(t, ids), default);
    TraceReadBack(t, ids, default, profiles);
    var q, leaves := B.Build(profiles[0], demangle, IdRank(|t.nodes|));
    TripMade(q, leaves, t, ss, demangle);
    AllReturn(q, demangle, p, axis, opts);
    ReadBackTimes(t);
    TripTimes(q, t, p, ss);
    r := Ok(q);
  }

  lemma ReadBackTimes(t: T.CpuTrace)
    ensures ReadBack(t).startTime == t.startTime && ReadBack(t).endTime == t.endTime
  {}

  lemma TripTimes(q: P.Profile, t: T.CpuTrace, p: P.Profile, ss: seq<T.StackSample>)
    requires T.Shows(t, ss) && T.Timed(t, p) && forall x :: x in ss ==> x.deltaUs >= 1
    requires q.timeNanos == Saturate(t.startTime * 1000)
    requires q.durationNanos == Saturate(Saturate(t.endTime - t.startTime) * 1000)
    ensures TimesReturn(q, p, T.TotalUs(ss))
  {
    hide T.ValidTrie;
    hide T.FramesFrom;
    var keys, parents :| T.ShowsBy(t, ss, keys, parents);
    T.TicksConserveTime(ss);
    hide T.Path;
    DeltasSum(t.timeDeltas, T.Ticks(ss));
    TotalPositive(ss);
  }

  lemma {:induction false} DeltasSum(ds: seq<int>, ticks: seq<T.Tick>)
    requires |ds| == |ticks| && forall k :: 0 <= k < |ds| ==> ds[k] == ticks[k].deltaUs
    ensures T.SumDeltas(ds) == T.SumUs(ticks)
  {
    if ds != [] {
      DeltasSum(ds[..|ds| - 1], ticks[..|ticks| - 1]);
    }
  }

  lemma {:induction false} TotalPositive(ss: seq<T.StackSample>)
    requires forall x :: x in ss ==> x.deltaUs >= 1
    ensures T.TotalUs(ss) >= 0
  {
    if ss != [] {
      TotalPositive(ss[..|ss| - 1]);
    }
  }

  lemma BuiltHasValues(q: P.Profile, leaves: seq<int>, t: T.CpuTrace, demangle: string -> string)
    requires B.Ranks(IdRank(|t.nodes|), B.NodeById(ReadBack(t).nodes), B.ParentMap(ReadBack(t).nodes))
    requires B.Built(q, leaves, ReadBack(t), demangle, IdRank(|t.nodes|))
    ensures B.BuiltValues(q, leaves, ReadBack(t), IdRank(|t.nodes|))
  {
    hide B.BuiltValues;
    hide B.ResolvesAll;
    hide B.KeysAgree;
  }

  lemma TripMade(q: P.Profile, leaves: seq<int>, t: T.CpuTrace, ss: seq<T.StackSample>, demangle: string -> string)
    requires T.Shows(t, ss) && ss != []
    requires B.Ranks(IdRank(|t.nodes|), B.NodeById(ReadBack(t).nodes), B.ParentMap(ReadBack(t).nodes))
    requires B.Built(q, leaves, ReadBack(t), demangle, IdRank(|t.nodes|))
    ensures OnePerStack(q, ss, demangle)
    ensures B.SumColumn(q.samples, 0) == TotalCount(ss) && B.SumColumn(q.samples, 1) == 1000 * T.TotalUs(ss)
  {
    hide T.ValidTrie;
    hide T.Emitted;
    hide T.FramesFrom;
    hide B.Built;
    hide B.BuiltValues;
    hide B.Ranks;
    hide ReadBack;
    hide RoundTripped;
    hide T.Ticks;
    var keys, parents :| T.ShowsBy(t, ss, keys, parents);
    TrieSizes(t, keys, parents);
    Assemble(q, leaves, t, keys, parents, ss, demangle);
    BuiltHasValues(q, leaves, t, demangle);
    Conserved(q, leaves, t, parents, ss);
  }

  lemma TrieSizes(t: T.CpuTrace, keys: T.Keys, parents: seq<int>)
    requires T.ValidTrie(t.nodes, keys, parents)
    ensures |t.nodes| == |parents|
  {}

  lemma TrieFacts(t: T.CpuTrace, ss: seq<T.StackSample>)
    requires T.Shows(t, ss) && ss != []
    ensures t.samples != [] && |t.samples| == |t.timeDeltas|
    ensures (forall i :: 0 <= i < |t.nodes| ==> Readable(t.nodes[i].frame)) <==> AllFrames(ss, Readable)
    ensures B.Ranks(IdRank(|t.nodes|), B.NodeById(ReadBack(t).nodes), B.ParentMap(ReadBack(t).nodes))
    ensures forall id :: B.Ranked(IdRank(|t.nodes|), B.NodeById(ReadBack(t).nodes), id)
  {
    hide T.KeysMatch;
    hide T.ChildrenMatch;
    hide T.Path;
    hide T.Ticks;
    hide AllFrames;
    hide C.Merged;
    hide B.NodeById;
    hide B.ParentMap;
    var keys, parents :| T.ShowsBy(t, ss, keys, parents);
    NodesOrStacks(t.nodes, parents, t.samples, t.timeDeltas, ss, Readable);
    RootIsSafe();
    MergedTrie(t.nodes, keys, parents);
    TrieRanks(B.NodeById(ReadBack(t).nodes), B.ParentMap(ReadBack(t).nodes), t.nodes, parents);
    TickStacks(ss, ss[0].frames);
    assert HasStack(ss, ss[0].frames);
  }

  lemma RootIsSafe()
    ensures KeySafe(T.ROOT) && Readable(T.ROOT)
  {}

  /** Nothing else of a location is carried over but its column, and that not past 0. */
  lemma ColumnKept(p: P.Profile, locId: nat)
    requires locId in P.LocationMap(p.locations) && P.LocationMap(p.locations)[locId].lines != []
    requires P.LocationMap(p.locations)[locId].lines[0].functionId in P.FunctionMap(p.functions)
    ensures var column := P.LocationMap(p.locations)[locId].lines[0].column;
            && T.FrameForLocation(p, locId).columnNumber >= 0 && T.FrameForLocation(p, locId).columnNumber >= column
            && (column > 0 ==> T.FrameForLocation(p, locId).columnNumber == column)
            && T.FrameForLocation(p, locId).scriptId == "0"
  {}

  /** Read through an identity demangler, a location whose function is known shows the name, file and line it had. */
  lemma FirstLineKept(p: P.Profile, locId: nat)
    requires locId in P.LocationMap(p.locations) && P.LocationMap(p.locations)[locId].lines != []
    requires P.LocationMap(p.locations)[locId].lines[0].functionId in P.FunctionMap(p.functions)
    ensures var line := P.LocationMap(p.locations)[locId].lines[0];
            var func := P.FunctionMap(p.functions)[line.functionId];
            var name := P.StringAt(p.strings, func.name);
            B.Expected(s => s, T.FrameForLocation(p, locId)) ==
            B.Resolved(if name == "" then "(unknown)" else name, P.StringAt(p.strings, func.filename),
                       if line.line > 0 then line.line else if func.startLine > 0 then func.startLine else 0)
  {}
}
