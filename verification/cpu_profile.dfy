/** `.cpuprofile` to pprof: children lists inverted into parents, samples
    aggregated per leaf, and strings, functions and locations interned. */
module CpuProfiles {
  import opened Wrappers
  import opened Int64
  import opened MapSums
  import opened Text
  import P = Pprof
  import opened V8

  datatype CpuNode = CpuNode(id: int, frame: CallFrame, children: seq<int>)

  datatype CpuProfile = CpuProfile(nodes: seq<CpuNode>, samples: seq<int>, timeDeltas: seq<int>, startTime: int,
                                   endTime: int)

  // --------------------------------------------------------- nodes and stacks

  /** Later nodes of the same id win. */
  function NodeById(nodes: seq<CpuNode>): map<int, CpuNode> {
    if nodes == [] then map[]
    else
      var n := nodes[|nodes| - 1];
      NodeById(nodes[..|nodes| - 1])[n.id := n]
  }

  function AddChildren(parent: map<int, int>, children: seq<int>, p: int): map<int, int> {
    if children == [] then parent
    else AddChildren(parent, children[..|children| - 1], p)[children[|children| - 1] := p]
  }

  /** Children lists inverted; the last list to name a child wins. */
  function ParentMap(nodes: seq<CpuNode>): map<int, int> {
    if nodes == [] then map[]
    else
      var n := nodes[|nodes| - 1];
      AddChildren(ParentMap(nodes[..|nodes| - 1]), n.children, n.id)
  }

  /** The last node of an id is the one it stands for. */
  lemma {:induction false} LastNode(nodes: seq<CpuNode>, i: nat)
    requires i < |nodes| && forall j :: i < j < |nodes| ==> nodes[j].id != nodes[i].id
    ensures nodes[i].id in NodeById(nodes) && NodeById(nodes)[nodes[i].id] == nodes[i]
  {
    if i < |nodes| - 1 {
      LastNode(nodes[..|nodes| - 1], i);
    }
  }

  lemma {:induction false} AddChildrenAt(parent: map<int, int>, children: seq<int>, p: int, c: int)
    ensures c in children ==> c in AddChildren(parent, children, p) && AddChildren(parent, children, p)[c] == p
    ensures c !in children ==>
              (c in AddChildren(parent, children, p) <==> c in parent)
              && (c in parent ==> AddChildren(parent, children, p)[c] == parent[c])
  {
    if children != [] {
      AddChildrenAt(parent, children[..|children| - 1], p, c);
      assert children == children[..|children| - 1] + [children[|children| - 1]];
    }
  }

  /** The last node that lists a child is its parent. */
  lemma {:induction false} LastParent(nodes: seq<CpuNode>, i: nat, c: int)
    requires i < |nodes| && c in nodes[i].children && forall j :: i < j < |nodes| ==> c !in nodes[j].children
    ensures c in ParentMap(nodes) && ParentMap(nodes)[c] == nodes[i].id
  {
    hide AddChildren;
    var n := |nodes| - 1;
    AddChildrenAt(ParentMap(nodes[..n]), nodes[n].children, nodes[n].id, c);
    if i < n {
      LastParent(nodes[..n], i, c);
    }
  }

  /** A height that shrinks towards the root, for a set of ids closed under parents: what the ancestors of some leaves
      have when no cycle is among them. */
  ghost predicate Ranks(rank: map<int, nat>, byId: map<int, CpuNode>, parent: map<int, int>) {
    forall id :: id in rank && id in byId && id in parent && parent[id] in byId ==>
      parent[id] in rank && rank[parent[id]] < rank[id]
  }

  /** The node's way to the root is ranked. */
  ghost predicate Ranked(rank: map<int, nat>, byId: map<int, CpuNode>, id: int) {
    id in byId ==> id in rank
  }

  /** Node ids from a ranked `leaf` up to the root, stopping at an id that is no node. */
  ghost function NodeStack(rank: map<int, nat>, byId: map<int, CpuNode>, parent: map<int, int>,
                           leaf: int): (ids: seq<int>)
    requires Ranks(rank, byId, parent)
    ensures forall id :: id in ids ==> id in byId
    decreases if leaf in byId && leaf in rank then rank[leaf] + 1 else 0
  {
    if leaf !in byId || leaf !in rank then []
    else [leaf] + if leaf in parent then NodeStack(rank, byId, parent, parent[leaf]) else []
  }

  lemma {:induction false} NodeByIdKeys(nodes: seq<CpuNode>)
    ensures forall id :: id in NodeById(nodes) ==> NodeById(nodes)[id].id == id && NodeById(nodes)[id] in nodes
    ensures forall n :: n in nodes ==> n.id in NodeById(nodes)
  {
    if nodes != [] {
      NodeByIdKeys(nodes[..|nodes| - 1]);
    }
  }

  // -------------------------------------------------------------- interning

  const SEP := '\U{1f}'

  function RawName(f: CallFrame): string {
    if f.functionName == "" then "(anonymous)" else f.functionName
  }

  lemma NamesShown(f: CallFrame)
    ensures RawName(f) != "" && (f.functionName != "" ==> RawName(f) == f.functionName)
    ensures RawName(f) != f.functionName ==> f.functionName == "" && "anonymous" == RawName(f)[1..|RawName(f)| - 1]
  {
    assert "(anonymous)"[1..10] == "anonymous";
  }

  /** Lines count from 0 in a call frame and from 1 in pprof; an unknown line is 0. */
  lemma LinesShown(f: CallFrame)
    ensures StartLine(f) > 0 <==> f.lineNumber >= 0
    ensures f.lineNumber >= 0 ==> StartLine(f) - f.lineNumber == 1
    ensures f.lineNumber < 0 ==> StartLine(f) == 0
  {}

  /** The key functions are deduplicated by. */
  function FunctionKey(f: CallFrame): string {
    RawName(f) + [SEP] + f.url + [SEP] + f.scriptId
  }

  function StartLine(f: CallFrame): int {
    if f.lineNumber >= 0 then f.lineNumber + 1 else 0
  }

  ghost predicate StringsValid(strings: seq<string>, index: map<string, int>) {
    && (forall s :: s in index ==> 0 <= index[s] < |strings| && strings[index[s]] == s)
    && (forall i :: 0 <= i < |strings| ==> strings[i] in index && index[strings[i]] == i)
  }

  /** A function entry spells the frame it was made from. */
  ghost predicate SpellsFunction(strings: seq<string>, demangle: string -> string, fn: P.Function, f: CallFrame) {
    && 0 <= fn.name < |strings| && strings[fn.name] == demangle(RawName(f))
    && 0 <= fn.systemName < |strings| && strings[fn.systemName] == RawName(f)
    && 0 <= fn.filename < |strings| && strings[fn.filename] == f.url
    && fn.startLine == StartLine(f)
  }

  /** Functions are dense from id 1, found by the key of the frame they were made from, and spell that frame. */
  ghost predicate FunctionsValid(strings: seq<string>, demangle: string -> string, functions: seq<P.Function>,
                                 index: map<string, nat>, frames: seq<CallFrame>) {
    && |functions| == |frames|
    && (forall i :: 0 <= i < |functions| ==>
          functions[i].id == i + 1 && SpellsFunction(strings, demangle, functions[i], frames[i]))
    && (forall k :: k in index ==> 1 <= index[k] <= |functions| && FunctionKey(frames[index[k] - 1]) == k)
    && (forall i :: 0 <= i < |frames| ==> FunctionKey(frames[i]) in index && index[FunctionKey(frames[i])] == i + 1)
  }

  /** A location entry has its node's line, and a function with its node's key. */
  ghost predicate SpellsLocation(frames: seq<CallFrame>, l: P.Location, n: CpuNode) {
    && |l.lines| == 1 && l.lines[0].line == StartLine(n.frame) && l.lines[0].column == 0
    && l.mappingId == 1 && l.address == 0
    && 1 <= l.lines[0].functionId <= |frames|
    && FunctionKey(frames[l.lines[0].functionId - 1]) == FunctionKey(n.frame)
  }

  /** Locations are dense from id 1, one per node id, and spell their node. */
  ghost predicate LocationsValid(frames: seq<CallFrame>, locations: seq<P.Location>, index: map<int, nat>,
                                 nodes: seq<CpuNode>)
  {
    && |locations| == |nodes|
    && (forall i :: 0 <= i < |locations| ==>
          locations[i].id == i + 1 && SpellsLocation(frames, locations[i], nodes[i]))
    && (forall k :: k in index ==> 1 <= index[k] <= |locations| && nodes[index[k] - 1].id == k)
    && (forall i :: 0 <= i < |nodes| ==> nodes[i].id in index && index[nodes[i].id] == i + 1)
  }

  lemma FunctionsKept(strings: seq<string>, strings': seq<string>, demangle: string -> string,
                      functions: seq<P.Function>, index: map<string, nat>, frames: seq<CallFrame>)
    requires FunctionsValid(strings, demangle, functions, index, frames) && strings <= strings'
    ensures FunctionsValid(strings', demangle, functions, index, frames)
  {
    hide FunctionKey;
    hide RawName;
  }

  lemma FunctionAdded(strings: seq<string>, demangle: string -> string, functions: seq<P.Function>,
                      index: map<string, nat>, frames: seq<CallFrame>, fn: P.Function, f: CallFrame)
    requires FunctionsValid(strings, demangle, functions, index, frames) && FunctionKey(f) !in index
    requires fn.id == |functions| + 1 && SpellsFunction(strings, demangle, fn, f)
    ensures FunctionsValid(strings, demangle, functions + [fn], index[FunctionKey(f) := fn.id], frames + [f])
  {
    hide FunctionKey;
    hide SpellsFunction;
  }

  lemma LocationsKept(frames: seq<CallFrame>, frames': seq<CallFrame>, locations: seq<P.Location>, index: map<int, nat>,
                      nodes: seq<CpuNode>)
    requires LocationsValid(frames, locations, index, nodes) && frames <= frames'
    ensures LocationsValid(frames', locations, index, nodes)
  {
    hide FunctionKey;
  }

  lemma LocationAdded(frames: seq<CallFrame>, locations: seq<P.Location>, index: map<int, nat>, nodes: seq<CpuNode>,
                      l: P.Location, n: CpuNode)
    requires LocationsValid(frames, locations, index, nodes) && n.id !in index
    requires l.id == |locations| + 1 && SpellsLocation(frames, l, n)
    ensures LocationsValid(frames, locations + [l], index[n.id := l.id], nodes + [n])
  {
    hide SpellsLocation;
  }

  lemma KnownFunction(strings: seq<string>, demangle: string -> string, functions: seq<P.Function>,
                      index: map<string, nat>, frames: seq<CallFrame>, key: string)
    requires FunctionsValid(strings, demangle, functions, index, frames)
    ensures |functions| == |frames|
    ensures key in index ==> 1 <= index[key] <= |frames| && FunctionKey(frames[index[key] - 1]) == key
  {}

  lemma KnownLocation(frames: seq<CallFrame>, locations: seq<P.Location>, index: map<int, nat>, nodes: seq<CpuNode>,
                      id: int)
    requires LocationsValid(frames, locations, index, nodes)
    ensures |locations| == |nodes| && (id in index ==> 1 <= index[id] <= |nodes| && nodes[index[id] - 1].id == id)
  {}

  lemma FreshTables(demangle: string -> string)
    ensures StringsValid([""], map["" := 0]) && FunctionsValid([""], demangle, [], map[], [])
            && LocationsValid([], [], map[], [])
  {}

  const FIXED := ["", "samples", "count", "cpu", "nanoseconds"]

  lemma FixedDistinct()
    ensures forall i, j :: 0 <= i < j < |FIXED| ==> FIXED[i] != FIXED[j]
    ensures FIXED == [""] + [FIXED[1]] + [FIXED[2]] + [FIXED[3]] + [FIXED[4]]
  {}

  class State {
    const demangle: string -> string
    var strings: seq<string>
    var stringIndex: map<string, int>
    var functions: seq<P.Function>
    var funcIndex: map<string, nat>
    var locations: seq<P.Location>
    var locByNode: map<int, nat>
    ghost var funcFrames: seq<CallFrame>
    ghost var locNodes: seq<CpuNode>

    ghost predicate Valid()
      reads this
    {
      && StringsValid(strings, stringIndex)
      && FunctionsValid(strings, demangle, functions, funcIndex, funcFrames)
      && LocationsValid(funcFrames, locations, locByNode, locNodes)
    }

    constructor (demangle: string -> string)
      ensures Valid() && this.demangle == demangle && locNodes == [] && funcFrames == []
      ensures strings == FIXED
    {
      hide StringsValid;
      hide FunctionsValid;
      hide LocationsValid;
      this.demangle := demangle;
      strings, stringIndex := [""], map["" := 0];
      functions, funcIndex, locations, locByNode := [], map[], [], map[];
      funcFrames, locNodes := [], [];
      new;
      FreshTables(demangle);
      InternFixed();
    }

    /** The strings the value types are made of. */
    method InternFixed()
      requires Valid() && strings == [""]
      modifies this`strings, this`stringIndex
      ensures Valid() && strings == FIXED
    {
      hide StringsValid;
      hide FunctionsValid;
      hide LocationsValid;
      FixedDistinct();
      var _ := Intern(FIXED[1]);
      var _ := Intern(FIXED[2]);
      var _ := Intern(FIXED[3]);
      var _ := Intern(FIXED[4]);
    }

    /** Ids once issued never change. */
    twostate predicate Grown()
      reads this
    {
      && old(strings) <= strings && old(functions) <= functions && old(locations) <= locations
      && old(funcFrames) <= funcFrames && old(locNodes) <= locNodes
    }

    method Intern(s: string) returns (id: int)
      requires Valid()
      modifies this`strings, this`stringIndex
      ensures Valid() && old(strings) <= strings
      ensures strings == if s in old(strings) then old(strings) else old(strings) + [s]
      ensures 0 <= id < |strings| && strings[id] == s
    {
      if s in stringIndex {
        return stringIndex[s];
      }
      id := |strings|;
      ghost var before := strings;
      strings := strings + [s];
      stringIndex := stringIndex[s := id];
      assert StringsValid(strings, stringIndex);
      FunctionsKept(before, strings, demangle, functions, funcIndex, funcFrames);
    }

    method InternFunction(call: CallFrame) returns (id: nat)
      requires Valid()
      modifies this`strings, this`stringIndex, this`functions, this`funcIndex, this`funcFrames
      ensures Valid() && Grown()
      ensures 1 <= id <= |functions| == |funcFrames| && FunctionKey(funcFrames[id - 1]) == FunctionKey(call)
      ensures funcFrames == old(funcFrames) || funcFrames == old(funcFrames) + [call]
    {
      hide FunctionKey;
      hide FunctionsValid;
      hide LocationsValid;
      hide StringsValid;
      var key := FunctionKey(call);
      KnownFunction(strings, demangle, functions, funcIndex, funcFrames, key);
      if key in funcIndex {
        id := funcIndex[key];
      } else {
        id := AddFunction(call, key);
      }
    }

    method AddFunction(call: CallFrame, key: string) returns (id: nat)
      requires Valid() && key == FunctionKey(call) && key !in funcIndex
      modifies this`strings, this`stringIndex, this`functions, this`funcIndex, this`funcFrames
      ensures Valid() && Grown()
      ensures id == |functions| == |funcFrames| && funcFrames == old(funcFrames) + [call]
    {
      hide FunctionKey;
      hide StringsValid;
      hide FunctionsValid;
      hide LocationsValid;
      KnownFunction(strings, demangle, functions, funcIndex, funcFrames, key);
      var raw := RawName(call);
      var pretty := demangle(raw);
      id := |functions| + 1;
      var name := Intern(pretty);
      var systemName := Intern(raw);
      var filename := Intern(call.url);
      var fn := P.Function(id, name, systemName, filename, StartLine(call));
      assert SpellsFunction(strings, demangle, fn, call);
      hide SpellsFunction;
      FunctionAdded(strings, demangle, functions, funcIndex, funcFrames, fn, call);
      LocationsKept(funcFrames, funcFrames + [call], locations, locByNode, locNodes);
      functions := functions + [fn];
      funcIndex := funcIndex[key := id];
      funcFrames := funcFrames + [call];
    }

    method InternLocation(node: CpuNode) returns (id: nat)
      requires Valid()
      modifies this
      ensures Valid() && Grown()
      ensures 1 <= id <= |locations| == |locNodes| && locNodes[id - 1].id == node.id
      ensures locNodes == if node.id in old(locByNode) then old(locNodes) else old(locNodes) + [node]
      ensures funcFrames == old(funcFrames) || funcFrames == old(funcFrames) + [node.frame]
    {
      hide FunctionsValid;
      hide LocationsValid;
      hide StringsValid;
      KnownLocation(funcFrames, locations, locByNode, locNodes, node.id);
      if node.id in locByNode {
        id := locByNode[node.id];
      } else {
        id := AddLocation(node);
      }
    }

    method AddLocation(node: CpuNode) returns (id: nat)
      requires Valid() && node.id !in locByNode
      modifies this
      ensures Valid() && Grown()
      ensures id == |locations| == |locNodes| && locNodes == old(locNodes) + [node]
      ensures funcFrames == old(funcFrames) || funcFrames == old(funcFrames) + [node.frame]
    {
      hide FunctionKey;
      hide StringsValid;
      hide FunctionsValid;
      hide LocationsValid;
      KnownLocation(funcFrames, locations, locByNode, locNodes, node.id);
      var funcId := InternFunction(node.frame);
      id := |locations| + 1;
      var loc := P.Location(id, 1, 0, [P.Line(funcId, StartLine(node.frame), 0)]);
      assert SpellsLocation(funcFrames, loc, node);
      hide SpellsLocation;
      LocationAdded(funcFrames, locations, locByNode, locNodes, loc, node);
      locations := locations + [loc];
      locByNode := locByNode[node.id := id];
      locNodes := locNodes + [node];
    }
  }

  // ------------------------------------------------------------- aggregation

  function DeltaAt(deltas: seq<int>, i: nat): int {
    if i < |deltas| then deltas[i] else 0
  }

  /** `count_by_node` and `us_by_node` after the samples so far. */
  function CountByNode(samples: seq<int>): map<int, int> {
    if samples == [] then map[]
    else AddAt(CountByNode(samples[..|samples| - 1]), samples[|samples| - 1], 1)
  }

  function UsByNode(samples: seq<int>, deltas: seq<int>): map<int, int> {
    if samples == [] then map[]
    else AddAt(UsByNode(samples[..|samples| - 1], deltas), samples[|samples| - 1], DeltaAt(deltas, |samples| - 1))
  }

  /** How often, and for how long, a leaf was sampled. */
  function Occurrences(samples: seq<int>, id: int): nat {
    if samples == [] then 0
    else Occurrences(samples[..|samples| - 1], id) + if samples[|samples| - 1] == id then 1 else 0
  }

  function TimeOf(samples: seq<int>, deltas: seq<int>, id: int): int {
    if samples == [] then 0
    else
      TimeOf(samples[..|samples| - 1], deltas, id) +
      if samples[|samples| - 1] == id then DeltaAt(deltas, |samples| - 1) else 0
  }

  function SumDeltas(deltas: seq<int>, n: nat): int {
    if n == 0 then 0 else SumDeltas(deltas, n - 1) + DeltaAt(deltas, n - 1)
  }

  /** A sample without a delta takes no time: padding the deltas with zeros changes nothing. */
  lemma {:induction false} MissingDeltas(samples: seq<int>, deltas: seq<int>, zeros: nat)
    ensures UsByNode(samples, deltas + seq(zeros, _ => 0)) == UsByNode(samples, deltas)
  {
    if samples != [] {
      MissingDeltas(samples[..|samples| - 1], deltas, zeros);
    }
  }

  /** The maps hold each leaf's own counts and times, and together conserve both totals. */
  lemma {:induction false} AggregationIsExact(samples: seq<int>, deltas: seq<int>)
    ensures forall id :: id in CountByNode(samples) <==> id in samples
    ensures UsByNode(samples, deltas).Keys == CountByNode(samples).Keys
    ensures forall id :: id in CountByNode(samples) ==>
              CountByNode(samples)[id] == Occurrences(samples, id)
              && UsByNode(samples, deltas)[id] == TimeOf(samples, deltas, id)
    ensures forall id :: id !in samples ==> Occurrences(samples, id) == 0 && TimeOf(samples, deltas, id) == 0
    ensures Total(CountByNode(samples)) == |samples|
    ensures Total(UsByNode(samples, deltas)) == SumDeltas(deltas, |samples|)
  {
    if samples != [] {
      var init, id, dt := samples[..|samples| - 1], samples[|samples| - 1], DeltaAt(deltas, |samples| - 1);
      AggregationIsExact(init, deltas);
      TotalAddAt(CountByNode(init), id, 1);
      TotalAddAt(UsByNode(init, deltas), id, dt);
      assert forall x :: x in samples <==> x in init || x == id;
    }
  }

  // -------------------------------------------------------------- resolution

  /** What a reader of the profile sees for a location. */
  datatype Resolved = Resolved(name: string, file: string, line: int)

  function Resolve(p: P.Profile, locId: nat): Option<Resolved> {
    var locs, funcs := P.LocationMap(p.locations), P.FunctionMap(p.functions);
    if locId !in locs || locs[locId].lines == [] || locs[locId].lines[0].functionId !in funcs then None
    else
      var fn := funcs[locs[locId].lines[0].functionId];
      Some(Resolved(P.StringAt(p.strings, fn.name), P.StringAt(p.strings, fn.filename), locs[locId].lines[0].line))
  }

  function Expected(demangle: string -> string, f: CallFrame): Resolved {
    Resolved(demangle(RawName(f)), f.url, StartLine(f))
  }

  /** Frames with one key have one name and one url. */
  ghost predicate KeysDistinguish(nodes: seq<CpuNode>) {
    forall m, n :: m in nodes && n in nodes && FunctionKey(m.frame) == FunctionKey(n.frame) ==>
      RawName(m.frame) == RawName(n.frame) && m.frame.url == n.frame.url
  }

  /** Names and urls without the separator are told apart by their keys. */
  lemma SeparatorFreeKeys(nodes: seq<CpuNode>)
    requires forall n :: n in nodes ==> Free(RawName(n.frame), SEP) && Free(n.frame.url, SEP)
    ensures KeysDistinguish(nodes)
  {
    forall m, n | m in nodes && n in nodes && FunctionKey(m.frame) == FunctionKey(n.frame)
      ensures RawName(m.frame) == RawName(n.frame) && m.frame.url == n.frame.url
    {
      var x, y := m.frame.url + [SEP] + m.frame.scriptId, n.frame.url + [SEP] + n.frame.scriptId;
      assert FunctionKey(m.frame) == RawName(m.frame) + [SEP] + x;
      assert FunctionKey(n.frame) == RawName(n.frame) + [SEP] + y;
      SplitAt(SEP, RawName(m.frame), RawName(n.frame), x, y);
      SplitAt(SEP, m.frame.url, n.frame.url, m.frame.scriptId, n.frame.scriptId);
    }
  }

  /** With the separator in a name, two different functions can share a key, and so an entry. */
  lemma SeparatorCollides()
    ensures var f, g := CallFrame("a" + [SEP] + "b", "0", "c", -1, -1), CallFrame("a", "0", "b" + [SEP] + "c", -1, -1);
            FunctionKey(f) == FunctionKey(g) && RawName(f) != RawName(g)
  {
    var f, g := CallFrame("a" + [SEP] + "b", "0", "c", -1, -1), CallFrame("a", "0", "b" + [SEP] + "c", -1, -1);
    assert |RawName(f)| == 3 && |RawName(g)| == 1;
  }

  lemma FunctionOf(frames: seq<CallFrame>, locations: seq<P.Location>, index: map<int, nat>, nodes: seq<CpuNode>,
                   id: nat)
    requires LocationsValid(frames, locations, index, nodes) && 1 <= id <= |nodes|
    ensures |locations| == |nodes| && SpellsLocation(frames, locations[id - 1], nodes[id - 1])
    ensures id in P.LocationMap(locations) && P.LocationMap(locations)[id] == locations[id - 1]
  {
    hide SpellsLocation;
    hide P.LocationMap;
    P.DenseLocation(locations, id - 1);
  }

  lemma FunctionResolves(strings: seq<string>, demangle: string -> string, functions: seq<P.Function>,
                         index: map<string, nat>, frames: seq<CallFrame>, id: nat)
    requires FunctionsValid(strings, demangle, functions, index, frames) && 1 <= id <= |frames|
    ensures |functions| == |frames| && SpellsFunction(strings, demangle, functions[id - 1], frames[id - 1])
    ensures id in P.FunctionMap(functions) && P.FunctionMap(functions)[id] == functions[id - 1]
  {
    hide SpellsFunction;
    hide FunctionKey;
    hide P.FunctionMap;
    P.DenseFunction(functions, id - 1);
  }

  /** Every issued location resolves: to its node's own line, and to a function with its node's key. */
  lemma LocationResolves(p: P.Profile, demangle: string -> string, funcIndex: map<string, nat>, frames: seq<CallFrame>,
                         locIndex: map<int, nat>, nodes: seq<CpuNode>, id: nat) returns (f: CallFrame)
    requires FunctionsValid(p.strings, demangle, p.functions, funcIndex, frames)
    requires LocationsValid(frames, p.locations, locIndex, nodes) && 1 <= id <= |nodes|
    ensures f in frames && FunctionKey(f) == FunctionKey(nodes[id - 1].frame)
    ensures Resolve(p, id) == Some(Resolved(demangle(RawName(f)), f.url, StartLine(nodes[id - 1].frame)))
  {
    hide FunctionKey;
    hide RawName;
    hide FunctionsValid;
    hide LocationsValid;
    hide P.LocationMap;
    hide P.FunctionMap;
    FunctionOf(frames, p.locations, locIndex, nodes, id);
    var fid := p.locations[id - 1].lines[0].functionId;
    FunctionResolves(p.strings, demangle, p.functions, funcIndex, frames, fid);
    f := frames[fid - 1];
  }

  // -------------------------------------------------------------- the builder

  /** Location ids that stand, one by one, for the nodes of a stack. */
  ghost predicate Stands(locNodes: seq<CpuNode>, byId: map<int, CpuNode>, ids: seq<nat>, stack: seq<int>) {
    && |ids| == |stack|
    && forall k :: 0 <= k < |ids| ==>
      1 <= ids[k] <= |locNodes| && stack[k] in byId && locNodes[ids[k] - 1] == byId[stack[k]]
  }

  lemma StandsKept(locNodes: seq<CpuNode>, locNodes': seq<CpuNode>, byId: map<int, CpuNode>, ids: seq<nat>,
                   stack: seq<int>)
    requires Stands(locNodes, byId, ids, stack) && locNodes <= locNodes'
    ensures Stands(locNodes', byId, ids, stack)
  {}

  /** Locations are made from the profile's own nodes. */
  ghost predicate FromNodes(locNodes: seq<CpuNode>, funcFrames: seq<CallFrame>, byId: map<int, CpuNode>) {
    && (forall id :: id in byId ==> byId[id].id == id)
    && (forall n :: n in locNodes ==> n.id in byId && byId[n.id] == n)
    && forall f :: f in funcFrames ==> exists n :: n in locNodes && n.frame == f
  }

  /** Node `id` is on the stack of one of the leaves. */
  ghost predicate OnStackOf(rank: map<int, nat>, byId: map<int, CpuNode>, parent: map<int, int>, leaves: seq<int>,
                            id: int)
    requires Ranks(rank, byId, parent)
  {
    exists leaf :: leaf in leaves && id in NodeStack(rank, byId, parent, leaf)
  }

  /** Locations are made for the stacks of these leaves only. */
  ghost predicate AllUsed(locNodes: seq<CpuNode>, rank: map<int, nat>, byId: map<int, CpuNode>, parent: map<int, int>,
                          leaves: seq<int>)
    requires Ranks(rank, byId, parent)
  {
    forall n :: n in locNodes ==> OnStackOf(rank, byId, parent, leaves, n.id)
  }

  lemma UsedNext(before: seq<CpuNode>, after: seq<CpuNode>, rank: map<int, nat>, byId: map<int, CpuNode>,
                 parent: map<int, int>, leaves: seq<int>, leaf: int)
    requires Ranks(rank, byId, parent) && AllUsed(before, rank, byId, parent, leaves)
    requires forall n :: n in after ==> n in before || n.id in NodeStack(rank, byId, parent, leaf)
    ensures AllUsed(after, rank, byId, parent, leaves + [leaf])
  {
    hide NodeStack;
    forall n | n in after
      ensures OnStackOf(rank, byId, parent, leaves + [leaf], n.id)
    {
      if n in before {
        assert OnStackOf(rank, byId, parent, leaves, n.id);
        var x :| x in leaves && n.id in NodeStack(rank, byId, parent, x);
        assert x in leaves + [leaf];
      } else {
        assert leaf in leaves + [leaf];
      }
    }
  }

  ghost predicate CacheValid(locNodes: seq<CpuNode>, rank: map<int, nat>, byId: map<int, CpuNode>,
                             parent: map<int, int>, cache: map<int, seq<nat>>)
    requires Ranks(rank, byId, parent)
  {
    forall id :: id in cache ==> Stands(locNodes, byId, cache[id], NodeStack(rank, byId, parent, id))
  }

  lemma CacheKept(locNodes: seq<CpuNode>, locNodes': seq<CpuNode>, rank: map<int, nat>, byId: map<int, CpuNode>,
                  parent: map<int, int>, cache: map<int, seq<nat>>)
    requires Ranks(rank, byId, parent) && CacheValid(locNodes, rank, byId, parent, cache) && locNodes <= locNodes'
    ensures CacheValid(locNodes', rank, byId, parent, cache)
  {
    hide Stands;
    forall id | id in cache
      ensures Stands(locNodes', byId, cache[id], NodeStack(rank, byId, parent, id))
    {
      StandsKept(locNodes, locNodes', byId, cache[id], NodeStack(rank, byId, parent, id));
    }
  }

  /** Interning the next node of a stack. */
  lemma StandsNext(before: seq<CpuNode>, after: seq<CpuNode>, byId: map<int, CpuNode>, ids: seq<nat>, stack: seq<int>,
                   id: nat, n: int)
    requires Stands(before, byId, ids, stack) && before <= after
    requires forall n :: n in after ==> n.id in byId && byId[n.id] == n
    requires n in byId && 1 <= id <= |after| && after[id - 1].id == n
    ensures Stands(after, byId, ids + [id], stack + [n])
  {}

  /** Walks from a leaf to the root. Unless a cycle is among the leaf's ancestors it ends, with the locations of the
      leaf's stack. */
  method StackForNode(leaf: int, byId: map<int, CpuNode>, parent: map<int, int>, state: State,
                      cache: map<int, seq<nat>>, ghost rank: map<int, nat>)
    returns (stack: seq<nat>, cache': map<int, seq<nat>>)
    requires state.Valid() && Ranks(rank, byId, parent) && FromNodes(state.locNodes, state.funcFrames, byId)
    requires CacheValid(state.locNodes, rank, byId, parent, cache) && Ranked(rank, byId, leaf)
    modifies state
    ensures state.Valid() && state.Grown() && FromNodes(state.locNodes, state.funcFrames, byId)
    ensures Stands(state.locNodes, byId, stack, NodeStack(rank, byId, parent, leaf))
    ensures CacheValid(state.locNodes, rank, byId, parent, cache')
    ensures forall n :: n in state.locNodes ==> n in old(state.locNodes) || n.id in NodeStack(rank, byId, parent, leaf)
  {
    hide StringsValid;
    hide FunctionsValid;
    hide LocationsValid;
    hide CacheValid;
    hide Stands;
    hide FromNodes;
    hide NodeStack;
    hide Ranks;
    if leaf in cache {
      return Cached(state.locNodes, rank, byId, parent, cache, leaf), cache;
    }
    stack := [];
    var cur := Some(leaf);
    ghost var walked: seq<int> := [];
    StandsNothing(state.locNodes, byId);
    while cur.Some?
      invariant state.Valid() && state.Grown() && FromNodes(state.locNodes, state.funcFrames, byId)
      invariant Stands(state.locNodes, byId, stack, walked) && (cur.Some? ==> Ranked(rank, byId, cur.value))
      invariant NodeStack(rank, byId, parent, leaf) == walked + StackFrom(rank, byId, parent, cur)
      invariant forall n :: n in state.locNodes ==> n in old(state.locNodes) || n.id in walked
      decreases Fuel(rank, byId, cur)
    {
      var nid := cur.value;
      StackStep(state.locNodes, state.funcFrames, rank, byId, parent, nid);
      if nid !in byId {
        break;
      }
      var node := byId[nid];
      ghost var before, frames := state.locNodes, state.funcFrames;
      var id := state.InternLocation(node);
      InternedNode(before, state.locNodes, frames, state.funcFrames, byId, node, id);
      StandsNext(before, state.locNodes, byId, stack, walked, id, nid);
      stack := stack + [id];
      assert NodeStack(rank, byId, parent, leaf) == walked + NodeStack(rank, byId, parent, nid);
      cur := if nid in parent then Some(parent[nid]) else None;
      walked := walked + [nid];
    }
    assert walked + [] == walked;
    CacheKept(old(state.locNodes), state.locNodes, rank, byId, parent, cache);
    CacheAdded(state.locNodes, rank, byId, parent, cache, leaf, stack);
    cache' := cache[leaf := stack];
  }

  ghost function StackFrom(rank: map<int, nat>, byId: map<int, CpuNode>, parent: map<int, int>,
                           cur: Option<int>): seq<int>
    requires Ranks(rank, byId, parent)
  {
    if cur.Some? then NodeStack(rank, byId, parent, cur.value) else []
  }

  ghost function Fuel(rank: map<int, nat>, byId: map<int, CpuNode>, cur: Option<int>): nat {
    if cur.None? then 0 else if cur.value in byId && cur.value in rank then rank[cur.value] + 2 else 1
  }

  lemma StackStep(locNodes: seq<CpuNode>, frames: seq<CallFrame>, rank: map<int, nat>, byId: map<int, CpuNode>,
                  parent: map<int, int>, id: int)
    requires Ranks(rank, byId, parent) && FromNodes(locNodes, frames, byId) && Ranked(rank, byId, id)
    ensures var next := if id in parent then Some(parent[id]) else None;
            if id !in byId then NodeStack(rank, byId, parent, id) == []
            else
              && byId[id].id == id && (next.Some? ==> Ranked(rank, byId, next.value))
              && Fuel(rank, byId, next) < Fuel(rank, byId, Some(id))
              && forall walked :: walked + NodeStack(rank, byId, parent, id) ==
                                  (walked + [id]) + StackFrom(rank, byId, parent, next)
  {
    var next := if id in parent then Some(parent[id]) else None;
    forall walked: seq<int>
      ensures id in byId ==>
                walked + NodeStack(rank, byId, parent, id) == (walked + [id]) + StackFrom(rank, byId, parent, next)
    {
      assert walked + ([id] + StackFrom(rank, byId, parent, next)) ==
               (walked + [id]) + StackFrom(rank, byId, parent, next);
    }
  }

  lemma StandsNothing(locNodes: seq<CpuNode>, byId: map<int, CpuNode>)
    ensures Stands(locNodes, byId, [], [])
  {}

  function Cached(ghost locNodes: seq<CpuNode>, ghost rank: map<int, nat>, ghost byId: map<int, CpuNode>,
                  ghost parent: map<int, int>, cache: map<int, seq<nat>>, leaf: int): (ids: seq<nat>)
    requires leaf in cache && Ranks(rank, byId, parent) && CacheValid(locNodes, rank, byId, parent, cache)
    ensures Stands(locNodes, byId, ids, NodeStack(rank, byId, parent, leaf))
  {
    cache[leaf]
  }

  lemma CacheAdded(locNodes: seq<CpuNode>, rank: map<int, nat>, byId: map<int, CpuNode>,
                   parent: map<int, int>, cache: map<int, seq<nat>>, leaf: int, stack: seq<nat>)
    requires Ranks(rank, byId, parent) && CacheValid(locNodes, rank, byId, parent, cache)
    requires Stands(locNodes, byId, stack, NodeStack(rank, byId, parent, leaf))
    ensures CacheValid(locNodes, rank, byId, parent, cache[leaf := stack])
  {
    hide Stands;
  }

  lemma InternedNode(before: seq<CpuNode>, after: seq<CpuNode>, frames: seq<CallFrame>, frames': seq<CallFrame>,
                     byId: map<int, CpuNode>, node: CpuNode, id: nat)
    requires FromNodes(before, frames, byId) && node.id in byId && byId[node.id] == node
    requires 1 <= id <= |after| && after[id - 1].id == node.id
    requires after == before || after == before + [node]
    requires frames' == frames || frames' == frames + [node.frame]
    ensures FromNodes(after, frames', byId) && before <= after
    ensures forall n :: n in after ==> n.id in byId && byId[n.id] == n
  {
    assert after[id - 1] in after;
    assert node in after;
    forall f | f in frames'
      ensures exists n :: n in after && n.frame == f
    {
      if f in frames {
        var n :| n in before && n.frame == f;
        assert n in after;
      }
    }
  }

  method IndexNodes(nodes: seq<CpuNode>) returns (byId: map<int, CpuNode>)
    ensures byId == NodeById(nodes)
  {
    byId := map[];
    for i := 0 to |nodes|
      invariant byId == NodeById(nodes[..i])
    {
      assert nodes[..i + 1][..i] == nodes[..i];
      byId := byId[nodes[i].id := nodes[i]];
    }
    assert nodes[..|nodes|] == nodes;
  }

  method InvertChildren(nodes: seq<CpuNode>) returns (parent: map<int, int>)
    ensures parent == ParentMap(nodes)
  {
    parent := map[];
    for i := 0 to |nodes|
      invariant parent == ParentMap(nodes[..i])
    {
      assert nodes[..i + 1][..i] == nodes[..i];
      var n := nodes[i];
      ghost var before := parent;
      for j := 0 to |n.children|
        invariant parent == AddChildren(before, n.children[..j], n.id)
      {
        assert n.children[..j + 1][..j] == n.children[..j];
        parent := parent[n.children[j] := n.id];
      }
      assert n.children[..|n.children|] == n.children;
    }
    assert nodes[..|nodes|] == nodes;
  }

  method AggregateSamples(samples: seq<int>, deltas: seq<int>) returns (count: map<int, int>, us: map<int, int>)
    ensures count == CountByNode(samples) && us == UsByNode(samples, deltas)
  {
    count, us := map[], map[];
    for i := 0 to |samples|
      invariant count == CountByNode(samples[..i]) && us == UsByNode(samples[..i], deltas)
    {
      assert samples[..i + 1][..i] == samples[..i];
      var dt := if i < |deltas| then deltas[i] else 0;
      count := AddAt(count, samples[i], 1);
      us := AddAt(us, samples[i], dt);
    }
    assert samples[..|samples|] == samples;
  }

  ghost predicate Distinct(s: seq<int>) {
    forall i, j :: 0 <= i < j < |s| ==> s[i] != s[j]
  }

  /** The emitted samples so far: one per leaf, with its aggregated values and the locations of its stack. */
  ghost predicate Emits(samples: seq<P.Sample>, leaves: seq<int>, locNodes: seq<CpuNode>, rank: map<int, nat>,
                        byId: map<int, CpuNode>, parent: map<int, int>, count: map<int, int>, us: map<int, int>)
    requires Ranks(rank, byId, parent)
  {
    && |samples| == |leaves| && Distinct(leaves)
    && forall k :: 0 <= k < |leaves| ==>
         leaves[k] in count && leaves[k] in us && samples[k].values == [count[leaves[k]], us[leaves[k]] * 1000]
         && Stands(locNodes, byId, samples[k].locationIds, NodeStack(rank, byId, parent, leaves[k]))
  }

  lemma EmitNext(samples: seq<P.Sample>, leaves: seq<int>, before: seq<CpuNode>, after: seq<CpuNode>,
                 rank: map<int, nat>,
                 byId: map<int, CpuNode>, parent: map<int, int>, count: map<int, int>, us: map<int, int>, leaf: int,
                 ids: seq<nat>)
    requires Ranks(rank, byId, parent) && Emits(samples, leaves, before, rank, byId, parent, count, us)
    requires before <= after && leaf in count && leaf in us && leaf !in leaves
    requires Stands(after, byId, ids, NodeStack(rank, byId, parent, leaf))
    ensures Emits(samples + [P.Sample(ids, [count[leaf], us[leaf] * 1000])], leaves + [leaf], after, rank, byId, parent,
                  count, us)
  {
    hide Stands;
    hide NodeStack;
    forall k | 0 <= k < |leaves|
      ensures Stands(after, byId, samples[k].locationIds, NodeStack(rank, byId, parent, leaves[k]))
    {
      StandsKept(before, after, byId, samples[k].locationIds, NodeStack(rank, byId, parent, leaves[k]));
    }
  }

  /** Emits one sample per sampled leaf, in whatever order the hash map yields them. */
  method EmitSamples(state: State, byId: map<int, CpuNode>, parent: map<int, int>, count: map<int, int>,
                     us: map<int, int>, ghost rank: map<int, nat>)
    returns (samples: seq<P.Sample>, ghost leaves: seq<int>)
    requires state.Valid() && Ranks(rank, byId, parent) && FromNodes(state.locNodes, state.funcFrames, byId)
    requires us.Keys == count.Keys && state.locNodes == [] && forall id :: id in count ==> Ranked(rank, byId, id)
    modifies state
    ensures state.Valid() && state.Grown() && FromNodes(state.locNodes, state.funcFrames, byId)
    ensures Emits(samples, leaves, state.locNodes, rank, byId, parent, count, us)
    ensures AllUsed(state.locNodes, rank, byId, parent, leaves)
    ensures forall id :: id in leaves <==> id in count
  {
    hide StringsValid;
    hide FunctionsValid;
    hide LocationsValid;
    hide CacheValid;
    hide Stands;
    hide FromNodes;
    hide NodeStack;
    hide Ranks;
    hide Emits;
    hide AllUsed;
    samples, leaves := [], [];
    var cache: map<int, seq<nat>> := map[];
    NothingEmitted(state.locNodes, rank, byId, parent, count, us);
    var rest := count.Items;
    while rest != {}
      invariant state.Valid() && state.Grown() && FromNodes(state.locNodes, state.funcFrames, byId)
      invariant CacheValid(state.locNodes, rank, byId, parent, cache)
      invariant Emits(samples, leaves, state.locNodes, rank, byId, parent, count, us)
      invariant AllUsed(state.locNodes, rank, byId, parent, leaves)
      invariant rest <= count.Items && forall id :: id in leaves <==> id in count && (id, count[id]) !in rest
      decreases |rest|
    {
      var item :| item in rest;
      var nid := item.0;
      ghost var before := state.locNodes;
      var ids;
      ids, cache := StackForNode(nid, byId, parent, state, cache, rank);
      EmitNext(samples, leaves, before, state.locNodes, rank, byId, parent, count, us, nid, ids);
      UsedNext(before, state.locNodes, rank, byId, parent, leaves, nid);
      samples := samples + [P.Sample(ids, [item.1, us[nid] * 1000])];
      leaves := leaves + [nid];
      rest := rest - {item};
    }
  }

  lemma NothingEmitted(locNodes: seq<CpuNode>, rank: map<int, nat>, byId: map<int, CpuNode>, parent: map<int, int>,
                       count: map<int, int>, us: map<int, int>)
    requires Ranks(rank, byId, parent)
    ensures Emits([], [], locNodes, rank, byId, parent, count, us) && CacheValid(locNodes, rank, byId, parent, map[])
    ensures AllUsed([], rank, byId, parent, [])
  {}

  ghost predicate DenseIds(p: P.Profile) {
    && (forall i :: 0 <= i < |p.locations| ==> p.locations[i].id == i + 1)
    && (forall i :: 0 <= i < |p.functions| ==> p.functions[i].id == i + 1)
    && (forall i, j :: 0 <= i < j < |p.strings| ==> p.strings[i] != p.strings[j])
  }

  /** The stack a sample's locations resolve to is, leaf first, the demangled frames of its nodes. */
  ghost predicate ResolvesTo(p: P.Profile, demangle: string -> string, byId: map<int, CpuNode>, ids: seq<nat>,
                             stack: seq<int>)
  {
    && |ids| == |stack|
    && forall k :: 0 <= k < |ids| ==>
         stack[k] in byId && Resolve(p, ids[k]) == Some(Expected(demangle, byId[stack[k]].frame))
  }

  /** The frame a function entry was made from, found by its key. */
  ghost predicate MadeFrom(index: map<string, nat>, frames: seq<CallFrame>, key: string, f: CallFrame) {
    key in index && 1 <= index[key] <= |frames| && frames[index[key] - 1] == f
  }

  /** A location shows its node's own line, and the name and url of the frame that first had its node's key. */
  lemma LocationShows(p: P.Profile, demangle: string -> string, funcIndex: map<string, nat>, frames: seq<CallFrame>,
                      locIndex: map<int, nat>, nodes: seq<CpuNode>, id: nat) returns (f: CallFrame)
    requires FunctionsValid(p.strings, demangle, p.functions, funcIndex, frames)
    requires LocationsValid(frames, p.locations, locIndex, nodes) && 1 <= id <= |nodes|
    ensures f in frames && FunctionKey(f) == FunctionKey(nodes[id - 1].frame)
    ensures MadeFrom(funcIndex, frames, FunctionKey(nodes[id - 1].frame), f)
    ensures Resolve(p, id) == Some(Resolved(demangle(RawName(f)), f.url, StartLine(nodes[id - 1].frame)))
    ensures |p.locations| == |nodes| && |p.locations[id - 1].lines| == 1
    ensures 1 <= p.locations[id - 1].lines[0].functionId <= |p.functions|
  {
    hide FunctionKey;
    hide RawName;
    hide Resolve;
    f := LocationResolves(p, demangle, funcIndex, frames, locIndex, nodes, id);
    var l := p.locations[id - 1];
    assert SpellsLocation(frames, l, nodes[id - 1]);
    FoundByKey(p.strings, demangle, p.functions, funcIndex, frames, l.lines[0].functionId);
    hide FunctionsValid;
    hide LocationsValid;
    FoundByFrame(p.strings, demangle, p.functions, funcIndex, frames, f);
  }

  lemma FoundByKey(strings: seq<string>, demangle: string -> string, functions: seq<P.Function>,
                   index: map<string, nat>, frames: seq<CallFrame>, id: nat)
    requires FunctionsValid(strings, demangle, functions, index, frames) && 1 <= id <= |frames|
    ensures |functions| == |frames| && MadeFrom(index, frames, FunctionKey(frames[id - 1]), frames[id - 1])
  {
    hide FunctionKey;
    hide SpellsFunction;
  }

  lemma FoundByFrame(strings: seq<string>, demangle: string -> string, functions: seq<P.Function>,
                     index: map<string, nat>, frames: seq<CallFrame>, f: CallFrame)
    requires FunctionsValid(strings, demangle, functions, index, frames) && f in frames
    ensures MadeFrom(index, frames, FunctionKey(f), f)
  {
    hide FunctionKey;
    hide SpellsFunction;
    var i :| 0 <= i < |frames| && frames[i] == f;
    FoundByKey(strings, demangle, functions, index, frames, i + 1);
  }

  /** A location id in range, with one line that has the node's number and a function in range, and that resolves. */
  ghost predicate Located(p: P.Profile, id: nat, f: CallFrame) {
    && 1 <= id <= |p.locations| && |p.locations[id - 1].lines| == 1
    && 1 <= p.locations[id - 1].lines[0].functionId <= |p.functions|
    && Resolve(p, id).Some? && Resolve(p, id).value.line == StartLine(f)
  }

  ghost predicate LocatedAll(p: P.Profile, byId: map<int, CpuNode>, ids: seq<nat>, stack: seq<int>) {
    |ids| == |stack| && forall k :: 0 <= k < |ids| ==> stack[k] in byId && Located(p, ids[k], byId[stack[k]].frame)
  }

  /** What `Build` returns whatever the names hold: one sample per sampled leaf, its values, and locations that stand
      one by one for its stack. */
  ghost predicate BuiltValues(p: P.Profile, leaves: seq<int>, profile: CpuProfile, rank: map<int, nat>)
    requires Ranks(rank, NodeById(profile.nodes), ParentMap(profile.nodes))
  {
    var byId, parent := NodeById(profile.nodes), ParentMap(profile.nodes);
    && |p.samples| == |leaves| && Distinct(leaves)
    && (forall id :: id in leaves <==> id in profile.samples)
    && forall k :: 0 <= k < |leaves| ==>
         && p.samples[k].values == [Occurrences(profile.samples, leaves[k]),
                                    TimeOf(profile.samples, profile.timeDeltas, leaves[k]) * 1000]
         && LocatedAll(p, byId, p.samples[k].locationIds, NodeStack(rank, byId, parent, leaves[k]))
  }

  /** Every sample resolves, leaf first, to the demangled frames of its stack. */
  ghost predicate ResolvesAll(p: P.Profile, leaves: seq<int>, profile: CpuProfile, demangle: string -> string,
                              rank: map<int, nat>)
    requires Ranks(rank, NodeById(profile.nodes), ParentMap(profile.nodes))
  {
    var byId, parent := NodeById(profile.nodes), ParentMap(profile.nodes);
    |p.samples| == |leaves| && forall k :: 0 <= k < |leaves| ==>
      ResolvesTo(p, demangle, byId, p.samples[k].locationIds, NodeStack(rank, byId, parent, leaves[k]))
  }

  ghost predicate SameShown(demangle: string -> string, f: CallFrame, g: CallFrame) {
    demangle(RawName(f)) == demangle(RawName(g)) && f.url == g.url
  }

  /** Nodes on the stacks of these leaves whose frames share a function key show the same name and url. */
  ghost predicate KeysAgree(demangle: string -> string, rank: map<int, nat>, byId: map<int, CpuNode>,
                            parent: map<int, int>, leaves: seq<int>)
    requires Ranks(rank, byId, parent)
  {
    forall a, b :: OnStackOf(rank, byId, parent, leaves, a) && OnStackOf(rank, byId, parent, leaves, b)
                   && a in byId && b in byId && FunctionKey(byId[a].frame) == FunctionKey(byId[b].frame) ==>
      SameShown(demangle, byId[a].frame, byId[b].frame)
  }

  /** What `Build` returns: the values always, and the right frames exactly when keys agree on the sampled stacks. */
  ghost predicate Built(p: P.Profile, leaves: seq<int>, profile: CpuProfile, demangle: string -> string,
                        rank: map<int, nat>)
    requires Ranks(rank, NodeById(profile.nodes), ParentMap(profile.nodes))
  {
    && BuiltValues(p, leaves, profile, rank)
    && (ResolvesAll(p, leaves, profile, demangle, rank) <==>
        KeysAgree(demangle, rank, NodeById(profile.nodes), ParentMap(profile.nodes), profile.samples))
  }

  /** One location of a stack, in the tables of a finished state. */
  lemma StandsShows(p: P.Profile, state: State, byId: map<int, CpuNode>, ids: seq<nat>, stack: seq<int>, k: nat)
    returns (f: CallFrame)
    requires state.Valid() && FromNodes(state.locNodes, state.funcFrames, byId)
    requires p.strings == state.strings && p.functions == state.functions && p.locations == state.locations
    requires Stands(state.locNodes, byId, ids, stack) && k < |ids|
    ensures stack[k] in byId && f in state.funcFrames
            && MadeFrom(state.funcIndex, state.funcFrames, FunctionKey(byId[stack[k]].frame), f)
    ensures FunctionKey(f) == FunctionKey(byId[stack[k]].frame) && Located(p, ids[k], byId[stack[k]].frame)
    ensures Resolve(p, ids[k]) == Some(Resolved(state.demangle(RawName(f)), f.url, StartLine(byId[stack[k]].frame)))
  {
    hide StringsValid;
    hide FunctionsValid;
    hide LocationsValid;
    hide FunctionKey;
    hide MadeFrom;
    hide Resolve;
    hide RawName;
    f := LocationShows(p, state.demangle, state.funcIndex, state.funcFrames, state.locByNode, state.locNodes, ids[k]);
  }

  lemma StandsLocated(p: P.Profile, state: State, byId: map<int, CpuNode>, ids: seq<nat>, stack: seq<int>)
    requires state.Valid() && FromNodes(state.locNodes, state.funcFrames, byId)
    requires p.strings == state.strings && p.functions == state.functions && p.locations == state.locations
    requires Stands(state.locNodes, byId, ids, stack)
    ensures LocatedAll(p, byId, ids, stack)
  {
    hide StringsValid;
    hide FunctionsValid;
    hide LocationsValid;
    hide FunctionKey;
    hide FromNodes;
    hide Located;
    forall k | 0 <= k < |ids|
      ensures stack[k] in byId && Located(p, ids[k], byId[stack[k]].frame)
    {
      var _ := StandsShows(p, state, byId, ids, stack, k);
    }
  }

  /** If keys agree, every location of a sampled stack shows its own frame. */
  lemma StandsResolve(p: P.Profile, state: State, rank: map<int, nat>, byId: map<int, CpuNode>, parent: map<int, int>,
                      leaves: seq<int>, leaf: int, ids: seq<nat>)
    requires Ranks(rank, byId, parent) && KeysAgree(state.demangle, rank, byId, parent, leaves) && leaf in leaves
    requires state.Valid() && FromNodes(state.locNodes, state.funcFrames, byId)
    requires AllUsed(state.locNodes, rank, byId, parent, leaves)
    requires p.strings == state.strings && p.functions == state.functions && p.locations == state.locations
    requires Stands(state.locNodes, byId, ids, NodeStack(rank, byId, parent, leaf))
    ensures ResolvesTo(p, state.demangle, byId, ids, NodeStack(rank, byId, parent, leaf))
  {
    hide StringsValid;
    hide FunctionsValid;
    hide LocationsValid;
    hide FunctionKey;
    hide Resolve;
    hide RawName;
    hide Ranks;
    hide NodeStack;
    hide Located;
    hide MadeFrom;
    hide Stands;
    StandsSize(state.locNodes, byId, ids, NodeStack(rank, byId, parent, leaf));
    forall k | 0 <= k < |ids|
      ensures var n := NodeStack(rank, byId, parent, leaf)[k];
              n in byId && Resolve(p, ids[k]) == Some(Expected(state.demangle, byId[n].frame))
    {
      var n := NodeStack(rank, byId, parent, leaf)[k];
      var f := StandsShows(p, state, byId, ids, NodeStack(rank, byId, parent, leaf), k);
      var m :| m in state.locNodes && m.frame == f;
      assert n in NodeStack(rank, byId, parent, leaf);
      assert OnStackOf(rank, byId, parent, leaves, n) && OnStackOf(rank, byId, parent, leaves, m.id);
      assert SameShown(state.demangle, byId[m.id].frame, byId[n].frame);
    }
  }

  lemma StandsSize(locNodes: seq<CpuNode>, byId: map<int, CpuNode>, ids: seq<nat>, stack: seq<int>)
    requires Stands(locNodes, byId, ids, stack)
    ensures |ids| == |stack|
  {}

  /** If two sampled nodes share a key, both show the frame that first had it: resolving rightly forces agreement. */
  lemma ResolvedAgree(p: P.Profile, state: State, byId: map<int, CpuNode>, ids: seq<nat>, stack: seq<int>, i: nat,
                      ids': seq<nat>, stack': seq<int>, j: nat)
    requires state.Valid() && FromNodes(state.locNodes, state.funcFrames, byId)
    requires p.strings == state.strings && p.functions == state.functions && p.locations == state.locations
    requires Stands(state.locNodes, byId, ids, stack) && ResolvesTo(p, state.demangle, byId, ids, stack) && i < |ids|
    requires Stands(state.locNodes, byId, ids', stack') && ResolvesTo(p, state.demangle, byId, ids', stack')
             && j < |ids'|
    requires FunctionKey(byId[stack[i]].frame) == FunctionKey(byId[stack'[j]].frame)
    ensures SameShown(state.demangle, byId[stack[i]].frame, byId[stack'[j]].frame)
  {
    hide StringsValid;
    hide FunctionsValid;
    hide LocationsValid;
    hide FunctionKey;
    hide Resolve;
    hide RawName;
    hide FromNodes;
    hide Located;
    hide Stands;
    var f := StandsShows(p, state, byId, ids, stack, i);
    var g := StandsShows(p, state, byId, ids', stack', j);
    assert f == g;
  }

  lemma EmitsBuilt(p: P.Profile, state: State, leaves: seq<int>, profile: CpuProfile, rank: map<int, nat>)
    requires Ranks(rank, NodeById(profile.nodes), ParentMap(profile.nodes)) && state.Valid()
    requires FromNodes(state.locNodes, state.funcFrames, NodeById(profile.nodes))
    requires AllUsed(state.locNodes, rank, NodeById(profile.nodes), ParentMap(profile.nodes), leaves)
    requires p.strings == state.strings && p.functions == state.functions && p.locations == state.locations
    requires Emits(p.samples, leaves, state.locNodes, rank, NodeById(profile.nodes), ParentMap(profile.nodes),
                   CountByNode(profile.samples), UsByNode(profile.samples, profile.timeDeltas))
    requires forall id :: id in leaves <==> id in CountByNode(profile.samples)
    ensures Built(p, leaves, profile, state.demangle, rank)
  {
    hide StringsValid;
    hide FunctionsValid;
    hide LocationsValid;
    hide FromNodes;
    hide Stands;
    hide LocatedAll;
    hide ResolvesAll;
    hide KeysAgree;
    hide NodeById;
    hide ParentMap;
    hide NodeStack;
    hide Ranks;
    hide CountByNode;
    hide UsByNode;
    hide Occurrences;
    hide TimeOf;
    hide AllUsed;
    AggregationIsExact(profile.samples, profile.timeDeltas);
    var byId, parent := NodeById(profile.nodes), ParentMap(profile.nodes);
    forall k | 0 <= k < |leaves|
      ensures LocatedAll(p, byId, p.samples[k].locationIds, NodeStack(rank, byId, parent, leaves[k]))
    {
      StandsLocated(p, state, byId, p.samples[k].locationIds, NodeStack(rank, byId, parent, leaves[k]));
    }
    SameLeaves(state.demangle, rank, byId, parent, leaves, profile.samples);
    EmitsResolve(p, state, leaves, profile, rank);
  }

  lemma SameLeaves(demangle: string -> string, rank: map<int, nat>, byId: map<int, CpuNode>, parent: map<int, int>,
                   leaves: seq<int>, leaves': seq<int>)
    requires Ranks(rank, byId, parent) && forall id :: id in leaves <==> id in leaves'
    ensures KeysAgree(demangle, rank, byId, parent, leaves) <==> KeysAgree(demangle, rank, byId, parent, leaves')
  {
    hide NodeStack;
    hide FunctionKey;
    hide SameShown;
    forall id
      ensures OnStackOf(rank, byId, parent, leaves, id) <==> OnStackOf(rank, byId, parent, leaves', id)
    {
      if OnStackOf(rank, byId, parent, leaves, id) {
        var leaf :| leaf in leaves && id in NodeStack(rank, byId, parent, leaf);
        assert leaf in leaves';
      }
      if OnStackOf(rank, byId, parent, leaves', id) {
        var leaf :| leaf in leaves' && id in NodeStack(rank, byId, parent, leaf);
        assert leaf in leaves;
      }
    }
    hide OnStackOf;
  }

  lemma EmitsResolve(p: P.Profile, state: State, leaves: seq<int>, profile: CpuProfile, rank: map<int, nat>)
    requires Ranks(rank, NodeById(profile.nodes), ParentMap(profile.nodes)) && state.Valid()
    requires FromNodes(state.locNodes, state.funcFrames, NodeById(profile.nodes))
    requires AllUsed(state.locNodes, rank, NodeById(profile.nodes), ParentMap(profile.nodes), leaves)
    requires p.strings == state.strings && p.functions == state.functions && p.locations == state.locations
    requires |p.samples| == |leaves|
    requires forall k :: 0 <= k < |leaves| ==>
               Stands(state.locNodes, NodeById(profile.nodes), p.samples[k].locationIds,
                      NodeStack(rank, NodeById(profile.nodes), ParentMap(profile.nodes), leaves[k]))
    ensures ResolvesAll(p, leaves, profile, state.demangle, rank) <==>
            KeysAgree(state.demangle, rank, NodeById(profile.nodes), ParentMap(profile.nodes), leaves)
  {
    hide StringsValid;
    hide FunctionsValid;
    hide LocationsValid;
    hide FromNodes;
    hide AllUsed;
    hide Stands;
    hide NodeById;
    hide ParentMap;
    hide NodeStack;
    hide Ranks;
    hide FunctionKey;
    hide SameShown;
    var byId, parent := NodeById(profile.nodes), ParentMap(profile.nodes);
    if KeysAgree(state.demangle, rank, byId, parent, leaves) {
      hide ResolvesTo;
      forall k | 0 <= k < |leaves|
        ensures ResolvesTo(p, state.demangle, byId, p.samples[k].locationIds, NodeStack(rank, byId, parent, leaves[k]))
      {
        StandsResolve(p, state, rank, byId, parent, leaves, leaves[k], p.samples[k].locationIds);
      }
    }
    if ResolvesAll(p, leaves, profile, state.demangle, rank) {
      forall a, b | OnStackOf(rank, byId, parent, leaves, a) && OnStackOf(rank, byId, parent, leaves, b)
                    && a in byId && b in byId && FunctionKey(byId[a].frame) == FunctionKey(byId[b].frame)
        ensures SameShown(state.demangle, byId[a].frame, byId[b].frame)
      {
        var k, i := PlaceOf(rank, byId, parent, leaves, a);
        var l, j := PlaceOf(rank, byId, parent, leaves, b);
        ResolvedAgree(p, state, byId, p.samples[k].locationIds, NodeStack(rank, byId, parent, leaves[k]), i,
                      p.samples[l].locationIds, NodeStack(rank, byId, parent, leaves[l]), j);
      }
    }
  }

  lemma PlaceOf(rank: map<int, nat>, byId: map<int, CpuNode>, parent: map<int, int>, leaves: seq<int>, id: int)
    returns (k: nat, i: nat)
    requires Ranks(rank, byId, parent) && OnStackOf(rank, byId, parent, leaves, id)
    ensures k < |leaves| && i < |NodeStack(rank, byId, parent, leaves[k])|
            && NodeStack(rank, byId, parent, leaves[k])[i] == id
  {
    hide NodeStack;
    var leaf :| leaf in leaves && id in NodeStack(rank, byId, parent, leaf);
    k :| 0 <= k < |leaves| && leaves[k] == leaf;
    i :| 0 <= i < |NodeStack(rank, byId, parent, leaf)| && NodeStack(rank, byId, parent, leaf)[i] == id;
  }

  /** Keys that tell all frames apart agree. */
  lemma DistinguishedAgree(nodes: seq<CpuNode>, demangle: string -> string, rank: map<int, nat>, leaves: seq<int>)
    requires Ranks(rank, NodeById(nodes), ParentMap(nodes)) && KeysDistinguish(nodes)
    ensures KeysAgree(demangle, rank, NodeById(nodes), ParentMap(nodes), leaves)
  {
    hide ParentMap;
    hide FunctionKey;
    hide RawName;
    NodeByIdKeys(nodes);
    hide NodeById;
  }

  /** The builder. Unless a cycle is among the ancestors of a sampled node it ends; string, function and location ids
      are dense; there is one sample per distinct sampled leaf, with that leaf's count and 1000 times its microseconds
      and a location in range for every node of its stack; and all of them resolve to the frames from the leaf up to the
      root exactly when nodes on sampled stacks that share a function key show the same name and url. */
  method Build(profile: CpuProfile, demangle: string -> string, ghost rank: map<int, nat>)
    returns (p: P.Profile, ghost leaves: seq<int>)
    requires Ranks(rank, NodeById(profile.nodes), ParentMap(profile.nodes))
    requires forall id :: id in profile.samples ==> Ranked(rank, NodeById(profile.nodes), id)
    ensures DenseIds(p)
    ensures Built(p, leaves, profile, demangle, rank)
    ensures p.sampleTypes == [P.ValueType(1, 2), P.ValueType(3, 4)]
    ensures |p.strings| >= 5 && p.strings[1..5] == ["samples", "count", "cpu", "nanoseconds"]
    ensures p.timeNanos == Saturate(profile.startTime * 1000)
    ensures p.durationNanos == Saturate(Saturate(profile.endTime - profile.startTime) * 1000)
  {
    hide StringsValid;
    hide FunctionsValid;
    hide LocationsValid;
    hide FromNodes;
    hide AllUsed;
    hide Built;
    hide Emits;
    hide Ranks;
    hide NodeById;
    hide ParentMap;
    hide CountByNode;
    hide UsByNode;
    hide DenseIds;
    hide Saturate;
    var state := new State(demangle);
    var byId := IndexNodes(profile.nodes);
    NodeByIdKeys(profile.nodes);
    NothingMade(byId);
    var parent := InvertChildren(profile.nodes);
    var count, us := AggregateSamples(profile.samples, profile.timeDeltas);
    SameKeys(profile.samples, profile.timeDeltas);
    var samples;
    samples, leaves := EmitSamples(state, byId, parent, count, us, rank);
    FixedStrings(state.strings, state.stringIndex);
    p := P.Profile([P.ValueType(state.stringIndex["samples"], state.stringIndex["count"]),
                    P.ValueType(state.stringIndex["cpu"], state.stringIndex["nanoseconds"])],
                   samples, state.locations, state.functions, state.strings,
                   Saturate(profile.startTime * 1000), Saturate(Saturate(profile.endTime - profile.startTime) * 1000));
    TablesDense(state, p);
    EmitsBuilt(p, state, leaves, profile, rank);
  }

  lemma SameKeys(samples: seq<int>, deltas: seq<int>)
    ensures UsByNode(samples, deltas).Keys == CountByNode(samples).Keys
    ensures forall id :: id in CountByNode(samples) ==> id in samples
  {
    AggregationIsExact(samples, deltas);
  }

  lemma FixedStrings(strings: seq<string>, index: map<string, int>)
    requires StringsValid(strings, index) && FIXED <= strings
    ensures "samples" in index && index["samples"] == 1 && "count" in index && index["count"] == 2
    ensures "cpu" in index && index["cpu"] == 3 && "nanoseconds" in index && index["nanoseconds"] == 4
    ensures |strings| >= 5 && strings[1..5] == ["samples", "count", "cpu", "nanoseconds"]
  {
    assert strings[1] == "samples" && strings[2] == "count" && strings[3] == "cpu" && strings[4] == "nanoseconds";
  }

  lemma NothingMade(byId: map<int, CpuNode>)
    requires forall id :: id in byId ==> byId[id].id == id
    ensures FromNodes([], [], byId)
  {}

  lemma TablesDense(state: State, p: P.Profile)
    requires state.Valid() && p.strings == state.strings && p.functions == state.functions
             && p.locations == state.locations
    ensures DenseIds(p)
  {
    hide SpellsLocation;
    hide SpellsFunction;
    hide FunctionKey;
  }

  // --------------------------------------------------------------- collision

  /** Two functions, sampled once each, whose names and urls run together to one key. */
  function CollidingProfile(): CpuProfile {
    CpuProfile([CpuNode(1, CallFrame("a" + [SEP] + "b", "0", "c", -1, -1), []),
                CpuNode(2, CallFrame("a", "0", "b" + [SEP] + "c", -1, -1), [])],
               [1, 2], [1, 1], 0, 2)
  }

  lemma CollidingNodes()
    ensures var nodes := CollidingProfile().nodes;
            && NodeById(nodes) == map[1 := nodes[0], 2 := nodes[1]] && ParentMap(nodes) == map[]
            && Ranks(map[1 := 0, 2 := 0], NodeById(nodes), ParentMap(nodes))
  {
    var nodes := CollidingProfile().nodes;
    var one := [nodes[0]];
    assert nodes[..1] == one && one[..0] == [];
    assert NodeById([]) == map[] && ParentMap([]) == map[];
    assert NodeById(one) == map[1 := nodes[0]] && ParentMap(one) == map[];
  }

  /** Whatever the demangler, one of them is then shown as the other. */
  lemma CollisionMisleads(p: P.Profile, leaves: seq<int>, demangle: string -> string)
    requires Ranks(map[1 := 0, 2 := 0], NodeById(CollidingProfile().nodes), ParentMap(CollidingProfile().nodes))
    requires Built(p, leaves, CollidingProfile(), demangle, map[1 := 0, 2 := 0])
    ensures !ResolvesAll(p, leaves, CollidingProfile(), demangle, map[1 := 0, 2 := 0])
  {
    hide BuiltValues;
    hide ResolvesAll;
    var profile, rank: map<int, nat> := CollidingProfile(), map[1 := 0, 2 := 0];
    var byId, parent := NodeById(profile.nodes), ParentMap(profile.nodes);
    CollidingNodes();
    SeparatorCollides();
    hide NodeById;
    hide ParentMap;
    hide FunctionKey;
    assert 1 in profile.samples && 2 in profile.samples;
    assert 1 in NodeStack(rank, byId, parent, 1) && 2 in NodeStack(rank, byId, parent, 2);
    assert OnStackOf(rank, byId, parent, profile.samples, 1) && OnStackOf(rank, byId, parent, profile.samples, 2);
    assert |byId[1].frame.url| == 1 && |byId[2].frame.url| == 3;
    assert !SameShown(demangle, byId[1].frame, byId[2].frame);
  }

  // ------------------------------------------------------------ conservation

  ghost predicate Covers(m: map<int, int>, ids: seq<int>) {
    forall k :: 0 <= k < |ids| ==> ids[k] in m
  }

  function SumAt(m: map<int, int>, ids: seq<int>): int
    requires Covers(m, ids)
  {
    if ids == [] then 0 else SumAt(m, ids[..|ids| - 1]) + m[ids[|ids| - 1]]
  }

  lemma {:induction false} SumAtSame(m: map<int, int>, m': map<int, int>, ids: seq<int>)
    requires Covers(m, ids) && Covers(m', ids) && forall k :: 0 <= k < |ids| ==> m[ids[k]] == m'[ids[k]]
    ensures SumAt(m, ids) == SumAt(m', ids)
  {
    if ids != [] {
      SumAtSame(m, m', ids[..|ids| - 1]);
    }
  }

  /** Summing a map along an enumeration of its keys is summing the map. */
  lemma {:induction false} TotalEnumerated(m: map<int, int>, ids: seq<int>)
    requires Distinct(ids) && Covers(m, ids) && forall id :: id in m ==> id in ids
    ensures SumAt(m, ids) == Total(m)
    decreases |ids|
  {
    if ids == [] {
      assert forall id :: id !in m;
      assert m == map[];
    } else {
      var init, last := ids[..|ids| - 1], ids[|ids| - 1];
      assert last in m;
      assert forall k :: 0 <= k < |init| ==> init[k] == ids[k];
      forall id | id in m - {last}
        ensures id in init
      {
        var k :| 0 <= k < |ids| && ids[k] == id;
        assert init[k] == id;
      }
      TotalEnumerated(m - {last}, init);
      SumAtSame(m, m - {last}, init);
      TotalRemove(m, last);
    }
  }

  function SumColumn(samples: seq<P.Sample>, i: nat): int {
    if samples == [] then 0 else SumColumn(samples[..|samples| - 1], i) + P.ValueAt(samples[|samples| - 1], i)
  }

  lemma {:induction false} SumColumnIs(samples: seq<P.Sample>, i: nat, m: map<int, int>, ids: seq<int>, scale: int)
    requires |samples| == |ids|
    requires forall k :: 0 <= k < |ids| ==> ids[k] in m && P.ValueAt(samples[k], i) == m[ids[k]] * scale
    ensures Covers(m, ids) && SumColumn(samples, i) == SumAt(m, ids) * scale
  {
    if ids != [] {
      SumColumnIs(samples[..|ids| - 1], i, m, ids[..|ids| - 1], scale);
      Scaled(SumAt(m, ids[..|ids| - 1]), m[ids[|ids| - 1]], scale);
    }
  }

  lemma Scaled(a: int, b: int, scale: int)
    ensures (a + b) * scale == a * scale + b * scale
  {}

  /** The built profile conserves both totals: counts sum to the number of samples, and nanoseconds to 1000 times the
      summed deltas. */
  lemma BuiltConserves(p: P.Profile, leaves: seq<int>, profile: CpuProfile, rank: map<int, nat>)
    requires Ranks(rank, NodeById(profile.nodes), ParentMap(profile.nodes)) && BuiltValues(p, leaves, profile, rank)
    ensures SumColumn(p.samples, 0) == |profile.samples|
    ensures SumColumn(p.samples, 1) == 1000 * SumDeltas(profile.timeDeltas, |profile.samples|)
  {
    hide LocatedAll;
    var count, us := CountByNode(profile.samples), UsByNode(profile.samples, profile.timeDeltas);
    AggregationIsExact(profile.samples, profile.timeDeltas);
    hide CountByNode;
    hide UsByNode;
    TotalEnumerated(count, leaves);
    TotalEnumerated(us, leaves);
    SumColumnIs(p.samples, 0, count, leaves, 1);
    SumColumnIs(p.samples, 1, us, leaves, 1000);
  }
}
