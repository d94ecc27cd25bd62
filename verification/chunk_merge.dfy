/** Chrome trace events to CPU profiles: streams demultiplexed by key, chunks
    merged in time order, and parenthood collected from either side. */
module ChunkMerge {
  import opened StableSort
  import opened Wrappers
  import opened Int64
  import opened V8
  import opened CpuProfiles
  import opened OrderedKeys

  datatype RawNode = RawNode(id: int, frame: CallFrame, children: seq<int>, parent: Option<int>)

  datatype Chunk = Chunk(ts: int, nodes: seq<RawNode>, samples: seq<int>, timeDeltas: seq<int>)

  // ------------------------------------------------------------- node merge

  function PushUnique(values: seq<int>, value: int): seq<int> {
    if value in values then values else values + [value]
  }

  function PushAllUnique(values: seq<int>, more: seq<int>): seq<int> {
    if more == [] then values
    else PushUnique(PushAllUnique(values, more[..|more| - 1]), more[|more| - 1])
  }

  datatype MergeState = MergeState(order: seq<int>, byId: map<int, RawNode>, links: seq<(int, int)>)

  /** One node of a chunk: a first sight, or more about a node already seen. */
  function MergeOne(st: MergeState, n: RawNode): MergeState {
    var links := if n.parent.Some? then st.links + [(n.parent.value, n.id)] else st.links;
    if n.id !in st.byId then MergeState(st.order + [n.id], st.byId[n.id := n], links)
    else
      var e := st.byId[n.id];
      var e' := e.(children := PushAllUnique(e.children, n.children),
                   parent := if e.parent.None? then n.parent else e.parent);
      MergeState(st.order, st.byId[n.id := e'], links)
  }

  function MergeAll(ns: seq<RawNode>): MergeState {
    if ns == [] then MergeState([], map[], []) else MergeOne(MergeAll(ns[..|ns| - 1]), ns[|ns| - 1])
  }

  /** Parent links turned into children, where the parent is known. */
  function Link(byId: map<int, RawNode>, links: seq<(int, int)>): map<int, RawNode> {
    if links == [] then byId
    else
      var m, l := Link(byId, links[..|links| - 1]), links[|links| - 1];
      if l.0 in m then m[l.0 := m[l.0].(children := PushUnique(m[l.0].children, l.1))] else m
  }

  function NodesInOrder(order: seq<int>, byId: map<int, RawNode>): seq<CpuNode> {
    if order == [] then []
    else
      var id := order[|order| - 1];
      NodesInOrder(order[..|order| - 1], byId)
      + if id in byId then [CpuNode(byId[id].id, byId[id].frame, byId[id].children)] else []
  }

  function Merged(ns: seq<RawNode>): seq<CpuNode> {
    var st := MergeAll(ns);
    NodesInOrder(st.order, Link(st.byId, st.links))
  }

  // ------------------------------------------------- what the merge depends on

  /** Ids in order of first sight, and the frame each was first seen with. */
  function OrderOf(ns: seq<RawNode>): seq<int> {
    if ns == [] then [] else PushUnique(OrderOf(ns[..|ns| - 1]), ns[|ns| - 1].id)
  }

  function FrameOf(ns: seq<RawNode>, id: int): Option<CallFrame> {
    if ns == [] then None
    else
      var f, n := FrameOf(ns[..|ns| - 1], id), ns[|ns| - 1];
      if f.Some? then f else if n.id == id then Some(n.frame) else None
  }

  /** The frame a node was first seen with stays. */
  lemma {:induction false} FirstFrame(ns: seq<RawNode>, i: nat)
    requires i < |ns| && forall j :: 0 <= j < i ==> ns[j].id != ns[i].id
    ensures FrameOf(ns, ns[i].id) == Some(ns[i].frame)
  {
    var init, n := ns[..|ns| - 1], |ns| - 1;
    if i < n {
      FirstFrame(init, i);
    } else {
      NotSeen(init, ns[i].id);
    }
  }

  lemma {:induction false} NotSeen(ns: seq<RawNode>, id: int)
    requires forall j :: 0 <= j < |ns| ==> ns[j].id != id
    ensures FrameOf(ns, id) == None
  {
    if ns != [] {
      NotSeen(ns[..|ns| - 1], id);
    }
  }

  /** Nodes seen later come later. */
  lemma {:induction false} OrderGrows(a: seq<RawNode>, b: seq<RawNode>)
    ensures OrderOf(a) <= OrderOf(a + b)
  {
    if b == [] {
      assert a + b == a;
    } else {
      OrderGrows(a, b[..|b| - 1]);
      assert (a + b)[..|a + b| - 1] == a + b[..|b| - 1];
    }
  }

  ghost predicate ListsChild(ns: seq<RawNode>, p: int, c: int) {
    exists n :: n in ns && n.id == p && c in n.children
  }

  ghost predicate NamesParent(ns: seq<RawNode>, p: int, c: int) {
    exists n :: n in ns && n.id == c && n.parent == Some(p)
  }

  /** Some node declares `p` the parent of `c`, from either side, and `p` is a node. */
  ghost predicate Declares(ns: seq<RawNode>, p: int, c: int) {
    p in OrderOf(ns) && (ListsChild(ns, p, c) || NamesParent(ns, p, c))
  }

  lemma {:induction false} PushAllElements(values: seq<int>, more: seq<int>)
    ensures forall c :: c in PushAllUnique(values, more) <==> c in values || c in more
  {
    if more != [] {
      PushAllElements(values, more[..|more| - 1]);
      assert more == more[..|more| - 1] + [more[|more| - 1]];
    }
  }

  ghost predicate StateMeans(st: MergeState, ns: seq<RawNode>) {
    && st.order == OrderOf(ns)
    && (forall id :: id in st.byId <==> id in OrderOf(ns))
    && (forall id :: id in st.byId ==> st.byId[id].id == id && FrameOf(ns, id) == Some(st.byId[id].frame))
    && (forall p, c :: p in st.byId ==> (c in st.byId[p].children <==> ListsChild(ns, p, c)))
    && (forall p, c :: (p, c) in st.links <==> NamesParent(ns, p, c))
  }

  lemma SnocDeclares(ns: seq<RawNode>, n: RawNode)
    ensures forall p, c :: ListsChild(ns + [n], p, c) <==> ListsChild(ns, p, c) || (n.id == p && c in n.children)
    ensures forall p, c :: NamesParent(ns + [n], p, c) <==> NamesParent(ns, p, c) || (n.id == c && n.parent == Some(p))
  {
    var all := ns + [n];
    assert forall x :: x in all <==> x in ns || x == n;
    forall p, c
      ensures ListsChild(all, p, c) <==> ListsChild(ns, p, c) || (n.id == p && c in n.children)
    {
      if n.id == p && c in n.children {
        assert n in all;
      }
    }
    forall p, c
      ensures NamesParent(all, p, c) <==> NamesParent(ns, p, c) || (n.id == c && n.parent == Some(p))
    {
      if n.id == c && n.parent == Some(p) {
        assert n in all;
      }
    }
  }

  lemma SnocOrder(ns: seq<RawNode>, n: RawNode)
    ensures OrderOf(ns + [n]) == PushUnique(OrderOf(ns), n.id)
    ensures forall id :: FrameOf(ns + [n], id) ==
              if FrameOf(ns, id).Some? then FrameOf(ns, id) else if n.id == id then Some(n.frame) else None
  {
    assert (ns + [n])[..|ns|] == ns;
  }

  lemma {:induction false} FrameKnown(ns: seq<RawNode>, id: int)
    ensures FrameOf(ns, id).Some? <==> id in OrderOf(ns)
  {
    if ns != [] {
      FrameKnown(ns[..|ns| - 1], id);
    }
  }

  /** No node lists a child before it is seen. */
  lemma {:induction false} ListsKnown(ns: seq<RawNode>)
    ensures forall n :: n in ns ==> n.id in OrderOf(ns)
  {
    if ns != [] {
      ListsKnown(ns[..|ns| - 1]);
      assert ns == ns[..|ns| - 1] + [ns[|ns| - 1]];
    }
  }

  lemma {:induction false} MergeAllMeans(ns: seq<RawNode>)
    ensures StateMeans(MergeAll(ns), ns)
  {
    if ns != [] {
      var init, n := ns[..|ns| - 1], ns[|ns| - 1];
      MergeAllMeans(init);
      assert ns == init + [n];
      MergeOneMeans(MergeAll(init), init, n);
    }
  }

  lemma MergeOneMeans(st: MergeState, ns: seq<RawNode>, n: RawNode)
    requires StateMeans(st, ns)
    ensures StateMeans(MergeOne(st, n), ns + [n])
  {
    hide ListsChild;
    hide NamesParent;
    hide OrderOf;
    hide FrameOf;
    hide PushAllUnique;
    SnocDeclares(ns, n);
    SnocOrder(ns, n);
    FrameKnown(ns, n.id);
    if n.id in st.byId {
      PushAllElements(st.byId[n.id].children, n.children);
    } else {
      NothingListed(ns, n.id);
    }
  }

  lemma NothingListed(ns: seq<RawNode>, p: int)
    requires p !in OrderOf(ns)
    ensures forall c :: !ListsChild(ns, p, c)
  {
    ListsKnown(ns);
  }

  lemma {:induction false} LinkMeans(byId: map<int, RawNode>, links: seq<(int, int)>)
    ensures forall id :: id in Link(byId, links) <==> id in byId
    ensures forall p :: p in byId ==>
              Link(byId, links)[p].id == byId[p].id && Link(byId, links)[p].frame == byId[p].frame
    ensures forall p, c :: p in byId ==>
              (c in Link(byId, links)[p].children <==> c in byId[p].children || (p, c) in links)
  {
    if links != [] {
      LinkMeans(byId, links[..|links| - 1]);
      assert links == links[..|links| - 1] + [links[|links| - 1]];
    }
  }

  /** `c` is a child of `p` in a list of merged nodes. */
  ghost predicate HasEdge(nodes: seq<CpuNode>, p: int, c: int) {
    exists n :: n in nodes && n.id == p && c in n.children
  }

  lemma {:induction false} NodesInOrderMeans(order: seq<int>, byId: map<int, RawNode>)
    requires (forall i :: 0 <= i < |order| ==> order[i] in byId) && forall id :: id in byId ==> byId[id].id == id
    ensures |NodesInOrder(order, byId)| == |order|
    ensures forall i :: 0 <= i < |order| ==>
              NodesInOrder(order, byId)[i] == CpuNode(order[i], byId[order[i]].frame, byId[order[i]].children)
  {
    if order != [] {
      var init, id := order[..|order| - 1], order[|order| - 1];
      NodesInOrderMeans(init, byId);
    }
  }

  /** Every merged node, as a sequence entry. */
  lemma MergedAt(ns: seq<RawNode>)
    ensures |Merged(ns)| == |OrderOf(ns)|
    ensures forall i :: 0 <= i < |OrderOf(ns)| ==>
              Merged(ns)[i].id == OrderOf(ns)[i] && Some(Merged(ns)[i].frame) == FrameOf(ns, OrderOf(ns)[i])
    ensures forall i, c :: 0 <= i < |OrderOf(ns)| ==>
              (c in Merged(ns)[i].children <==> ListsChild(ns, OrderOf(ns)[i], c) || NamesParent(ns, OrderOf(ns)[i], c))
  {
    hide ListsChild;
    hide NamesParent;
    hide OrderOf;
    hide FrameOf;
    hide Link;
    hide MergeAll;
    hide NodesInOrder;
    var st := MergeAll(ns);
    MergeAllMeans(ns);
    LinkMeans(st.byId, st.links);
    var byId := Link(st.byId, st.links);
    forall i | 0 <= i < |st.order|
      ensures st.order[i] in byId
    {
      var id := st.order[i];
      assert id in OrderOf(ns);
      assert id in st.byId;
      assert id in Link(st.byId, st.links);
    }
    NodesInOrderMeans(st.order, byId);
  }

  /** The merged nodes: in order of first sight, with the frames first seen, and exactly the declared edges. */
  lemma MergedMeans(ns: seq<RawNode>)
    ensures |Merged(ns)| == |OrderOf(ns)|
    ensures forall i :: 0 <= i < |OrderOf(ns)| ==>
              Merged(ns)[i].id == OrderOf(ns)[i] && Some(Merged(ns)[i].frame) == FrameOf(ns, OrderOf(ns)[i])
    ensures forall p, c :: HasEdge(Merged(ns), p, c) <==> Declares(ns, p, c)
  {
    hide ListsChild;
    hide NamesParent;
    hide OrderOf;
    hide FrameOf;
    hide Merged;
    MergedAt(ns);
    forall p, c
      ensures HasEdge(Merged(ns), p, c) <==> Declares(ns, p, c)
    {
      OrderDistinct(ns);
      if p in OrderOf(ns) {
        var i :| 0 <= i < |OrderOf(ns)| && OrderOf(ns)[i] == p;
        assert Merged(ns)[i] in Merged(ns);
      }
    }
  }

  lemma {:induction false} AddChildrenMeans(parent: map<int, int>, children: seq<int>, p: int)
    ensures forall c :: c in AddChildren(parent, children, p) <==> c in parent || c in children
    ensures forall c :: c in children ==> AddChildren(parent, children, p)[c] == p
    ensures forall c :: c in parent && c !in children ==> AddChildren(parent, children, p)[c] == parent[c]
  {
    if children != [] {
      AddChildrenMeans(parent, children[..|children| - 1], p);
      assert children == children[..|children| - 1] + [children[|children| - 1]];
    }
  }

  /** The inverted parent map: it covers exactly the nodes with an edge to them, and follows one of those edges. */
  lemma {:induction false} ParentMapMeans(nodes: seq<CpuNode>)
    ensures forall c :: c in ParentMap(nodes) ==> HasEdge(nodes, ParentMap(nodes)[c], c)
    ensures forall p, c :: HasEdge(nodes, p, c) ==> c in ParentMap(nodes)
  {
    if nodes != [] {
      var init, n := nodes[..|nodes| - 1], nodes[|nodes| - 1];
      assert nodes == init + [n];
      ParentMapMeans(init);
      AddChildrenMeans(ParentMap(init), n.children, n.id);
      hide ParentMap;
      hide AddChildren;
      forall c | c in ParentMap(nodes)
        ensures HasEdge(nodes, ParentMap(nodes)[c], c)
      {
        ParentMapSnoc(init, n);
        if c in n.children {
          assert n in nodes;
        } else {
          var m :| m in init && m.id == ParentMap(init)[c] && c in m.children;
          assert m in nodes;
        }
      }
      forall p, c | HasEdge(nodes, p, c)
        ensures c in ParentMap(nodes)
      {
        ParentMapSnoc(init, n);
        var m :| m in nodes && m.id == p && c in m.children;
        if m != n {
          assert HasEdge(init, p, c);
        }
      }
    }
  }

  lemma ParentMapSnoc(init: seq<CpuNode>, n: CpuNode)
    ensures ParentMap(init + [n]) == AddChildren(ParentMap(init), n.children, n.id)
  {
    assert (init + [n])[..|init|] == init;
  }

  /** A forest: nobody is declared to have two parents. */
  ghost predicate Forest(ns: seq<RawNode>) {
    forall p, q, c :: Declares(ns, p, c) && Declares(ns, q, c) ==> p == q
  }

  /** In a forest the parent map is the declared parenthood. */
  lemma ForestParents(ns: seq<RawNode>)
    requires Forest(ns)
    ensures forall p, c :: Declares(ns, p, c) <==> c in ParentMap(Merged(ns)) && ParentMap(Merged(ns))[c] == p
  {
    hide Declares;
    hide HasEdge;
    hide ParentMap;
    hide Merged;
    MergedMeans(ns);
    ParentMapMeans(Merged(ns));
    forall p, c
      ensures Declares(ns, p, c) <==> c in ParentMap(Merged(ns)) && ParentMap(Merged(ns))[c] == p
    {
      if c in ParentMap(Merged(ns)) {
        assert Declares(ns, ParentMap(Merged(ns))[c], c);
      }
      if Declares(ns, p, c) {
        assert HasEdge(Merged(ns), p, c);
      }
    }
  }

  /** Two node streams that declare the same nodes, frames and forest, by whatever mix of children lists and parent
      fields and however repeated, merge to the same nodes and the same parents. */
  lemma SameForestSameTree(ns: seq<RawNode>, ms: seq<RawNode>)
    requires Forest(ns) && OrderOf(ns) == OrderOf(ms)
    requires forall id :: id in OrderOf(ns) ==> FrameOf(ns, id) == FrameOf(ms, id)
    requires forall p, c :: Declares(ns, p, c) <==> Declares(ms, p, c)
    ensures ParentMap(Merged(ns)) == ParentMap(Merged(ms))
    ensures |Merged(ns)| == |Merged(ms)|
    ensures forall i :: 0 <= i < |Merged(ns)| ==>
              Merged(ns)[i].id == Merged(ms)[i].id && Merged(ns)[i].frame == Merged(ms)[i].frame
  {
    hide Declares;
    hide ParentMap;
    hide Merged;
    hide OrderOf;
    hide FrameOf;
    ForestParents(ns);
    ForestParents(ms);
    MergedMeans(ns);
    MergedMeans(ms);
    forall i | 0 <= i < |Merged(ns)|
      ensures Merged(ns)[i].frame == Merged(ms)[i].frame
    {
      assert OrderOf(ns)[i] in OrderOf(ns);
    }
    var a, b := ParentMap(Merged(ns)), ParentMap(Merged(ms));
    forall c
      ensures c in a <==> c in b
      ensures c in a ==> a[c] == b[c]
    {
      if c in a { assert Declares(ns, a[c], c); }
      if c in b { assert Declares(ms, b[c], c); }
    }
  }

  lemma {:induction false} NodeByIdMeans(nodes: seq<CpuNode>, i: nat)
    requires i < |nodes| && forall j, k :: 0 <= j < k < |nodes| ==> nodes[j].id != nodes[k].id
    ensures nodes[i].id in NodeById(nodes) && NodeById(nodes)[nodes[i].id] == nodes[i]
  {
    if i < |nodes| - 1 {
      NodeByIdMeans(nodes[..|nodes| - 1], i);
    }
  }

  lemma {:induction false} OrderDistinct(ns: seq<RawNode>)
    ensures forall j, k :: 0 <= j < k < |OrderOf(ns)| ==> OrderOf(ns)[j] != OrderOf(ns)[k]
  {
    if ns != [] {
      OrderDistinct(ns[..|ns| - 1]);
    }
  }

  /** Looking a merged node up by id: known exactly for the ids seen, with the frame first seen. */
  lemma MergedById(ns: seq<RawNode>, id: int)
    ensures id in NodeById(Merged(ns)) <==> id in OrderOf(ns)
    ensures id in OrderOf(ns) ==> Some(NodeById(Merged(ns))[id].frame) == FrameOf(ns, id)
  {
    hide Merged;
    hide OrderOf;
    hide FrameOf;
    hide NodeById;
    hide Declares;
    MergedMeans(ns);
    OrderDistinct(ns);
    NodeByIdKeys(Merged(ns));
    if id in OrderOf(ns) {
      var i :| 0 <= i < |OrderOf(ns)| && OrderOf(ns)[i] == id;
      NodeByIdMeans(Merged(ns), i);
    }
    if id in NodeById(Merged(ns)) {
      var n := NodeById(Merged(ns))[id];
      var i :| 0 <= i < |Merged(ns)| && Merged(ns)[i] == n;
      assert OrderOf(ns)[i] in OrderOf(ns);
    }
  }

  /** So every ranked leaf has the same root-to-leaf stack of frames in both. */
  lemma {:induction false} SameForestSameStacks(ns: seq<RawNode>, ms: seq<RawNode>, rank: map<int, nat>, leaf: int)
    requires Forest(ns) && OrderOf(ns) == OrderOf(ms)
    requires forall id :: id in OrderOf(ns) ==> FrameOf(ns, id) == FrameOf(ms, id)
    requires forall p, c :: Declares(ns, p, c) <==> Declares(ms, p, c)
    requires Ranks(rank, NodeById(Merged(ns)), ParentMap(Merged(ns)))
    ensures Ranks(rank, NodeById(Merged(ms)), ParentMap(Merged(ms)))
    ensures NodeStack(rank, NodeById(Merged(ns)), ParentMap(Merged(ns)), leaf) ==
            NodeStack(rank, NodeById(Merged(ms)), ParentMap(Merged(ms)), leaf)
    ensures forall id :: id in NodeById(Merged(ns)) ==>
              id in NodeById(Merged(ms)) && NodeById(Merged(ns))[id].frame == NodeById(Merged(ms))[id].frame
    decreases if leaf in rank then rank[leaf] + 1 else 0
  {
    hide Declares;
    hide Merged;
    hide OrderOf;
    hide FrameOf;
    hide NodeById;
    hide ParentMap;
    SameForestSameTree(ns, ms);
    forall id
      ensures id in NodeById(Merged(ns)) <==> id in NodeById(Merged(ms))
      ensures id in NodeById(Merged(ns)) ==> NodeById(Merged(ns))[id].frame == NodeById(Merged(ms))[id].frame
    {
      MergedById(ns, id);
      MergedById(ms, id);
    }
    SameStackIds(rank, NodeById(Merged(ns)), NodeById(Merged(ms)), ParentMap(Merged(ns)), leaf);
  }

  lemma {:induction false} SameStackIds(rank: map<int, nat>, byId: map<int, CpuNode>, byId': map<int, CpuNode>,
                                        parent: map<int, int>, leaf: int)
    requires Ranks(rank, byId, parent) && Ranks(rank, byId', parent)
    requires forall id :: id in byId <==> id in byId'
    ensures NodeStack(rank, byId, parent, leaf) == NodeStack(rank, byId', parent, leaf)
    decreases if leaf in byId && leaf in rank then rank[leaf] + 1 else 0
  {
    if leaf in byId && leaf in rank && leaf in parent {
      SameStackIds(rank, byId, byId', parent, parent[leaf]);
    }
  }

  // ------------------------------------------- the two ways to declare a forest

  /** The same nodes with parenthood in the parent fields. */
  function ByParents(ids: seq<int>, frames: seq<CallFrame>, par: map<int, int>): seq<RawNode>
    requires |ids| == |frames|
  {
    seq(|ids|, i requires 0 <= i < |ids| =>
      RawNode(ids[i], frames[i], [], if ids[i] in par then Some(par[ids[i]]) else None))
  }

  function ChildrenIn(ids: seq<int>, par: map<int, int>, p: int): seq<int> {
    if ids == [] then []
    else
      var c := ids[|ids| - 1];
      ChildrenIn(ids[..|ids| - 1], par, p) + if c in par && par[c] == p then [c] else []
  }

  /** The same nodes with parenthood in the children lists. */
  function ByChildren(ids: seq<int>, frames: seq<CallFrame>, par: map<int, int>): seq<RawNode>
    requires |ids| == |frames|
  {
    seq(|ids|, i requires 0 <= i < |ids| => RawNode(ids[i], frames[i], ChildrenIn(ids, par, ids[i]), None))
  }

  lemma {:induction false} ChildrenInMeans(ids: seq<int>, par: map<int, int>, p: int)
    ensures forall c :: c in ChildrenIn(ids, par, p) <==> c in ids && c in par && par[c] == p
  {
    if ids != [] {
      ChildrenInMeans(ids[..|ids| - 1], par, p);
      assert ids == ids[..|ids| - 1] + [ids[|ids| - 1]];
    }
  }

  lemma {:induction false} SameIdsSameOrder(ns: seq<RawNode>, ms: seq<RawNode>)
    requires |ns| == |ms| && forall i :: 0 <= i < |ns| ==> ns[i].id == ms[i].id && ns[i].frame == ms[i].frame
    ensures OrderOf(ns) == OrderOf(ms) && forall id :: FrameOf(ns, id) == FrameOf(ms, id)
  {
    if ns != [] {
      SameIdsSameOrder(ns[..|ns| - 1], ms[..|ms| - 1]);
    }
  }

  /** Declaring a forest by parent links or by children lists gives the same merged nodes and parents. */
  lemma ParentsOrChildren(ids: seq<int>, frames: seq<CallFrame>, par: map<int, int>)
    requires |ids| == |frames| && forall c :: c in par ==> c in ids
    ensures ParentMap(Merged(ByParents(ids, frames, par))) == ParentMap(Merged(ByChildren(ids, frames, par)))
    ensures OrderOf(ByParents(ids, frames, par)) == OrderOf(ByChildren(ids, frames, par))
    ensures forall id :: FrameOf(ByParents(ids, frames, par), id) == FrameOf(ByChildren(ids, frames, par), id)
  {
    hide ParentMap;
    hide Merged;
    hide OrderOf;
    hide FrameOf;
    var ns, ms := ByParents(ids, frames, par), ByChildren(ids, frames, par);
    SameIdsSameOrder(ns, ms);
    forall p, c
      ensures Declares(ns, p, c) <==> p in OrderOf(ns) && c in par && par[c] == p
      ensures Declares(ms, p, c) <==> p in OrderOf(ns) && c in par && par[c] == p
    {
      ParentsDeclare(ids, frames, par, p, c);
      ChildrenDeclare(ids, frames, par, p, c);
    }
    hide Declares;
    SameForestSameTree(ns, ms);
  }

  lemma ParentsDeclare(ids: seq<int>, frames: seq<CallFrame>, par: map<int, int>, p: int, c: int)
    requires |ids| == |frames| && forall x :: x in par ==> x in ids
    ensures !ListsChild(ByParents(ids, frames, par), p, c)
    ensures NamesParent(ByParents(ids, frames, par), p, c) <==> c in par && par[c] == p
  {
    var ns := ByParents(ids, frames, par);
    if c in par && par[c] == p {
      var i :| 0 <= i < |ids| && ids[i] == c;
      assert ns[i] in ns;
    }
  }

  lemma ChildrenDeclare(ids: seq<int>, frames: seq<CallFrame>, par: map<int, int>, p: int, c: int)
    requires |ids| == |frames| && forall x :: x in par ==> x in ids
    ensures !NamesParent(ByChildren(ids, frames, par), p, c)
    ensures ListsChild(ByChildren(ids, frames, par), p, c) <==> p in ids && c in par && par[c] == p
    ensures p in OrderOf(ByChildren(ids, frames, par)) <==> p in ids
  {
    var ns := ByChildren(ids, frames, par);
    ChildrenInMeans(ids, par, p);
    OrderElements(ns);
    if p in ids {
      var i :| 0 <= i < |ids| && ids[i] == p;
      assert ns[i] in ns;
    }
  }

  lemma {:induction false} OrderElements(ns: seq<RawNode>)
    ensures forall id :: id in OrderOf(ns) <==> exists n :: n in ns && n.id == id
  {
    if ns != [] {
      var init, n := ns[..|ns| - 1], ns[|ns| - 1];
      OrderElements(init);
      assert ns == init + [n];
      assert n in ns;
    }
  }

  // ---------------------------------------------------------- chunks in time

  function Ts(c: Chunk): int {
    c.ts
  }

  /** `sort_by_key(|c| c.ts)`. */
  function SortByTs(cs: seq<Chunk>): seq<Chunk> {
    Sort(cs, Ts)
  }

  ghost predicate InTimeOrder(cs: seq<Chunk>) {
    Ordered(cs, Ts)
  }

  function NodesOf(cs: seq<Chunk>): seq<RawNode> {
    if cs == [] then [] else NodesOf(cs[..|cs| - 1]) + cs[|cs| - 1].nodes
  }

  function SamplesOf(cs: seq<Chunk>): seq<int> {
    if cs == [] then [] else SamplesOf(cs[..|cs| - 1]) + cs[|cs| - 1].samples
  }

  function DeltasOf(cs: seq<Chunk>): seq<int> {
    if cs == [] then [] else DeltasOf(cs[..|cs| - 1]) + cs[|cs| - 1].timeDeltas
  }

  lemma OneChunk(c: Chunk)
    ensures NodesOf([c]) == c.nodes && SamplesOf([c]) == c.samples && DeltasOf([c]) == c.timeDeltas
  {
    assert [c][..0] == [];
    assert NodesOf([]) == [] && SamplesOf([]) == [] && DeltasOf([]) == [];
  }

  /** Chunks are read one after the other. */
  lemma {:induction false} ChunksAdd(a: seq<Chunk>, b: seq<Chunk>)
    ensures NodesOf(a + b) == NodesOf(a) + NodesOf(b)
    ensures SamplesOf(a + b) == SamplesOf(a) + SamplesOf(b)
    ensures DeltasOf(a + b) == DeltasOf(a) + DeltasOf(b)
  {
    if b == [] {
      assert a + b == a;
    } else {
      var init := b[..|b| - 1];
      ChunksAdd(a, init);
      assert (a + b)[..|a + b| - 1] == a + init;
      assert NodesOf(a) + (NodesOf(init) + b[|b| - 1].nodes) == NodesOf(a) + NodesOf(init) + b[|b| - 1].nodes;
      assert SamplesOf(a) + (SamplesOf(init) + b[|b| - 1].samples) ==
             SamplesOf(a) + SamplesOf(init) + b[|b| - 1].samples;
      assert DeltasOf(a) + (DeltasOf(init) + b[|b| - 1].timeDeltas) ==
             DeltasOf(a) + DeltasOf(init) + b[|b| - 1].timeDeltas;
    }
  }

  /** One delta per sample: padded with the default, or cut. */
  function FitDeltas(samples: seq<int>, deltas: seq<int>, default: int): (fitted: seq<int>)
    ensures |fitted| == |samples|
    ensures forall i :: 0 <= i < |fitted| && i < |deltas| ==> fitted[i] == deltas[i]
    ensures forall i :: |deltas| <= i < |fitted| ==> fitted[i] >= 1 && fitted[i] >= default
                                                     && (fitted[i] == 1 || fitted[i] == default)
  {
    if |deltas| < |samples| then deltas + seq(|samples| - |deltas|, _ => if default > 1 then default else 1)
    else deltas[..|samples|]
  }

  datatype Partial = Partial(startTime: Option<int>, endTime: Option<int>, chunks: seq<Chunk>)

  /** The profile of a stream, as a function of what its chunks concatenate to. */
  function ProfileOf(nodes: seq<RawNode>, samples: seq<int>, deltas: seq<int>, startTime: Option<int>,
                     endTime: Option<int>, default: int): CpuProfile
  {
    var fitted := FitDeltas(samples, deltas, default);
    var start := if startTime.Some? then startTime.value else 0;
    CpuProfile(Merged(nodes), samples, fitted, start,
               if endTime.Some? then endTime.value else Saturate(start + SumOf(fitted)))
  }

  function SumOf(ds: seq<int>): int {
    if ds == [] then 0 else SumOf(ds[..|ds| - 1]) + ds[|ds| - 1]
  }

  function ProfileFor(p: Partial, default: int): Option<CpuProfile> {
    if p.chunks == [] then None
    else
      var cs := SortByTs(p.chunks);
      Some(ProfileOf(NodesOf(cs), SamplesOf(cs), DeltasOf(cs), p.startTime, p.endTime, default))
  }

  /** Cutting one stream into time-ordered chunks in any two ways gives the same profile. */
  lemma CuttingIsImmaterial(p: Partial, q: Partial, default: int)
    requires p.chunks != [] && q.chunks != [] && InTimeOrder(p.chunks) && InTimeOrder(q.chunks)
    requires NodesOf(p.chunks) == NodesOf(q.chunks) && SamplesOf(p.chunks) == SamplesOf(q.chunks)
    requires DeltasOf(p.chunks) == DeltasOf(q.chunks) && p.startTime == q.startTime && p.endTime == q.endTime
    ensures ProfileFor(p, default) == ProfileFor(q, default)
  {
    SortedIsFixed(p.chunks, Ts);
    SortedIsFixed(q.chunks, Ts);
  }

  /** Chunks that arrive in another order, keeping the order of those with the same timestamp, give the same profile. */
  lemma ArrivalIsImmaterial(p: Partial, q: Partial, default: int)
    requires forall ts :: At(p.chunks, Ts, ts) == At(q.chunks, Ts, ts)
    requires p.startTime == q.startTime && p.endTime == q.endTime
    ensures ProfileFor(p, default) == ProfileFor(q, default)
  {
    hide At;
    hide ProfileOf;
    SortUnique(p.chunks, q.chunks, Ts);
    SortElements(p.chunks, Ts);
    SortElements(q.chunks, Ts);
  }

  /** Cutting one chunk of a time-ordered stream in two, its nodes, samples and deltas wherever one likes, leaves the
      profile as it is. */
  lemma SplitChunk(p: Partial, before: seq<Chunk>, c: Chunk, after: seq<Chunk>, c1: Chunk, c2: Chunk, default: int)
    requires p.chunks == before + [c] + after && InTimeOrder(before + [c] + after)
    requires InTimeOrder(before + [c1, c2] + after)
    requires c1.nodes + c2.nodes == c.nodes && c1.samples + c2.samples == c.samples
    requires c1.timeDeltas + c2.timeDeltas == c.timeDeltas
    ensures ProfileFor(p, default) == ProfileFor(p.(chunks := before + [c1, c2] + after), default)
  {
    hide NodesOf;
    hide SamplesOf;
    hide DeltasOf;
    hide InTimeOrder;
    hide ProfileFor;
    OneChunk(c);
    OneChunk(c1);
    OneChunk(c2);
    ChunksAdd([c1], [c2]);
    assert [c1] + [c2] == [c1, c2];
    ChunksAdd(before, [c]);
    ChunksAdd(before + [c], after);
    ChunksAdd(before, [c1, c2]);
    ChunksAdd(before + [c1, c2], after);
    CuttingIsImmaterial(p, p.(chunks := before + [c1, c2] + after), default);
  }

  /** What the profile holds besides its nodes: every sample of every chunk in time order, a delta for each, and times
      that are the stream's own, or start at 0 and last as long as the samples. */
  lemma ProfileHolds(p: Partial, default: int)
    requires p.chunks != []
    ensures ProfileFor(p, default).Some?
    ensures var r, cs := ProfileFor(p, default).value, SortByTs(p.chunks);
            && r.samples == SamplesOf(cs) && |r.timeDeltas| == |r.samples|
            && (forall i :: 0 <= i < |r.samples| && i < |DeltasOf(cs)| ==> r.timeDeltas[i] == DeltasOf(cs)[i])
            && r.startTime == (if p.startTime.Some? then p.startTime.value else 0)
            && (p.endTime.Some? ==> r.endTime == p.endTime.value)
            && (p.endTime.None? ==> r.endTime == Saturate(r.startTime + SumOf(r.timeDeltas)))
  {
    hide Merged;
    hide Saturate;
    hide NodesOf;
    hide SamplesOf;
    hide DeltasOf;
    hide SumOf;
  }

  lemma {:induction false} SumOfAdd(a: seq<int>, b: seq<int>)
    ensures SumOf(a + b) == SumOf(a) + SumOf(b)
  {
    if b == [] {
      assert a + b == a;
    } else {
      SumOfAdd(a, b[..|b| - 1]);
      assert (a + b)[..|a + b| - 1] == a + b[..|b| - 1];
    }
  }

  lemma SumOfOne(x: int)
    ensures SumOf([x]) == x
  {
    assert [x][..0] == [];
  }

  lemma MergeAllSnoc(ns: seq<RawNode>, n: RawNode)
    ensures MergeAll(ns + [n]) == MergeOne(MergeAll(ns), n)
  {
    assert (ns + [n])[..|ns|] == ns;
  }

  /** Folds the nodes of one chunk into the tables. */
  method MergeChunk(nodes: seq<RawNode>, order0: seq<int>, byId0: map<int, RawNode>, links0: seq<(int, int)>,
                    ghost done: seq<RawNode>)
    returns (order: seq<int>, byId: map<int, RawNode>, links: seq<(int, int)>)
    requires MergeState(order0, byId0, links0) == MergeAll(done)
    ensures MergeState(order, byId, links) == MergeAll(done + nodes)
  {
    hide MergeAll;
    hide PushAllUnique;
    order, byId, links := order0, byId0, links0;
    assert done + nodes[..0] == done;
    for i := 0 to |nodes|
      invariant MergeState(order, byId, links) == MergeAll(done + nodes[..i])
    {
      var node := nodes[i];
      assert done + nodes[..i + 1] == (done + nodes[..i]) + [node];
      MergeAllSnoc(done + nodes[..i], node);
      if node.parent.Some? {
        links := links + [(node.parent.value, node.id)];
      }
      if node.id !in byId {
        order := order + [node.id];
        byId := byId[node.id := node];
      } else {
        var existing := byId[node.id];
        existing := existing.(children := PushAllUnique(existing.children, node.children));
        if existing.parent.None? {
          existing := existing.(parent := node.parent);
        }
        byId := byId[node.id := existing];
      }
    }
    assert nodes[..|nodes|] == nodes;
  }

  method ApplyLinks(byId0: map<int, RawNode>, links: seq<(int, int)>) returns (byId: map<int, RawNode>)
    ensures byId == Link(byId0, links)
  {
    byId := byId0;
    for i := 0 to |links|
      invariant byId == Link(byId0, links[..i])
    {
      assert links[..i + 1][..i] == links[..i];
      var parent, child := links[i].0, links[i].1;
      if parent in byId {
        byId := byId[parent := byId[parent].(children := PushUnique(byId[parent].children, child))];
      }
    }
    assert links[..|links|] == links;
  }

  /** Moves the nodes out of the table in order of first sight. */
  method DrainNodes(order: seq<int>, byId0: map<int, RawNode>) returns (nodes: seq<CpuNode>)
    requires forall j, k :: 0 <= j < k < |order| ==> order[j] != order[k]
    ensures nodes == NodesInOrder(order, byId0)
  {
    nodes := [];
    var byId := byId0;
    for i := 0 to |order|
      invariant nodes == NodesInOrder(order[..i], byId0)
      invariant forall id :: id in byId <==> id in byId0 && id !in order[..i]
      invariant forall id :: id in byId ==> byId[id] == byId0[id]
    {
      assert order[..i + 1][..i] == order[..i];
      var id := order[i];
      assert forall j :: 0 <= j < i ==> order[..i][j] != id;
      if id in byId {
        var node := byId[id];
        nodes := nodes + [CpuNode(node.id, node.frame, node.children)];
        byId := byId - {id};
      }
    }
    assert order[..|order|] == order;
  }

  /** `into_profile`: the loops, against the function of the concatenated chunks. */
  method IntoProfile(p: Partial, default: int) returns (r: Option<CpuProfile>)
    ensures r == ProfileFor(p, default)
  {
    hide MergeAll;
    hide Link;
    hide NodesInOrder;
    hide FitDeltas;
    var chunks := SortByTs(p.chunks);
    if chunks == [] {
      SortElements(p.chunks, Ts);
      return None;
    }
    SortElements(p.chunks, Ts);
    var order: seq<int>, byId: map<int, RawNode>, links: seq<(int, int)> := [], map[], [];
    var samples, timeDeltas := [], [];
    MergeAllNothing();
    for i := 0 to |chunks|
      invariant MergeState(order, byId, links) == MergeAll(NodesOf(chunks[..i]))
      invariant samples == SamplesOf(chunks[..i]) && timeDeltas == DeltasOf(chunks[..i])
    {
      assert chunks[..i + 1][..i] == chunks[..i];
      order, byId, links := MergeChunk(chunks[i].nodes, order, byId, links, NodesOf(chunks[..i]));
      samples := samples + chunks[i].samples;
      timeDeltas := timeDeltas + chunks[i].timeDeltas;
    }
    assert chunks[..|chunks|] == chunks;
    byId := ApplyLinks(byId, links);
    timeDeltas := FitDeltas(samples, timeDeltas, default);
    OrderIsDistinct(NodesOf(chunks));
    var nodes := DrainNodes(order, byId);
    var durationUs := SumOf(timeDeltas);
    var startTime := if p.startTime.Some? then p.startTime.value else 0;
    var endTime := if p.endTime.Some? then p.endTime.value else Saturate(startTime + durationUs);
    return Some(CpuProfile(nodes, samples, timeDeltas, startTime, endTime));
  }

  lemma MergeAllNothing()
    ensures MergeAll([]) == MergeState([], map[], [])
  {}

  lemma OrderIsDistinct(ns: seq<RawNode>)
    ensures forall j, k :: 0 <= j < k < |MergeAll(ns).order| ==> MergeAll(ns).order[j] != MergeAll(ns).order[k]
  {
    MergeAllMeans(ns);
    OrderDistinct(ns);
  }

  // -------------------------------------------------------- demultiplexing

  datatype RawCpu = RawCpu(nodes: seq<RawNode>, samples: seq<int>, timeDeltas: seq<int>, startTime: Option<int>,
                           endTime: Option<int>)

  datatype EventData = EventData(startTime: Option<int>, endTime: Option<int>, cpu: Option<RawCpu>,
                                 samples: seq<int>, timeDeltas: seq<int>)

  /** A decoded trace event; `key` is made of its pid, tid and id. */
  datatype Event = Event(name: Option<string>, key: string, ts: int, data: Option<EventData>)

  function OrElse(a: Option<int>, b: Option<int>): Option<int> {
    if a.Some? then a else b
  }

  /** What one event adds to its stream. */
  function Ingest(p: Partial, e: Event): Partial {
    if e.data.None? then p
    else
      var d := e.data.value;
      var p1 := Partial(OrElse(p.startTime, d.startTime), OrElse(p.endTime, d.endTime), p.chunks);
      if d.cpu.None? then p1
      else
        var c := d.cpu.value;
        Partial(OrElse(p1.startTime, c.startTime), OrElse(p1.endTime, c.endTime),
                p1.chunks + [Chunk(e.ts, c.nodes, if d.samples == [] then c.samples else d.samples,
                                   if d.timeDeltas == [] then c.timeDeltas else d.timeDeltas)])
  }

  predicate IsProfileEvent(e: Event) {
    e.name == Some("Profile") || e.name == Some("ProfileChunk")
  }

  const EMPTY := Partial(None, None, [])

  /** A stream's own events, in order. */
  function Own(events: seq<Event>, key: string): seq<Event> {
    if events == [] then []
    else
      var e := events[|events| - 1];
      Own(events[..|events| - 1], key) + if IsProfileEvent(e) && e.key == key then [e] else []
  }

  function IngestAll(events: seq<Event>): Partial {
    if events == [] then EMPTY else Ingest(IngestAll(events[..|events| - 1]), events[|events| - 1])
  }

  /** A stream's events are those of its key, in the order of the trace. */
  lemma {:induction false} OwnAdd(a: seq<Event>, b: seq<Event>, key: string)
    ensures Own(a + b, key) == Own(a, key) + Own(b, key)
  {
    if b == [] {
      assert a + b == a;
    } else {
      OwnAdd(a, b[..|b| - 1], key);
      assert (a + b)[..|a + b| - 1] == a + b[..|b| - 1];
    }
  }

  lemma OwnOne(e: Event, key: string)
    ensures Own([e], key) == if e.name in {Some("Profile"), Some("ProfileChunk")} && e.key == key then [e] else []
  {
    assert [e][..0] == [];
    assert Own([e][..0], key) == [];
  }

  /** The times an event names, its own before those of the profile in it. */
  function StartOf(e: Event): Option<int> {
    if e.data.None? then None
    else OrElse(e.data.value.startTime, if e.data.value.cpu.Some? then e.data.value.cpu.value.startTime else None)
  }

  function EndOf(e: Event): Option<int> {
    if e.data.None? then None
    else OrElse(e.data.value.endTime, if e.data.value.cpu.Some? then e.data.value.cpu.value.endTime else None)
  }

  ghost predicate FirstNamed(times: seq<Option<int>>, i: int) {
    0 <= i < |times| && times[i].Some? && forall j :: 0 <= j < i ==> times[j].None?
  }

  function StartsOf(events: seq<Event>): seq<Option<int>> {
    seq(|events|, i requires 0 <= i < |events| => StartOf(events[i]))
  }

  function EndsOf(events: seq<Event>): seq<Option<int>> {
    seq(|events|, i requires 0 <= i < |events| => EndOf(events[i]))
  }

  ghost predicate IsFirst(t: Option<int>, times: seq<Option<int>>) {
    && (t.None? ==> forall i :: 0 <= i < |times| ==> times[i].None?)
    && (t.Some? ==> exists i :: FirstNamed(times, i) && times[i] == t)
  }

  /** The first event that names a start or an end time decides it. */
  lemma {:induction false} FirstTimesWin(events: seq<Event>)
    ensures IsFirst(IngestAll(events).startTime, StartsOf(events))
    ensures IsFirst(IngestAll(events).endTime, EndsOf(events))
  {
    if events != [] {
      var init, e := events[..|events| - 1], events[|events| - 1];
      FirstTimesWin(init);
      assert StartsOf(events) == StartsOf(init) + [StartOf(e)] && EndsOf(events) == EndsOf(init) + [EndOf(e)];
      var p, q := IngestAll(init), IngestAll(events);
      assert q.startTime == OrElse(p.startTime, StartOf(e)) && q.endTime == OrElse(p.endTime, EndOf(e));
      FirstNext(StartsOf(init), StartOf(e), p.startTime);
      FirstNext(EndsOf(init), EndOf(e), p.endTime);
    }
  }

  lemma FirstNext(times: seq<Option<int>>, t: Option<int>, first: Option<int>)
    requires IsFirst(first, times)
    ensures IsFirst(OrElse(first, t), times + [t])
  {
    if first.Some? {
      var i :| FirstNamed(times, i) && times[i] == first;
      assert FirstNamed(times + [t], i);
    } else if t.Some? {
      assert FirstNamed(times + [t], |times|);
    }
  }

  /** Every event that carries a profile adds one chunk at the end: at the event's time, with the profile's nodes, and
      with the event's own samples and deltas where it has any. */
  lemma {:induction false} ChunksOfEvents(a: seq<Event>, b: seq<Event>)
    ensures IngestAll(a + b).chunks == IngestAll(a).chunks + IngestAll(b).chunks
  {
    if b == [] {
      assert a + b == a;
    } else {
      ChunksOfEvents(a, b[..|b| - 1]);
      assert (a + b)[..|a + b| - 1] == a + b[..|b| - 1];
    }
  }

  lemma ChunkOfEvent(e: Event)
    ensures e.data.None? || e.data.value.cpu.None? ==> IngestAll([e]).chunks == []
    ensures e.data.Some? && e.data.value.cpu.Some? ==>
              var d, c := e.data.value, IngestAll([e]).chunks;
              && |c| == 1 && c[0].ts == e.ts && c[0].nodes == d.cpu.value.nodes
              && (d.samples != [] ==> c[0].samples == d.samples)
              && (d.samples == [] ==> c[0].samples == d.cpu.value.samples)
              && (d.timeDeltas != [] ==> c[0].timeDeltas == d.timeDeltas)
              && (d.timeDeltas == [] ==> c[0].timeDeltas == d.cpu.value.timeDeltas)
  {
    assert [e][..0] == [];
    assert IngestAll([e][..0]) == EMPTY;
  }

  lemma OwnSnoc(events: seq<Event>, e: Event, key: string)
    ensures Own(events + [e], key) ==
            if IsProfileEvent(e) && e.key == key then Own(events, key) + [e] else Own(events, key)
    ensures IngestAll(Own(events, key) + [e]) == Ingest(IngestAll(Own(events, key)), e)
  {
    assert (events + [e])[..|events|] == events;
    assert (Own(events, key) + [e])[..|Own(events, key)|] == Own(events, key);
  }

  /** The streams a trace holds: one per key, each made of that key's own events only. */
  ghost predicate Demuxed(streams: map<string, Partial>, events: seq<Event>) {
    forall key ::
      && (key in streams <==> Own(events, key) != [])
      && (key in streams ==> streams[key] == IngestAll(Own(events, key)))
  }

  /** The demultiplexing loop of `extract_cpu_profiles`. */
  method Demultiplex(events: seq<Event>) returns (streams: map<string, Partial>)
    ensures Demuxed(streams, events)
  {
    hide Own;
    hide IngestAll;
    hide Ingest;
    streams := map[];
    NoEvents();
    for i := 0 to |events|
      invariant Demuxed(streams, events[..i])
    {
      var event := events[i];
      assert events[..i + 1] == events[..i] + [event];
      ghost var before := streams;
      if IsProfileEvent(event) {
        if event.key !in streams {
          streams := streams[event.key := EMPTY];
        }
        streams := streams[event.key := Ingest(streams[event.key], event)];
      }
      DemuxStep(before, streams, events[..i], event);
    }
    assert events[..|events|] == events;
  }

  lemma NoEvents()
    ensures Demuxed(map[], [])
  {}

  lemma DemuxStep(before: map<string, Partial>, after: map<string, Partial>, events: seq<Event>, e: Event)
    requires Demuxed(before, events)
    requires after ==
             if IsProfileEvent(e) then before[e.key := Ingest(if e.key in before then before[e.key] else EMPTY, e)]
             else before
    ensures Demuxed(after, events + [e])
  {
    hide Own;
    hide Ingest;
    hide IngestAll;
    forall key
      ensures key in after <==> Own(events + [e], key) != []
      ensures key in after ==> after[key] == IngestAll(Own(events + [e], key))
    {
      OwnSnoc(events, e, key);
      FirstOwn(e);
      if Own(events, key) == [] && IsProfileEvent(e) && key == e.key {
        assert Own(events + [e], key) == [e];
      }
    }
  }

  lemma FirstOwn(e: Event)
    ensures IngestAll([]) == EMPTY && IngestAll([e]) == Ingest(EMPTY, e) && [] + [e] == [e]
  {
    assert [e][..0] == [];
    assert IngestAll([e][..0]) == EMPTY;
  }

  /** The profiles of a trace in the order of their keys, streams without chunks left out. */
  function ProfilesIn(keys: seq<string>, streams: map<string, Partial>, default: int): seq<CpuProfile> {
    if keys == [] then []
    else
      var k := keys[|keys| - 1];
      var p := if k in streams then ProfileFor(streams[k], default) else None;
      ProfilesIn(keys[..|keys| - 1], streams, default) + if p.Some? then [p.value] else []
  }

  lemma {:induction false} ProfilesAdd(a: seq<string>, b: seq<string>, streams: map<string, Partial>, default: int)
    ensures ProfilesIn(a + b, streams, default) == ProfilesIn(a, streams, default) + ProfilesIn(b, streams, default)
  {
    hide ProfileFor;
    if b == [] {
      assert a + b == a;
    } else {
      ProfilesAdd(a, b[..|b| - 1], streams, default);
      assert (a + b)[..|a + b| - 1] == a + b[..|b| - 1];
    }
  }

  lemma ProfilesOne(key: string, streams: map<string, Partial>, default: int)
    requires key in streams
    ensures streams[key].chunks == [] ==> ProfilesIn([key], streams, default) == []
    ensures streams[key].chunks != [] ==>
              ProfilesIn([key], streams, default) == [ProfileFor(streams[key], default).value]
  {
    hide ProfileOf;
    assert [key][..0] == [];
    assert ProfilesIn([key][..0], streams, default) == [];
  }

  /** The profiles of a trace: those of its streams, in the order of their keys. */
  ghost predicate Extracts(events: seq<Event>, default: int, out: seq<CpuProfile>) {
    exists streams, keys :: ExtractsBy(events, default, out, streams, keys)
  }

  ghost predicate ExtractsBy(events: seq<Event>, default: int, out: seq<CpuProfile>, streams: map<string, Partial>,
                             keys: seq<string>) {
    && Demuxed(streams, events) && Ascending(keys) && (forall k :: k in keys <==> k in streams)
    && out == ProfilesIn(keys, streams, default)
  }

  method ExtractCpuProfiles(events: seq<Event>, default: int) returns (out: seq<CpuProfile>)
    ensures Extracts(events, default, out)
  {
    hide ProfileFor;
    hide Demuxed;
    var table := Demultiplex(events);
    var order := SortedKeys(table);
    out := [];
    for i := 0 to |order|
      invariant out == ProfilesIn(order[..i], table, default)
    {
      assert order[..i + 1][..i] == order[..i];
      assert order[i] in order;
      var p := IntoProfile(table[order[i]], default);
      if p.Some? {
        out := out + [p.value];
      }
    }
    assert order[..|order|] == order;
    assert ExtractsBy(events, default, out, table, order);
  }

  /** Interleaving streams of distinct keys in any way extracts the same profiles. */
  lemma InterleavingIsImmaterial(events: seq<Event>, events': seq<Event>, default: int, out: seq<CpuProfile>,
                                 out': seq<CpuProfile>)
    requires forall key :: Own(events, key) == Own(events', key)
    requires Extracts(events, default, out) && Extracts(events', default, out')
    ensures out == out'
  {
    hide Own;
    hide IngestAll;
    hide Ascending;
    hide ProfilesIn;
    var s, ks :| ExtractsBy(events, default, out, s, ks);
    var s', ks' :| ExtractsBy(events', default, out', s', ks');
    assert forall key :: key in s <==> key in s';
    assert s == s';
    AscendingUnique(ks, ks');
  }
}
