/** The rewrite as the profiler performs it: function bodies are instruction
    sequences in an arena, nested by sequence id, and each sequence is drained
    and replaced in place. The ghost `Tree` says which tree an arena holds. */
module SeqArena {
  import opened Wrappers
  import W = Wasm
  import I = Instrumentation

  type SeqId = nat

  datatype ArenaInstr =
    | Do(op: W.Op)
    | Block(bt: W.BlockType, body: SeqId)
    | Loop(bt: W.BlockType, body: SeqId)
    | IfElse(bt: W.BlockType, consequent: SeqId, alternative: SeqId)

  type Arena = map<SeqId, seq<ArenaInstr>>

  datatype Tree = Tree(id: SeqId, nodes: seq<Node>)
  datatype Node =
    | Leaf(op: W.Op)
    | BlockNode(bt: W.BlockType, body: Tree)
    | LoopNode(bt: W.BlockType, body: Tree)
    | IfNode(bt: W.BlockType, consequent: Tree, alternative: Tree)

  /** The arena instruction a tree node stands for. */
  function Flat(n: Node): ArenaInstr {
    match n
    case Leaf(op) => Do(op)
    case BlockNode(bt, body) => Block(bt, body.id)
    case LoopNode(bt, body) => Loop(bt, body.id)
    case IfNode(bt, thn, els) => IfElse(bt, thn.id, els.id)
  }

  function FlatSeq(nodes: seq<Node>): seq<ArenaInstr> {
    seq(|nodes|, i requires 0 <= i < |nodes| => Flat(nodes[i]))
  }

  /** The structured code a tree stands for. */
  function Code(nodes: seq<Node>): seq<W.Instr>
    decreases nodes, 0
  {
    if nodes == [] then [] else [CodeOf(nodes[0])] + Code(nodes[1..])
  }

  function CodeOf(n: Node): W.Instr
    decreases n, 1
  {
    match n
    case Leaf(op) => W.Do(op)
    case BlockNode(bt, body) => W.Block(bt, Code(body.nodes))
    case LoopNode(bt, body) => W.Loop(bt, Code(body.nodes))
    case IfNode(bt, thn, els) => W.IfElse(bt, Code(thn.nodes), Code(els.nodes))
  }

  function Children(n: Node): seq<Tree> {
    match n
    case Leaf(_) => []
    case BlockNode(_, body) => [body]
    case LoopNode(_, body) => [body]
    case IfNode(_, thn, els) => [thn, els]
  }

  /** The arena holds the tree: every sequence in it spells its node's instructions. */
  ghost predicate Holds(arena: Arena, t: Tree)
    decreases t, 0
  {
    t.id in arena && arena[t.id] == FlatSeq(t.nodes) && forall i :: 0 <= i < |t.nodes| ==> HoldsNode(arena, t.nodes[i])
  }

  ghost predicate HoldsNode(arena: Arena, n: Node)
    decreases n, 1
  {
    match n
    case Leaf(_) => true
    case BlockNode(_, body) => Holds(arena, body)
    case LoopNode(_, body) => Holds(arena, body)
    case IfNode(_, thn, els) => Holds(arena, thn) && Holds(arena, els)
  }

  /** The sequence ids of a tree, with multiplicity. */
  ghost function Ids(t: Tree): multiset<SeqId>
    decreases t, 0
  {
    multiset{t.id} + IdsIn(t.nodes)
  }

  ghost function IdsIn(nodes: seq<Node>): multiset<SeqId>
    decreases nodes, 1
  {
    if nodes == [] then multiset{} else IdsIn(nodes[..|nodes| - 1]) + IdsOf(nodes[|nodes| - 1])
  }

  ghost function IdsOf(n: Node): multiset<SeqId>
    decreases n, 2
  {
    match n
    case Leaf(_) => multiset{}
    case BlockNode(_, body) => Ids(body)
    case LoopNode(_, body) => Ids(body)
    case IfNode(_, thn, els) => Ids(thn) + Ids(els)
  }

  ghost function IdsAll(ts: seq<Tree>): multiset<SeqId> {
    if ts == [] then multiset{} else IdsAll(ts[..|ts| - 1]) + Ids(ts[|ts| - 1])
  }

  /** Ids form a tree: no sequence is nested in two places. */
  ghost predicate Unshared(t: Tree) {
    forall id :: Ids(t)[id] <= 1
  }

  // ------------------------------------------------- rewriting one sequence

  function RewriteFlat(p: I.Pass, code: seq<ArenaInstr>): seq<ArenaInstr> {
    if code == [] then []
    else RewriteFlat(p, code[..|code| - 1]) + RewriteOne(p, code[|code| - 1])
  }

  function RewriteOne(p: I.Pass, i: ArenaInstr): seq<ArenaInstr> {
    if i.Do? then seq(|I.Prefix(p, i.op)|, k requires 0 <= k < |I.Prefix(p, i.op)| => Do(I.Prefix(p, i.op)[k])) + [i]
    else [i]
  }

  function SitesFlat(types: seq<W.TypeDef>, code: seq<ArenaInstr>): nat {
    if code == [] then 0
    else SitesFlat(types, code[..|code| - 1]) + SiteCount(types, code[|code| - 1])
  }

  function SiteCount(types: seq<W.TypeDef>, i: ArenaInstr): nat {
    if i.Do? && I.IsSite(types, i.op) then 1 else 0
  }

  ghost function SitesOver(types: seq<W.TypeDef>, arena: Arena, ids: seq<SeqId>): nat
    requires forall id :: id in ids ==> id in arena
  {
    if ids == [] then 0
    else SitesOver(types, arena, ids[..|ids| - 1]) + SitesFlat(types, arena[ids[|ids| - 1]])
  }

  lemma RewriteFlatStep(p: I.Pass, code: seq<ArenaInstr>, k: nat)
    requires k < |code|
    ensures RewriteFlat(p, code[..k + 1]) == RewriteFlat(p, code[..k]) + RewriteOne(p, code[k])
    ensures SitesFlat(p.types, code[..k + 1]) == SitesFlat(p.types, code[..k]) + SiteCount(p.types, code[k])
  {
    assert code[..k + 1][..k] == code[..k];
  }

  /** Drains one sequence into its replacement, instruction by instruction. */
  method RewriteSequence(p: I.Pass, drained: seq<ArenaInstr>) returns (out: seq<ArenaInstr>, count: nat)
    ensures out == RewriteFlat(p, drained) && count == SitesFlat(p.types, drained)
  {
    hide RewriteFlat;
    hide SitesFlat;
    hide I.StructSize;
    out, count := [], 0;
    NothingFlat(p);
    for k := 0 to |drained|
      invariant out == RewriteFlat(p, drained[..k]) && count == SitesFlat(p.types, drained[..k])
    {
      RewriteFlatStep(p, drained, k);
      var instr := drained[k];
      ghost var before := out;
      if instr.Do? && instr.op.Alloc? {
        var staticSize := I.StaticSize(p.types, instr.op.a);
        if staticSize.Some? {
          if staticSize.value > 0 {
            out := out + [Do(W.Const(W.Num(staticSize.value))), Do(W.Call(p.hook))];
          }
          out := out + [instr];
          count := count + 1;
          assert out == before + RewriteOne(p, instr);
          continue;
        }
        var dynElemSize := I.DynElemSize(p.types, instr.op.a);
        if dynElemSize.Some? {
          if dynElemSize.value > 0 {
            out := out + [Do(W.LocalSet(p.scratch)), Do(W.Const(W.Num(dynElemSize.value))), Do(W.LocalGet(p.scratch)),
                          Do(W.I32Mul), Do(W.Call(p.hook)), Do(W.LocalGet(p.scratch))];
          }
          out := out + [instr];
          count := count + 1;
          assert out == before + RewriteOne(p, instr);
          continue;
        }
      }
      out := out + [instr];
      assert out == before + RewriteOne(p, instr);
    }
    assert drained[..|drained|] == drained;
  }

  lemma NothingFlat(p: I.Pass)
    ensures RewriteFlat(p, []) == [] && SitesFlat(p.types, []) == 0
  {}

  // --------------------------------------------------- the worklist's order

  ghost function ChildrenIn(nodes: seq<Node>): seq<Tree> {
    if nodes == [] then [] else ChildrenIn(nodes[..|nodes| - 1]) + Children(nodes[|nodes| - 1])
  }

  ghost function SitesAll(types: seq<W.TypeDef>, ts: seq<Tree>): nat {
    if ts == [] then 0 else SitesAll(types, ts[..|ts| - 1]) + I.Sites(types, Code(ts[|ts| - 1].nodes))
  }

  lemma {:induction false} AllAppend(types: seq<W.TypeDef>, a: seq<Tree>, b: seq<Tree>)
    ensures IdsAll(a + b) == IdsAll(a) + IdsAll(b)
    ensures SitesAll(types, a + b) == SitesAll(types, a) + SitesAll(types, b)
  {
    if b == [] {
      assert a + b == a;
    } else {
      assert (a + b)[..|a + b| - 1] == a + b[..|b| - 1];
      AllAppend(types, a, b[..|b| - 1]);
    }
  }

  lemma AllSingle(types: seq<W.TypeDef>, t: Tree)
    ensures IdsAll([t]) == Ids(t) && SitesAll(types, [t]) == I.Sites(types, Code(t.nodes))
  {
    assert [t][..0] == [];
  }

  lemma AllOf(types: seq<W.TypeDef>, n: Node)
    ensures IdsAll(Children(n)) == IdsOf(n)
    ensures SitesAll(types, Children(n)) + SiteCount(types, Flat(n)) == I.SitesIn(types, CodeOf(n))
  {
    hide I.IsSite;
    hide Code;
    hide I.Sites;
    hide Ids;
    match n
    case Leaf(_) =>
    case BlockNode(_, body) => AllSingle(types, body);
    case LoopNode(_, body) => AllSingle(types, body);
    case IfNode(_, thn, els) =>
      AllSingle(types, thn);
      AllSingle(types, els);
      assert [thn, els] == [thn] + [els];
      AllAppend(types, [thn], [els]);
  }

  lemma {:induction false} CodeSnoc(nodes: seq<Node>, n: Node)
    ensures Code(nodes + [n]) == Code(nodes) + [CodeOf(n)]
  {
    if nodes != [] {
      assert (nodes + [n])[1..] == nodes[1..] + [n];
      CodeSnoc(nodes[1..], n);
    }
  }

  lemma {:induction false} SitesSnoc(types: seq<W.TypeDef>, code: seq<W.Instr>, i: W.Instr)
    ensures I.Sites(types, code + [i]) == I.Sites(types, code) + I.SitesIn(types, i)
  {
    if code != [] {
      assert (code + [i])[1..] == code[1..] + [i];
      SitesSnoc(types, code[1..], i);
    }
  }

  /** A sequence's own instructions and the sequences nested in it account for the whole tree. */
  lemma {:induction false} AllIn(types: seq<W.TypeDef>, nodes: seq<Node>)
    ensures IdsAll(ChildrenIn(nodes)) == IdsIn(nodes)
    ensures SitesAll(types, ChildrenIn(nodes)) + SitesFlat(types, FlatSeq(nodes)) == I.Sites(types, Code(nodes))
  {
    if nodes != [] {
      var init, n := nodes[..|nodes| - 1], nodes[|nodes| - 1];
      assert nodes == init + [n];
      AllIn(types, init);
      AllAppend(types, ChildrenIn(init), Children(n));
      AllOf(types, n);
      CodeSnoc(init, n);
      SitesSnoc(types, Code(init), CodeOf(n));
      assert FlatSeq(nodes)[..|nodes| - 1] == FlatSeq(init);
    }
  }

  /** What the walk pushes for one instruction. */
  function Nested(i: ArenaInstr): seq<SeqId> {
    match i
    case Do(_) => []
    case Block(_, body) => [body]
    case Loop(_, body) => [body]
    case IfElse(_, consequent, alternative) => [consequent, alternative]
  }

  /** The stack of ids, and the trees still to be walked from them. */
  ghost predicate Awaits(arena: Arena, stack: seq<SeqId>, pending: seq<Tree>) {
    |stack| == |pending| && forall k :: 0 <= k < |stack| ==> stack[k] == pending[k].id && Holds(arena, pending[k])
  }

  lemma PushChildren(arena: Arena, t: Tree, i: nat, stack: seq<SeqId>, pending: seq<Tree>)
    requires Holds(arena, t) && i < |t.nodes| && Awaits(arena, stack, pending)
    ensures Awaits(arena, stack + Nested(Flat(t.nodes[i])), pending + Children(t.nodes[i]))
  {}

  /** The walk's invariant: what was visited and what awaits a visit make up the tree. */
  ghost predicate Walked(types: seq<W.TypeDef>, arena: Arena, root: Tree, out: seq<SeqId>, pending: seq<Tree>) {
    && multiset(out) + IdsAll(pending) == Ids(root)
    && (forall id :: id in out ==> id in arena)
    && SitesOver(types, arena, out) + SitesAll(types, pending) == I.Sites(types, Code(root.nodes))
  }

  lemma WalkStart(types: seq<W.TypeDef>, arena: Arena, root: Tree)
    ensures Walked(types, arena, root, [], [root])
  {
    AllSingle(types, root);
  }

  lemma WalkEnd(types: seq<W.TypeDef>, arena: Arena, root: Tree, out: seq<SeqId>)
    requires Walked(types, arena, root, out, [])
    ensures multiset(out) == Ids(root) && SitesOver(types, arena, out) == I.Sites(types, Code(root.nodes))
  {}

  lemma WalkOne(types: seq<W.TypeDef>, arena: Arena, root: Tree, out: seq<SeqId>, rest: seq<Tree>, t: Tree)
    requires Holds(arena, t) && Walked(types, arena, root, out, rest + [t])
    ensures Walked(types, arena, root, out + [t.id], rest + ChildrenIn(t.nodes))
    ensures |out| < |Ids(root)|
  {
    AllAppend(types, rest, [t]);
    AllSingle(types, t);
    AllAppend(types, rest, ChildrenIn(t.nodes));
    AllIn(types, t.nodes);
    assert (out + [t.id])[..|out|] == out;
    assert multiset(out + [t.id]) == multiset(out) + multiset{t.id};
    assert Ids(root) == multiset(out) + multiset{t.id} + IdsAll(rest + ChildrenIn(t.nodes));
  }

  /** Pushes the sequences nested directly in one sequence. */
  method PushNested(arena: Arena, id: SeqId, stack0: seq<SeqId>, ghost t: Tree, ghost pending: seq<Tree>)
    returns (stack: seq<SeqId>)
    requires Holds(arena, t) && t.id == id && Awaits(arena, stack0, pending)
    ensures Awaits(arena, stack, pending + ChildrenIn(t.nodes))
  {
    stack := stack0;
    var block := arena[id];
    assert pending + ChildrenIn(t.nodes[..0]) == pending;
    for k := 0 to |block|
      invariant Awaits(arena, stack, pending + ChildrenIn(t.nodes[..k]))
    {
      assert t.nodes[..k + 1][..k] == t.nodes[..k];
      PushChildren(arena, t, k, stack, pending + ChildrenIn(t.nodes[..k]));
      assert pending + ChildrenIn(t.nodes[..k + 1]) == pending + ChildrenIn(t.nodes[..k]) + Children(t.nodes[k]);
      ghost var before := stack;
      match block[k] {
        case Do(_) =>
        case Block(_, body) => stack := stack + [body];
        case Loop(_, body) => stack := stack + [body];
        case IfElse(_, consequent, alternative) =>
          stack := stack + [consequent];
          stack := stack + [alternative];
      }
      assert stack == before + Nested(block[k]);
    }
    assert t.nodes[..|block|] == t.nodes;
  }

  /** Gathers every sequence reachable from the entry through block, loop and if: each exactly as often as it
      is nested, so once each when nesting forms a tree. Terminates because the arena holds a (finite) tree. */
  method CollectSeqIds(arena: Arena, entry: SeqId, ghost root: Tree, ghost types: seq<W.TypeDef>)
    returns (out: seq<SeqId>)
    requires Holds(arena, root) && root.id == entry
    ensures multiset(out) == Ids(root)
    ensures forall id :: id in out ==> id in arena
    ensures SitesOver(types, arena, out) == I.Sites(types, Code(root.nodes))
  {
    hide Holds;
    hide IdsAll;
    hide SitesOver;
    hide SitesAll;
    hide I.Sites;
    hide Code;
    out := [];
    var stack := [entry];
    ghost var pending := [root];
    WalkStart(types, arena, root);
    while stack != []
      invariant Awaits(arena, stack, pending)
      invariant Walked(types, arena, root, out, pending)
      decreases |Ids(root)| - |out|
    {
      var id := stack[|stack| - 1];
      ghost var t, rest := pending[|pending| - 1], pending[..|pending| - 1];
      assert pending == rest + [t];
      WalkOne(types, arena, root, out, rest, t);
      stack := stack[..|stack| - 1];
      out := out + [id];
      stack := PushNested(arena, id, stack, t, rest);
      pending := rest + ChildrenIn(t.nodes);
    }
    WalkEnd(types, arena, root, out);
  }

  // --------------------------------------------------- rewriting every tree

  function RewriteTree(p: I.Pass, t: Tree): Tree
    decreases t, 0
  {
    Tree(t.id, RewriteNodes(p, t.nodes))
  }

  function RewriteNodes(p: I.Pass, nodes: seq<Node>): seq<Node>
    decreases nodes, 1
  {
    if nodes == [] then [] else RewriteNodes(p, nodes[..|nodes| - 1]) + RewriteNode(p, nodes[|nodes| - 1])
  }

  function Leaves(ops: seq<W.Op>): seq<Node> {
    seq(|ops|, k requires 0 <= k < |ops| => Leaf(ops[k]))
  }

  function RewriteNode(p: I.Pass, n: Node): seq<Node>
    decreases n, 2
  {
    match n
    case Leaf(op) => Leaves(I.Prefix(p, op)) + [n]
    case BlockNode(bt, body) => [BlockNode(bt, RewriteTree(p, body))]
    case LoopNode(bt, body) => [LoopNode(bt, RewriteTree(p, body))]
    case IfNode(bt, thn, els) => [IfNode(bt, RewriteTree(p, thn), RewriteTree(p, els))]
  }

  lemma {:induction false} RewriteSeqSnoc(p: I.Pass, code: seq<W.Instr>, i: W.Instr)
    ensures I.RewriteSeq(p, code + [i]) == I.RewriteSeq(p, code) + I.Rewrite(p, i)
  {
    if code != [] {
      assert (code + [i])[1..] == code[1..] + [i];
      RewriteSeqSnoc(p, code[1..], i);
    }
  }

  lemma {:induction false} CodeAppend(a: seq<Node>, b: seq<Node>)
    ensures Code(a + b) == Code(a) + Code(b)
  {
    if a == [] {
      assert a + b == b;
    } else {
      assert (a + b)[1..] == a[1..] + b;
      CodeAppend(a[1..], b);
    }
  }

  lemma {:induction false} CodeLeaves(ops: seq<W.Op>)
    ensures Code(Leaves(ops)) == I.Straight(ops)
  {
    if ops != [] {
      assert Leaves(ops)[1..] == Leaves(ops[1..]);
      CodeLeaves(ops[1..]);
      assert I.Straight(ops) == [W.Do(ops[0])] + I.Straight(ops[1..]);
    }
  }

  lemma CodeSingle(n: Node)
    ensures Code([n]) == [CodeOf(n)]
  {}

  /** The rewritten tree stands for the rewritten code. */
  lemma {:induction false} RewriteNodesCode(p: I.Pass, nodes: seq<Node>)
    ensures Code(RewriteNodes(p, nodes)) == I.RewriteSeq(p, Code(nodes))
    decreases nodes, 0
  {
    if nodes != [] {
      var init, n := nodes[..|nodes| - 1], nodes[|nodes| - 1];
      assert nodes == init + [n];
      RewriteNodesCode(p, init);
      RewriteNodeCode(p, n);
      CodeAppend(RewriteNodes(p, init), RewriteNode(p, n));
      CodeSnoc(init, n);
      RewriteSeqSnoc(p, Code(init), CodeOf(n));
    }
  }

  lemma {:induction false} RewriteNodeCode(p: I.Pass, n: Node)
    ensures Code(RewriteNode(p, n)) == I.Rewrite(p, CodeOf(n))
    decreases n, 1
  {
    match n
    case Leaf(op) =>
      CodeAppend(Leaves(I.Prefix(p, op)), [n]);
      CodeLeaves(I.Prefix(p, op));
      CodeSingle(n);
    case BlockNode(bt, body) =>
      RewriteNodesCode(p, body.nodes);
      CodeSingle(BlockNode(bt, RewriteTree(p, body)));
    case LoopNode(bt, body) =>
      RewriteNodesCode(p, body.nodes);
      CodeSingle(LoopNode(bt, RewriteTree(p, body)));
    case IfNode(bt, thn, els) =>
      RewriteNodesCode(p, thn.nodes);
      RewriteNodesCode(p, els.nodes);
      CodeSingle(IfNode(bt, RewriteTree(p, thn), RewriteTree(p, els)));
  }

  lemma {:induction false} IdsInAppend(a: seq<Node>, b: seq<Node>)
    ensures IdsIn(a + b) == IdsIn(a) + IdsIn(b)
  {
    if b == [] {
      assert a + b == a;
    } else {
      assert (a + b)[..|a + b| - 1] == a + b[..|b| - 1];
      IdsInAppend(a, b[..|b| - 1]);
    }
  }

  lemma {:induction false} IdsOfLeaves(ops: seq<W.Op>)
    ensures IdsIn(Leaves(ops)) == multiset{}
  {
    if ops != [] {
      assert Leaves(ops)[..|ops| - 1] == Leaves(ops[..|ops| - 1]);
      IdsOfLeaves(ops[..|ops| - 1]);
    }
  }

  lemma {:induction false} RewriteKeepsIds(p: I.Pass, nodes: seq<Node>)
    ensures IdsIn(RewriteNodes(p, nodes)) == IdsIn(nodes)
    decreases nodes, 0
  {
    if nodes != [] {
      RewriteKeepsIds(p, nodes[..|nodes| - 1]);
      RewriteKeepsIdsOf(p, nodes[|nodes| - 1]);
      IdsInAppend(RewriteNodes(p, nodes[..|nodes| - 1]), RewriteNode(p, nodes[|nodes| - 1]));
    }
  }

  lemma {:induction false} RewriteKeepsIdsOf(p: I.Pass, n: Node)
    ensures IdsIn(RewriteNode(p, n)) == IdsOf(n)
    decreases n, 1
  {
    hide IdsIn;
    hide RewriteNodes;
    hide Leaves;
    hide I.Prefix;
    match n
    case Leaf(op) =>
      IdsInAppend(Leaves(I.Prefix(p, op)), [n]);
      IdsOfLeaves(I.Prefix(p, op));
      IdsInSingle(n);
    case BlockNode(bt, body) =>
      RewriteKeepsIds(p, body.nodes);
      IdsInSingle(BlockNode(bt, RewriteTree(p, body)));
    case LoopNode(bt, body) =>
      RewriteKeepsIds(p, body.nodes);
      IdsInSingle(LoopNode(bt, RewriteTree(p, body)));
    case IfNode(bt, thn, els) =>
      RewriteKeepsIds(p, thn.nodes);
      RewriteKeepsIds(p, els.nodes);
      IdsInSingle(IfNode(bt, RewriteTree(p, thn), RewriteTree(p, els)));
  }

  lemma IdsInSingle(n: Node)
    ensures IdsIn([n]) == IdsOf(n)
  {
    assert [n][..0] == [];
  }

  lemma RewriteNodeFlat(p: I.Pass, n: Node)
    ensures FlatSeq(RewriteNode(p, n)) == RewriteOne(p, Flat(n))
  {}

  lemma FlatAppend(a: seq<Node>, b: seq<Node>)
    ensures FlatSeq(a + b) == FlatSeq(a) + FlatSeq(b)
  {}

  lemma {:induction false} RewriteNodesFlat(p: I.Pass, nodes: seq<Node>)
    ensures FlatSeq(RewriteNodes(p, nodes)) == RewriteFlat(p, FlatSeq(nodes))
  {
    if nodes != [] {
      var init, n := nodes[..|nodes| - 1], nodes[|nodes| - 1];
      RewriteNodesFlat(p, init);
      RewriteNodeFlat(p, n);
      FlatAppend(RewriteNodes(p, init), RewriteNode(p, n));
      assert FlatSeq(nodes)[..|nodes| - 1] == FlatSeq(init);
    }
  }

  /** Replacing every sequence of a tree, each on its own, leaves the arena holding the rewritten tree. */
  lemma {:induction false} RewriteHolds(p: I.Pass, arena: Arena, arena': Arena, t: Tree)
    requires Holds(arena, t)
    requires forall id :: id in Ids(t) ==> id in arena && id in arena' && arena'[id] == RewriteFlat(p, arena[id])
    ensures Holds(arena', RewriteTree(p, t))
    decreases t, 0
  {
    RewriteNodesFlat(p, t.nodes);
    RewriteHoldsNodes(p, arena, arena', t.nodes);
  }

  lemma {:induction false} RewriteHoldsNodes(p: I.Pass, arena: Arena, arena': Arena, nodes: seq<Node>)
    requires forall i :: 0 <= i < |nodes| ==> HoldsNode(arena, nodes[i])
    requires forall id :: id in IdsIn(nodes) ==> id in arena && id in arena' && arena'[id] == RewriteFlat(p, arena[id])
    ensures forall n :: n in RewriteNodes(p, nodes) ==> HoldsNode(arena', n)
    decreases nodes, 1
  {
    if nodes != [] {
      RewriteHoldsNodes(p, arena, arena', nodes[..|nodes| - 1]);
      assert IdsIn(nodes) == IdsIn(nodes[..|nodes| - 1]) + IdsOf(nodes[|nodes| - 1]);
      RewriteHoldsNode(p, arena, arena', nodes[|nodes| - 1]);
    }
  }

  lemma {:induction false} RewriteHoldsNode(p: I.Pass, arena: Arena, arena': Arena, n: Node)
    requires HoldsNode(arena, n)
    requires forall id :: id in IdsOf(n) ==> id in arena && id in arena' && arena'[id] == RewriteFlat(p, arena[id])
    ensures forall n' :: n' in RewriteNode(p, n) ==> HoldsNode(arena', n')
    decreases n, 2
  {
    hide RewriteFlat;
    hide RewriteTree;
    hide Holds;
    hide Ids;
    hide Leaves;
    hide I.Prefix;
    match n
    case Leaf(op) => LeavesHold(p, arena', op);
    case BlockNode(_, body) => RewriteHolds(p, arena, arena', body);
    case LoopNode(_, body) => RewriteHolds(p, arena, arena', body);
    case IfNode(_, thn, els) =>
      RewriteHolds(p, arena, arena', thn);
      RewriteHolds(p, arena, arena', els);
  }

  lemma LeavesHold(p: I.Pass, arena: Arena, op: W.Op)
    ensures forall n' :: n' in RewriteNode(p, Leaf(op)) ==> HoldsNode(arena, n')
  {
    hide I.Prefix;
  }
}
