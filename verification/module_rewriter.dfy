/** The profiler's in-place rewrite of a whole module, proved to refine
    `Instrumentation.InstrumentModule`. */
module ModuleRewriter {
  import opened Wrappers
  import opened SeqArena
  import W = Wasm
  import I = Instrumentation

  datatype FunctionKind =
    | LocalFunction(name: Option<string>, params: seq<W.Param>, results: nat, entry: SeqId, blocks: Arena)
    | ImportFunction(name: Option<string>, arity: nat)
    | HookImport

  /** The function's arena holds the tree, and nothing in it is shared. */
  ghost predicate HoldsFunc(f: FunctionKind, t: Tree) {
    f.LocalFunction? ==> t.id == f.entry && Holds(f.blocks, t) && Unshared(t)
  }

  ghost function DecodeFunc(f: FunctionKind, t: Tree): W.Func {
    match f
    case LocalFunction(name, params, results, _, _) => W.Local(name, params, results, Code(t.nodes))
    case ImportFunction(name, arity) => W.Host(name, arity)
    case HookImport => W.Hook
  }

  ghost function DecodeFuncs(funcs: seq<FunctionKind>, trees: seq<Tree>): (fs: seq<W.Func>)
    requires |trees| == |funcs|
    ensures |fs| == |funcs|
  {
    seq(|funcs|, i requires 0 <= i < |funcs| => DecodeFunc(funcs[i], trees[i]))
  }

  ghost predicate HoldsAll(funcs: seq<FunctionKind>, trees: seq<Tree>) {
    |trees| == |funcs| && forall i :: 0 <= i < |funcs| ==> HoldsFunc(funcs[i], trees[i])
  }

  datatype Report = Report(mallocWrapped: bool, gcAllocSites: nat)

  /** Allocation sites in the local functions before `i`. */
  ghost function TotalSites(types: seq<W.TypeDef>, funcs: seq<W.Func>, i: nat): nat
    requires i <= |funcs|
  {
    if i == 0 then 0
    else TotalSites(types, funcs, i - 1) + if funcs[i - 1].Local? then I.Sites(types, funcs[i - 1].body) else 0
  }

  class WasmModule {
    const types: seq<W.TypeDef>
    var localTypes: seq<W.ValType>
    var funcs: seq<FunctionKind>

    constructor (types: seq<W.TypeDef>, localTypes: seq<W.ValType>, funcs: seq<FunctionKind>)
      ensures this.types == types && this.localTypes == localTypes && this.funcs == funcs
    {
      this.types, this.localTypes, this.funcs := types, localTypes, funcs;
    }

    /** The module on trees that this one is, given the trees its arenas hold. */
    ghost function Decoded(trees: seq<Tree>, engine: W.Engine): W.Module
      reads this
      requires |trees| == |funcs|
    {
      W.Module(types, localTypes, DecodeFuncs(funcs, trees), engine)
    }

    /** Rewrites one function: each reachable sequence is drained and replaced, once. Only the sequences of its
        tree change, and the arena then holds the rewritten tree. */
    method InstrumentGcAllocsInFunc(fid: W.FuncId, hookFn: W.FuncId, ghost t: Tree) returns (count: nat)
      requires fid < |funcs| && funcs[fid].LocalFunction? && HoldsFunc(funcs[fid], t)
      modifies this
      ensures localTypes == old(localTypes) + [W.I32]
      ensures var p := I.Pass(types, hookFn, |old(localTypes)|);
              |funcs| == |old(funcs)| && funcs[fid].LocalFunction?
              && funcs == old(funcs)[fid := old(funcs[fid]).(blocks := funcs[fid].blocks)]
              && HoldsFunc(funcs[fid], RewriteTree(p, t))
      ensures funcs[fid].blocks.Keys == old(funcs[fid]).blocks.Keys
      ensures forall id :: id in funcs[fid].blocks && id !in Ids(t) ==>
                funcs[fid].blocks[id] == old(funcs[fid]).blocks[id]
      ensures count == I.Sites(types, Code(t.nodes))
    {
      ghost var arena := funcs[fid].blocks;
      var seqIds := CollectSeqIds(funcs[fid].blocks, funcs[fid].entry, t, types);
      var scratch := |localTypes|;
      localTypes := localTypes + [W.I32];
      count := ReplaceSequences(fid, seqIds, I.Pass(types, hookFn, scratch), t);
      assert seqIds[..|seqIds|] == seqIds;
      ReplacedHolds(I.Pass(types, hookFn, scratch), arena, funcs[fid].blocks, t, seqIds);
    }

    /** The rewriting loop over the gathered ids. */
    method ReplaceSequences(fid: W.FuncId, seqIds: seq<SeqId>, p: I.Pass, ghost t: Tree) returns (count: nat)
      requires fid < |funcs| && funcs[fid].LocalFunction? && Unshared(t) && multiset(seqIds) == Ids(t)
      requires forall id :: id in seqIds ==> id in funcs[fid].blocks
      modifies this`funcs
      ensures OnlyBlocks(old(funcs), funcs, fid)
      ensures Replaced(p, old(funcs[fid].blocks), funcs[fid].blocks, seqIds)
      ensures SitesSoFar(p.types, old(funcs[fid].blocks), seqIds, |seqIds|, count)
    {
      hide SitesSoFar;
      hide Replaced;
      hide RewriteFlat;
      hide SitesFlat;
      ghost var arena := funcs[fid].blocks;
      count := 0;
      ReplacedNone(p, arena, seqIds);
      for k := 0 to |seqIds|
        invariant OnlyBlocks(old(funcs), funcs, fid)
        invariant Replaced(p, arena, funcs[fid].blocks, seqIds[..k])
        invariant SitesSoFar(p.types, arena, seqIds, k, count)
      {
        var seqId := seqIds[k];
        ReplacedStep(p, arena, funcs[fid].blocks, t, seqIds, k, count);
        var out, n := RewriteSequence(p, funcs[fid].blocks[seqId]);
        funcs := funcs[fid := funcs[fid].(blocks := funcs[fid].blocks[seqId := out])];
        count := count + n;
      }
      assert seqIds[..|seqIds|] == seqIds;
    }

    /** Prepends the hook call to `moonbit.malloc`'s entry sequence. */
    method WrapMoonbitMalloc(target: W.FuncId, hookFn: W.FuncId, ghost t: Tree) returns (ghost t': Tree)
      requires target < |funcs| && funcs[target].LocalFunction? && |funcs[target].params| > 0
      requires HoldsFunc(funcs[target], t)
      modifies this`funcs
      ensures |funcs| == |old(funcs)| && funcs[target].LocalFunction?
      ensures funcs == old(funcs)[target := old(funcs[target]).(blocks := funcs[target].blocks)]
      ensures HoldsFunc(funcs[target], t')
      ensures Code(t'.nodes) == I.Wrapped(hookFn, funcs[target].params[0].id, Code(t.nodes))
    {
      var local := funcs[target];
      var sizeArg := local.params[0].id;
      var original := local.blocks[local.entry];
      var instrs := [Do(W.LocalGet(sizeArg))];
      instrs := instrs + [Do(W.Call(hookFn))];
      instrs := instrs + original;
      assert instrs == [Do(W.LocalGet(sizeArg)), Do(W.Call(hookFn))] + original;
      funcs := funcs[target := local.(blocks := local.blocks[local.entry := instrs])];
      t' := WrappedTree(t, sizeArg, hookFn);
      WrapHolds(local.blocks, funcs[target].blocks, t, sizeArg, hookFn);
    }

    /** Rewrites every local function, each with a scratch local of its own. */
    method InstrumentGcAllocs(hookFn: W.FuncId, ghost trees: seq<Tree>) returns (total: nat, ghost trees': seq<Tree>)
      requires HoldsAll(funcs, trees)
      modifies this
      ensures RewrittenUpTo(types, hookFn, |old(localTypes)|, old(funcs), funcs, trees, trees', |old(funcs)|)
      ensures localTypes == old(localTypes) + seq(LocalCount(old(funcs), |old(funcs)|), _ => W.I32)
      ensures total == TotalSites(types, DecodeFuncs(old(funcs), trees), |old(funcs)|)
    {
      hide RewrittenUpTo;
      hide TotalSites;
      hide DecodeFuncs;
      hide HoldsFunc;
      hide HoldsAll;
      hide LocalCount;
      hide Code;
      hide RewriteTree;
      hide Ids;
      total, trees' := 0, trees;
      NothingRewritten(types, hookFn, |localTypes|, funcs, trees);
      assert localTypes == localTypes + seq(0, _ => W.I32);
      for i := 0 to |funcs|
        invariant |funcs| == |old(funcs)|
        invariant RewrittenUpTo(types, hookFn, |old(localTypes)|, old(funcs), funcs, trees, trees', i)
        invariant localTypes == old(localTypes) + seq(LocalCount(old(funcs), i), _ => W.I32)
        invariant total == TotalSites(types, DecodeFuncs(old(funcs), trees), i)
      {
        ghost var mid, midTrees, n0 := funcs, trees', LocalCount(old(funcs), i);
        NextFunction(types, hookFn, |old(localTypes)|, old(funcs), funcs, trees, trees', i);
        if funcs[i].LocalFunction? {
          var n := InstrumentGcAllocsInFunc(i, hookFn, trees[i]);
          total := total + n;
          trees' := RewrittenStep(types, hookFn, |old(localTypes)|, old(funcs), mid, funcs, trees, midTrees, i);
          assert seq(n0, _ => W.I32) + [W.I32] == seq(n0 + 1, _ => W.I32);
        }
      }
    }

    /** The first function of that name. */
    method FindFuncByName(name: string) returns (r: Option<W.FuncId>)
      ensures r.Some? ==> r.value < |funcs| && HasName(funcs[r.value], name)
                          && forall i :: 0 <= i < r.value ==> !HasName(funcs[i], name)
      ensures r.None? ==> forall i :: 0 <= i < |funcs| ==> !HasName(funcs[i], name)
    {
      for i := 0 to |funcs|
        invariant forall j :: 0 <= j < i ==> !HasName(funcs[j], name)
      {
        if HasName(funcs[i], name) {
          return Some(i);
        }
      }
      return None;
    }

    /** The whole rewrite: import the hook, wrap `moonbit.malloc`, then rewrite every allocation site. What the
        arenas then hold is `InstrumentModule` of what they held; a module with nothing to rewrite is refused. */
    method Instrument(ghost trees: seq<Tree>, ghost engine: W.Engine)
      returns (r: Result<Report, string>, ghost trees': seq<Tree>)
      requires HoldsAll(funcs, trees) && I.SourceModule(Decoded(trees, engine))
      modifies this
      ensures HoldsAll(funcs, trees')
      ensures Decoded(trees', engine) == I.InstrumentModule(old(Decoded(trees, engine)))
      ensures var m := old(Decoded(trees, engine));
              var malloc, sites := I.FindMalloc(m.funcs).Some?, TotalSites(m.types, m.funcs, |m.funcs|);
              if malloc || sites > 0 then r == Ok(Report(malloc, sites)) else r.Err?
    {
      ghost var m := Decoded(trees, engine);
      var hookFn := |funcs|;
      funcs := funcs + [HookImport];
      trees' := trees + [Tree(0, [])];
      var report := Report(false, 0);
      var malloc := FindFuncByName(I.MALLOC);
      FoundMalloc(m, funcs, trees', malloc);
      if malloc.Some? {
        ghost var before := funcs;
        ghost var t := WrapMoonbitMalloc(malloc.value, hookFn, trees'[malloc.value]);
        trees' := trees'[malloc.value := t];
        report := report.(mallocWrapped := true);
      }
      ghost var wrapped, wrappedTrees := funcs, trees';
      assert DecodeFuncs(wrapped, wrappedTrees) == WrappedFuncs(m) + [W.Hook];
      var sites;
      sites, trees' := InstrumentGcAllocs(hookFn, trees');
      report := report.(gcAllocSites := sites);
      RewriteRefines(m, wrapped, funcs, wrappedTrees, trees', engine);
      assert Decoded(trees', engine).localTypes == I.InstrumentModule(m).localTypes;
      assert Decoded(trees', engine) == I.InstrumentModule(m);
      if !report.mallocWrapped && report.gcAllocSites == 0 {
        r := Err("no instrumentation sites found in this wasm");
      } else {
        r := Ok(report);
      }
    }
  }

  ghost function WrappedTree(t: Tree, sizeArg: W.LocalId, hookFn: W.FuncId): Tree {
    Tree(t.id, [Leaf(W.LocalGet(sizeArg)), Leaf(W.Call(hookFn))] + t.nodes)
  }

  predicate HasName(f: FunctionKind, name: string) {
    !f.HookImport? && f.name == Some(name)
  }

  ghost function LocalCount(funcs: seq<FunctionKind>, i: nat): nat
    requires i <= |funcs|
  {
    if i == 0 then 0 else LocalCount(funcs, i - 1) + if funcs[i - 1].LocalFunction? then 1 else 0
  }

  /** The first `n` functions rewritten, each with its own pass; the rest as they were. */
  ghost predicate RewrittenUpTo(types: seq<W.TypeDef>, hookFn: W.FuncId, locals: nat,
                                before: seq<FunctionKind>, after: seq<FunctionKind>,
                                trees: seq<Tree>, trees': seq<Tree>, n: nat)
    requires n <= |before|
  {
    && |after| == |before| == |trees| == |trees'|
    && HoldsAll(after, trees')
    && forall i :: 0 <= i < |before| ==>
      if i < n && before[i].LocalFunction? then
        && after[i].LocalFunction? && after[i] == before[i].(blocks := after[i].blocks)
        && trees'[i] == RewriteTree(I.Pass(types, hookFn, locals + LocalCount(before, i)), trees[i])
      else after[i] == before[i] && trees'[i] == trees[i]
  }

  lemma NothingRewritten(types: seq<W.TypeDef>, hookFn: W.FuncId, locals: nat, funcs: seq<FunctionKind>,
                         trees: seq<Tree>)
    requires HoldsAll(funcs, trees)
    ensures RewrittenUpTo(types, hookFn, locals, funcs, funcs, trees, trees, 0) && |trees| == |funcs|
    ensures LocalCount(funcs, 0) == 0 && TotalSites(types, DecodeFuncs(funcs, trees), 0) == 0
  {}

  /** Function `i` still to be rewritten: unchanged so far, and what it adds to the counts. */
  lemma NextFunction(types: seq<W.TypeDef>, hookFn: W.FuncId, locals: nat, before: seq<FunctionKind>,
                     mid: seq<FunctionKind>, trees: seq<Tree>, mids: seq<Tree>, i: nat)
    requires i < |before| && RewrittenUpTo(types, hookFn, locals, before, mid, trees, mids, i)
    ensures |trees| == |before| == |mid| && mid[i] == before[i] && HoldsFunc(mid[i], trees[i])
    ensures LocalCount(before, i + 1) == LocalCount(before, i) + if mid[i].LocalFunction? then 1 else 0
    ensures var fs := DecodeFuncs(before, trees);
            TotalSites(types, fs, i + 1) ==
            TotalSites(types, fs, i) + if mid[i].LocalFunction? then I.Sites(types, Code(trees[i].nodes)) else 0
    ensures !mid[i].LocalFunction? ==> RewrittenUpTo(types, hookFn, locals, before, mid, trees, mids, i + 1)
  {
    hide HoldsFunc;
    hide Code;
    hide I.Sites;
  }

  /** Rewriting function `i` extends the rewritten part by one. */
  lemma RewrittenStep(types: seq<W.TypeDef>, hookFn: W.FuncId, locals: nat, before: seq<FunctionKind>,
                      mid: seq<FunctionKind>, after: seq<FunctionKind>, trees: seq<Tree>, mids: seq<Tree>, i: nat)
    returns (trees': seq<Tree>)
    requires i < |before| && RewrittenUpTo(types, hookFn, locals, before, mid, trees, mids, i) && mid[i].LocalFunction?
    requires var p := I.Pass(types, hookFn, locals + LocalCount(before, i));
             |after| == |mid| && after[i].LocalFunction? && after == mid[i := mid[i].(blocks := after[i].blocks)]
             && HoldsFunc(after[i], RewriteTree(p, trees[i]))
    ensures RewrittenUpTo(types, hookFn, locals, before, after, trees, trees', i + 1)
  {
    trees' := mids[i := RewriteTree(I.Pass(types, hookFn, locals + LocalCount(before, i)), trees[i])];
  }

  /** Searching by name in the arena module finds the same function as on trees. */
  lemma FoundMalloc(m: W.Module, funcs: seq<FunctionKind>, trees: seq<Tree>, r: Option<W.FuncId>)
    requires |trees| == |funcs| && DecodeFuncs(funcs, trees) == m.funcs + [W.Hook]
    requires r.Some? ==> r.value < |funcs| && HasName(funcs[r.value], I.MALLOC)
                         && forall i :: 0 <= i < r.value ==> !HasName(funcs[i], I.MALLOC)
    requires r.None? ==> forall i :: 0 <= i < |funcs| ==> !HasName(funcs[i], I.MALLOC)
    ensures r == I.FindMalloc(m.funcs)
  {
    forall i | 0 <= i < |m.funcs|
      ensures I.IsMalloc(m.funcs[i]) == HasName(funcs[i], I.MALLOC)
    {
      assert DecodeFuncs(funcs, trees)[i] == m.funcs[i];
    }
    assert DecodeFuncs(funcs, trees)[|m.funcs|] == W.Hook;
  }

  /** The functions after wrapping, before any allocation is rewritten. */
  ghost function WrappedFuncs(m: W.Module): seq<W.Func>
    requires I.SourceModule(m)
  {
    seq(|m.funcs|, i requires 0 <= i < |m.funcs| =>
      var f := m.funcs[i];
      if I.FindMalloc(m.funcs) == Some(i) then f.(body := I.Wrapped(|m.funcs|, f.params[0].id, f.body)) else f)
  }

  lemma LocalCounts(m: W.Module, funcs: seq<FunctionKind>, trees: seq<Tree>, i: nat)
    requires I.SourceModule(m) && |trees| == |funcs| && DecodeFuncs(funcs, trees) == WrappedFuncs(m) + [W.Hook]
    requires i <= |m.funcs|
    ensures LocalCount(funcs, i) == I.LocalsBefore(m.funcs, i)
  {
    if i > 0 {
      LocalCounts(m, funcs, trees, i - 1);
      assert DecodeFuncs(funcs, trees)[i - 1] == WrappedFuncs(m)[i - 1];
    }
  }

  lemma WrappingAddsNoSites(m: W.Module, funcs: seq<W.Func>, i: nat)
    requires I.SourceModule(m) && funcs == WrappedFuncs(m) + [W.Hook] && i <= |m.funcs|
    ensures TotalSites(m.types, funcs, i) == TotalSites(m.types, m.funcs, i)
  {
    if i > 0 {
      WrappingAddsNoSites(m, funcs, i - 1);
      var f := m.funcs[i - 1];
      assert funcs[i - 1] == WrappedFuncs(m)[i - 1];
      if I.FindMalloc(m.funcs) == Some(i - 1) {
        SitesWrapped(m.types, |m.funcs|, f.params[0].id, f.body);
      }
    }
  }

  lemma SitesWrapped(types: seq<W.TypeDef>, hook: W.FuncId, x: W.LocalId, body: seq<W.Instr>)
    ensures I.Sites(types, I.Wrapped(hook, x, body)) == I.Sites(types, body)
  {
    var code := I.Wrapped(hook, x, body);
    assert code[1..][1..] == body;
    assert I.Sites(types, code[1..]) == I.SitesIn(types, code[1..][0]) + I.Sites(types, body);
  }

  lemma RewriteRefinesAt(m: W.Module, before: seq<FunctionKind>, after: seq<FunctionKind>,
                         trees: seq<Tree>, trees': seq<Tree>, i: nat)
    requires I.SourceModule(m) && |before| == |trees| == |m.funcs| + 1
    requires DecodeFuncs(before, trees) == WrappedFuncs(m) + [W.Hook]
    requires RewrittenUpTo(m.types, |m.funcs|, |m.localTypes|, before, after, trees, trees', |before|)
    requires i < |m.funcs|
    ensures DecodeFunc(after[i], trees'[i]) == I.InstrumentFunc(m, i)
  {
    LocalCounts(m, before, trees, i);
    assert DecodeFuncs(before, trees)[i] == WrappedFuncs(m)[i];
    RewriteNodesCode(I.PassFor(m, i), trees[i].nodes);
  }

  /** Rewriting every wrapped function is the tree-level transformation. */
  lemma RewriteRefines(m: W.Module, before: seq<FunctionKind>, after: seq<FunctionKind>,
                       trees: seq<Tree>, trees': seq<Tree>, engine: W.Engine)
    requires I.SourceModule(m) && |before| == |trees| == |m.funcs| + 1
    requires DecodeFuncs(before, trees) == WrappedFuncs(m) + [W.Hook]
    requires RewrittenUpTo(m.types, |m.funcs|, |m.localTypes|, before, after, trees, trees', |before|)
    ensures DecodeFuncs(after, trees') == I.InstrumentModule(m).funcs
    ensures LocalCount(before, |before|) == I.LocalsBefore(m.funcs, |m.funcs|)
    ensures TotalSites(m.types, DecodeFuncs(before, trees), |before|) == TotalSites(m.types, m.funcs, |m.funcs|)
  {
    hide RewrittenUpTo;
    hide I.SourceModule;
    hide DecodeFunc;
    hide DecodeFuncs;
    hide WrappedFuncs;
    hide I.InstrumentFunc;
    hide I.InstrumentModule;
    hide LocalCount;
    hide I.LocalsBefore;
    hide TotalSites;
    RewrittenSizes(m, before, after, trees, trees');
    forall i | 0 <= i < |m.funcs|
      ensures DecodeFuncs(after, trees')[i] == I.InstrumentFunc(m, i)
    {
      RewriteRefinesAt(m, before, after, trees, trees', i);
      DecodedAt(after, trees', i);
    }
    DecodedAt(after, trees', |m.funcs|);
    InstrumentedFuncs(m, DecodeFuncs(after, trees'));
    LocalCounts(m, before, trees, |m.funcs|);
    WrappingAddsNoSites(m, DecodeFuncs(before, trees), |m.funcs|);
  }

  lemma DecodedAt(funcs: seq<FunctionKind>, trees: seq<Tree>, i: nat)
    requires |trees| == |funcs| && i < |funcs|
    ensures DecodeFuncs(funcs, trees)[i] == DecodeFunc(funcs[i], trees[i])
  {}

  lemma InstrumentedFuncs(m: W.Module, fs: seq<W.Func>)
    requires I.SourceModule(m) && |fs| == |m.funcs| + 1 && fs[|m.funcs|] == W.Hook
    requires forall i :: 0 <= i < |m.funcs| ==> fs[i] == I.InstrumentFunc(m, i)
    ensures fs == I.InstrumentModule(m).funcs
  {
    hide I.SourceModule;
    hide I.InstrumentFunc;
  }

  /** The hook, last in the table, is not rewritten and holds nothing to count. */
  lemma RewrittenSizes(m: W.Module, before: seq<FunctionKind>, after: seq<FunctionKind>, trees: seq<Tree>,
                       trees': seq<Tree>)
    requires I.SourceModule(m) && |before| == |trees| == |m.funcs| + 1
    requires DecodeFuncs(before, trees) == WrappedFuncs(m) + [W.Hook]
    requires RewrittenUpTo(m.types, |m.funcs|, |m.localTypes|, before, after, trees, trees', |before|)
    ensures |after| == |before| == |trees'| && DecodeFunc(after[|m.funcs|], trees'[|m.funcs|]) == W.Hook
    ensures LocalCount(before, |before|) == LocalCount(before, |m.funcs|)
    ensures TotalSites(m.types, DecodeFuncs(before, trees), |before|) ==
              TotalSites(m.types, DecodeFuncs(before, trees), |m.funcs|)
  {
    hide I.SourceModule;
    hide RewrittenUpTo;
    hide DecodeFuncs;
    hide LocalCount;
    hide TotalSites;
    WrappedSize(m);
    hide WrappedFuncs;
    DecodedAt(before, trees, |m.funcs|);
    LastUntouched(m.types, |m.funcs|, |m.localTypes|, before, after, trees, trees');
    DecodedAt(after, trees', |m.funcs|);
    LastCounts(m.types, before, trees);
  }

  lemma LastUntouched(types: seq<W.TypeDef>, hookFn: W.FuncId, locals: nat, before: seq<FunctionKind>,
                      after: seq<FunctionKind>, trees: seq<Tree>, trees': seq<Tree>)
    requires RewrittenUpTo(types, hookFn, locals, before, after, trees, trees', |before|) && before != []
    ensures |after| == |before| == |trees'|
    ensures !before[|before| - 1].LocalFunction? ==>
              after[|before| - 1] == before[|before| - 1] && trees'[|before| - 1] == trees[|before| - 1]
  {
    hide HoldsAll;
    hide LocalCount;
    hide RewriteTree;
  }

  lemma LastCounts(types: seq<W.TypeDef>, before: seq<FunctionKind>, trees: seq<Tree>)
    requires |trees| == |before| >= 1 && before[|before| - 1].HookImport?
    ensures LocalCount(before, |before|) == LocalCount(before, |before| - 1)
    ensures TotalSites(types, DecodeFuncs(before, trees), |before|) ==
              TotalSites(types, DecodeFuncs(before, trees), |before| - 1)
  {
    hide Code;
    hide I.Sites;
  }

  lemma WrappedSize(m: W.Module)
    requires I.SourceModule(m)
    ensures |WrappedFuncs(m)| == |m.funcs|
  {}

  /** Two function tables that differ in one function's sequences only. */
  ghost predicate OnlyBlocks(before: seq<FunctionKind>, after: seq<FunctionKind>, fid: nat)
    requires fid < |before| && before[fid].LocalFunction?
  {
    && |after| == |before| && after[fid].LocalFunction?
    && after == before[fid := before[fid].(blocks := after[fid].blocks)]
  }

  /** `after` is `before` with the listed sequences rewritten and the others untouched. */
  ghost predicate Replaced(p: I.Pass, before: Arena, after: Arena, ids: seq<SeqId>) {
    && after.Keys == before.Keys
    && forall id :: id in before ==> after[id] == if id in ids then RewriteFlat(p, before[id]) else before[id]
  }

  ghost predicate SitesSoFar(types: seq<W.TypeDef>, arena: Arena, ids: seq<SeqId>, k: nat, count: nat)
    requires k <= |ids|
  {
    (forall id :: id in ids ==> id in arena) && count == SitesOver(types, arena, ids[..k])
  }

  lemma ReplacedNone(p: I.Pass, arena: Arena, ids: seq<SeqId>)
    requires forall id :: id in ids ==> id in arena
    ensures Replaced(p, arena, arena, ids[..0]) && SitesSoFar(p.types, arena, ids, 0, 0)
  {}

  lemma ReplacedStep(p: I.Pass, before: Arena, mid: Arena, t: Tree, ids: seq<SeqId>, k: nat, count: nat)
    requires Unshared(t) && multiset(ids) == Ids(t) && k < |ids| && SitesSoFar(p.types, before, ids, k, count)
    requires Replaced(p, before, mid, ids[..k])
    ensures ids[k] in before && ids[k] in mid && mid[ids[k]] == before[ids[k]]
    ensures Replaced(p, before, mid[ids[k] := RewriteFlat(p, before[ids[k]])], ids[..k + 1])
    ensures SitesSoFar(p.types, before, ids, k + 1, count + SitesFlat(p.types, before[ids[k]]))
  {
    NotYet(t, ids, k);
    assert ids[..k + 1] == ids[..k] + [ids[k]];
  }

  lemma ReplacedHolds(p: I.Pass, before: Arena, after: Arena, t: Tree, ids: seq<SeqId>)
    requires Holds(before, t) && Unshared(t) && Replaced(p, before, after, ids) && multiset(ids) == Ids(t)
    requires forall id :: id in ids ==> id in before
    ensures Holds(after, RewriteTree(p, t)) && Unshared(RewriteTree(p, t))
    ensures forall id :: id in before && id !in Ids(t) ==> after[id] == before[id]
  {
    forall id | id in Ids(t)
      ensures id in before && id in after && after[id] == RewriteFlat(p, before[id])
    {
      assert id in multiset(ids);
    }
    forall id | id in ids
      ensures id in Ids(t)
    {
      assert id in multiset(ids);
    }
    RewriteHolds(p, before, after, t);
    RewriteKeepsIds(p, t.nodes);
    assert Ids(RewriteTree(p, t)) == Ids(t);
  }

  /** An id at position `k` of the walk has not been seen before it. */
  lemma NotYet(t: Tree, ids: seq<SeqId>, k: nat)
    requires Unshared(t) && multiset(ids) == Ids(t) && k < |ids|
    ensures ids[k] !in ids[..k]
  {
    var id := ids[k];
    assert ids == ids[..k] + [id] + ids[k + 1..];
    assert multiset(ids)[id] == multiset(ids[..k])[id] + 1 + multiset(ids[k + 1..])[id];
    assert Ids(t)[id] <= 1;
    assert id !in multiset(ids[..k]);
  }

  /** The entry sequence occurs nowhere below itself. */
  lemma WrapHolds(arena: Arena, arena': Arena, t: Tree, sizeArg: W.LocalId, hookFn: W.FuncId)
    requires Holds(arena, t) && Unshared(t)
    requires arena' == arena[t.id := [Do(W.LocalGet(sizeArg)), Do(W.Call(hookFn))] + arena[t.id]]
    ensures Holds(arena', WrappedTree(t, sizeArg, hookFn)) && Unshared(WrappedTree(t, sizeArg, hookFn))
    ensures Code(WrappedTree(t, sizeArg, hookFn).nodes) == I.Wrapped(hookFn, sizeArg, Code(t.nodes))
  {
    var head := [Leaf(W.LocalGet(sizeArg)), Leaf(W.Call(hookFn))];
    var t' := WrappedTree(t, sizeArg, hookFn);
    assert Leaves([W.LocalGet(sizeArg), W.Call(hookFn)]) == head;
    IdsInAppend(head, t.nodes);
    IdsOfLeaves([W.LocalGet(sizeArg), W.Call(hookFn)]);
    assert Ids(t)[t.id] == 1 + IdsIn(t.nodes)[t.id];
    assert Ids(t') == Ids(t);
    FramedNodes(arena, t.id, arena'[t.id], t.nodes);
    FlatAppend(head, t.nodes);
    assert FlatSeq(head) == [Do(W.LocalGet(sizeArg)), Do(W.Call(hookFn))];
    CodeAppend(head, t.nodes);
    CodeLeaves([W.LocalGet(sizeArg), W.Call(hookFn)]);
    assert I.Straight([W.LocalGet(sizeArg), W.Call(hookFn)]) == [W.Do(W.LocalGet(sizeArg)), W.Do(W.Call(hookFn))];
  }

  /** Trees that do not mention `id` do not depend on the sequence stored there. */
  lemma {:induction false} FramedNodes(arena: Arena, id: SeqId, instrs: seq<ArenaInstr>, nodes: seq<Node>)
    requires forall i :: 0 <= i < |nodes| ==> HoldsNode(arena, nodes[i])
    requires id !in IdsIn(nodes)
    ensures forall i :: 0 <= i < |nodes| ==> HoldsNode(arena[id := instrs], nodes[i])
    decreases nodes, 0
  {
    hide HoldsNode;
    if nodes != [] {
      FramedNodes(arena, id, instrs, nodes[..|nodes| - 1]);
      FramedNode(arena, id, instrs, nodes[|nodes| - 1]);
    }
  }

  lemma {:induction false} FramedNode(arena: Arena, id: SeqId, instrs: seq<ArenaInstr>, n: Node)
    requires HoldsNode(arena, n) && id !in IdsOf(n)
    ensures HoldsNode(arena[id := instrs], n)
    decreases n, 1
  {
    match n
    case Leaf(_) =>
    case BlockNode(_, body) => FramedNodes(arena, id, instrs, body.nodes);
    case LoopNode(_, body) => FramedNodes(arena, id, instrs, body.nodes);
    case IfNode(_, thn, els) =>
      FramedNodes(arena, id, instrs, thn.nodes);
      FramedNodes(arena, id, instrs, els.nodes);
  }
}
