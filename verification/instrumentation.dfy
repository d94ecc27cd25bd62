/** The allocation instrumentation as a function on instruction trees, and the
    proof that it keeps every run while reporting exactly the allocations. */
module Instrumentation {
  import opened Wrappers
  import opened Wasm

  function FieldSize(s: Storage): Int32 {
    match s
    case Int8 => 1
    case Int16 => 2
    case Full(I32) => 4
    case Full(Other(F32)) => 4
    case Full(Other(I64)) => 8
    case Full(Other(F64)) => 8
    case Full(Other(V128)) => 16
    case Full(Other(RefType)) => 4
  }

  function StructSize(fields: seq<Storage>): Int32 {
    if fields == [] then 0 else Wrap32(StructSize(fields[..|fields| - 1]) + FieldSize(fields[|fields| - 1]))
  }

  function GetStruct(types: seq<TypeDef>, ty: TypeId): Option<Int32> {
    if ty < |types| && types[ty].StructType? then Some(StructSize(types[ty].fields)) else None
  }

  function GetArrayElem(types: seq<TypeDef>, ty: TypeId): Option<Int32> {
    if ty < |types| && types[ty].ArrayType? then Some(FieldSize(types[ty].elem)) else None
  }

  /** Sizes known when the code is rewritten. */
  function StaticSize(types: seq<TypeDef>, a: AllocOp): Option<Int32> {
    match a
    case StructNew(ty) => GetStruct(types, ty)
    case StructNewDefault(ty) => GetStruct(types, ty)
    case ArrayNewFixed(ty, len) =>
      var e := GetArrayElem(types, ty);
      if e.None? then None else Some(Wrap32(e.value * Wrap32(len)))
    case _ => None
  }

  /** Element sizes of the opcodes that find their length on the stack. */
  function DynElemSize(types: seq<TypeDef>, a: AllocOp): Option<Int32> {
    if TakesLength(a) then GetArrayElem(types, a.ty) else None
  }

  // -------------------------------------------------------- what the sizes are

  /** A field counts its bits as bytes, and a reference four bytes. */
  lemma FieldSizeIs(s: Storage)
    ensures 8 * FieldSize(s) == if BitWidth(s).Some? then BitWidth(s).value else 32
    ensures FieldSize(s) > 0
  {}

  /** Bytes of all fields, without wrap-around. */
  function FieldBytes(fields: seq<Storage>): nat {
    if fields == [] then 0 else FieldSize(fields[0]) + FieldBytes(fields[1..])
  }

  lemma {:induction false} FieldBytesAdd(a: seq<Storage>, b: seq<Storage>)
    ensures FieldBytes(a + b) == FieldBytes(a) + FieldBytes(b)
  {
    if a == [] {
      assert a + b == b;
    } else {
      FieldBytesAdd(a[1..], b);
      assert (a + b)[1..] == a[1..] + b;
    }
  }

  lemma {:induction false} StructSizeIs(fields: seq<Storage>)
    ensures StructSize(fields) == Wrap32(FieldBytes(fields))
  {
    hide Wrap32;
    if fields == [] {
      WrapMeans(0, 0);
    } else {
      var init, last := fields[..|fields| - 1], fields[|fields| - 1];
      StructSizeIs(init);
      FieldBytesAdd(init, [last]);
      assert init + [last] == fields && FieldBytes([last]) == FieldSize(last);
      WrapInside(FieldBytes(init), FieldSize(last));
    }
  }

  /** A size is handed to the hook when it is positive. */
  function IfPositive(n: Int32): Option<Int32> {
    if n > 0 then Some(n) else None
  }

  /** What the hook hears of each allocation: the wrapped bytes of a struct's fields, or the wrapped product of a length
      and an element's bytes; and of no other instruction. */
  lemma SizesReported(types: seq<TypeDef>, a: AllocOp, len: Int32)
    ensures Operands(types, a).None? ==> ReportedSize(types, a, len) == None
    ensures Operands(types, a).Some? && (a.StructNew? || a.StructNewDefault?) ==>
              ReportedSize(types, a, len) == IfPositive(Wrap32(FieldBytes(types[a.ty].fields)))
    ensures Operands(types, a).Some? && a.ArrayNewFixed? ==>
              ReportedSize(types, a, len) == IfPositive(Wrap32(FieldSize(types[a.ty].elem) * a.len))
    ensures Operands(types, a).Some? && TakesLength(a) ==>
              ReportedSize(types, a, len) == Some(Wrap32(len * FieldSize(types[a.ty].elem)))
  {
    hide Wrap32;
    if Operands(types, a).Some? {
      if a.StructNew? || a.StructNewDefault? {
        StructSizeIs(types[a.ty].fields);
      } else if a.ArrayNewFixed? {
        WrapInside(a.len, FieldSize(types[a.ty].elem));
      }
    }
  }

  /** The rewrite counts exactly the allocations of well-typed code as sites. */
  lemma SiteIffAllocates(types: seq<TypeDef>, op: Op)
    ensures IsSite(types, op) <==> op.Alloc? && Operands(types, op.a).Some?
  {}

  /** What one function's rewrite needs: the types, the hook's id and its scratch local. */
  datatype Pass = Pass(types: seq<TypeDef>, hook: FuncId, scratch: LocalId)

  /** The prefix that goes through the scratch local. */
  function DynamicOps(hook: FuncId, elem: Int32, scratch: LocalId): seq<Op> {
    [LocalSet(scratch), Const(Num(elem)), LocalGet(scratch), I32Mul, Call(hook), LocalGet(scratch)]
  }

  function Prefix(p: Pass, op: Op): seq<Op> {
    if !op.Alloc? then []
    else
      var size := StaticSize(p.types, op.a);
      var elem := DynElemSize(p.types, op.a);
      if size.Some? then
        if size.value > 0 then [Const(Num(size.value)), Call(p.hook)] else []
      else if elem.Some? && elem.value > 0 then
        DynamicOps(p.hook, elem.value, p.scratch)
      else []
  }

  /** Whether the rewrite counts an instruction as an allocation site. */
  predicate IsSite(types: seq<TypeDef>, op: Op) {
    op.Alloc? && (StaticSize(types, op.a).Some? || DynElemSize(types, op.a).Some?)
  }

  function Straight(ops: seq<Op>): seq<Instr> {
    seq(|ops|, i requires 0 <= i < |ops| => Do(ops[i]))
  }

  function RewriteSeq(p: Pass, code: seq<Instr>): seq<Instr>
    decreases code, 0
  {
    if code == [] then [] else Rewrite(p, code[0]) + RewriteSeq(p, code[1..])
  }

  function Rewrite(p: Pass, i: Instr): seq<Instr>
    decreases i, 1
  {
    match i
    case Do(op) => Straight(Prefix(p, op)) + [i]
    case Block(bt, body) => [Block(bt, RewriteSeq(p, body))]
    case Loop(bt, body) => [Loop(bt, RewriteSeq(p, body))]
    case IfElse(bt, thn, els) => [IfElse(bt, RewriteSeq(p, thn), RewriteSeq(p, els))]
  }

  /** The number of allocation sites in a body. */
  function Sites(types: seq<TypeDef>, code: seq<Instr>): nat
    decreases code, 0
  {
    if code == [] then 0 else SitesIn(types, code[0]) + Sites(types, code[1..])
  }

  function SitesIn(types: seq<TypeDef>, i: Instr): nat
    decreases i, 1
  {
    match i
    case Do(op) => if IsSite(types, op) then 1 else 0
    case Block(_, body) => Sites(types, body)
    case Loop(_, body) => Sites(types, body)
    case IfElse(_, thn, els) => Sites(types, thn) + Sites(types, els)
  }

  /** Every allocation in the code is one site, however deeply it is nested. */
  lemma {:induction false} SitesAdd(types: seq<TypeDef>, a: seq<Instr>, b: seq<Instr>)
    ensures Sites(types, a + b) == Sites(types, a) + Sites(types, b)
  {
    if a == [] {
      assert a + b == b;
    } else {
      SitesAdd(types, a[1..], b);
      assert (a + b)[1..] == a[1..] + b;
    }
  }

  lemma SitesOfOne(types: seq<TypeDef>, op: Op, bt: BlockType, body: seq<Instr>, other: seq<Instr>)
    ensures Sites(types, [Do(op)]) == if op.Alloc? && Operands(types, op.a).Some? then 1 else 0
    ensures Sites(types, [Block(bt, body)]) == Sites(types, [Loop(bt, body)]) == Sites(types, body)
    ensures Sites(types, [IfElse(bt, body, other)]) == Sites(types, body) + Sites(types, other)
  {
    SiteIffAllocates(types, op);
    hide IsSite;
    SitesSingle(types, Do(op));
    SitesSingle(types, Block(bt, body));
    SitesSingle(types, Loop(bt, body));
    SitesSingle(types, IfElse(bt, body, other));
  }

  lemma SitesSingle(types: seq<TypeDef>, i: Instr)
    ensures Sites(types, [i]) == SitesIn(types, i)
  {
    assert [i][1..] == [];
  }

  const MALLOC := "moonbit.malloc"

  predicate IsMalloc(f: Func) {
    !f.Hook? && f.name == Some(MALLOC)
  }

  /** The first function named `moonbit.malloc`, among those from `from` on. */
  function FindMalloc(funcs: seq<Func>, from: nat := 0): (r: Option<FuncId>)
    requires from <= |funcs|
    ensures r.Some? ==> from <= r.value < |funcs| && IsMalloc(funcs[r.value])
    ensures r.Some? ==> !funcs[r.value].Hook? && funcs[r.value].name == Some("moonbit.malloc")
    ensures r.Some? ==> forall i :: from <= i < r.value ==> !IsMalloc(funcs[i])
    ensures r.None? ==> forall i :: from <= i < |funcs| ==> !IsMalloc(funcs[i])
    decreases |funcs| - from
  {
    if from == |funcs| then None
    else if IsMalloc(funcs[from]) then Some(from)
    else FindMalloc(funcs, from + 1)
  }

  /** The hook call that heads the body of `moonbit.malloc`. */
  function Wrapped(hook: FuncId, size: LocalId, body: seq<Instr>): seq<Instr> {
    [Do(LocalGet(size)), Do(Call(hook))] + body
  }

  function LocalsBefore(funcs: seq<Func>, i: nat): nat
    requires i <= |funcs|
  {
    if i == 0 then 0 else LocalsBefore(funcs, i - 1) + if funcs[i - 1].Local? then 1 else 0
  }

  /** Every local function gets a scratch local of its own, after all the module's locals. */
  function PassFor(m: Module, i: FuncId): Pass
    requires i <= |m.funcs|
  {
    Pass(m.types, |m.funcs|, |m.localTypes| + LocalsBefore(m.funcs, i))
  }

  function InstrumentFunc(m: Module, i: FuncId): Func
    requires i < |m.funcs| && SourceModule(m)
  {
    var f := m.funcs[i];
    if !f.Local? then f
    else
      var body := if FindMalloc(m.funcs) == Some(i) then Wrapped(|m.funcs|, f.params[0].id, f.body) else f.body;
      f.(body := RewriteSeq(PassFor(m, i), body))
  }

  function InstrumentModule(m: Module): Module
    requires SourceModule(m)
  {
    var n := LocalsBefore(m.funcs, |m.funcs|);
    m.(funcs := seq(|m.funcs|, i requires 0 <= i < |m.funcs| => InstrumentFunc(m, i)) + [Hook],
       localTypes := m.localTypes + seq(n, _ => I32))
  }

  /** Code whose local and function indices are in range, as walrus ids are. */
  predicate InRange(m: Module, code: seq<Instr>)
    decreases code, 0
  {
    forall i :: 0 <= i < |code| ==> InstrInRange(m, code[i])
  }

  predicate InstrInRange(m: Module, i: Instr)
    decreases i, 1
  {
    match i
    case Do(LocalGet(x)) => x < |m.localTypes|
    case Do(LocalSet(x)) => x < |m.localTypes|
    case Do(LocalTee(x)) => x < |m.localTypes|
    case Do(Call(f)) => f < |m.funcs|
    case Do(_) => true
    case Block(_, body) => InRange(m, body)
    case Loop(_, body) => InRange(m, body)
    case IfElse(_, thn, els) => InRange(m, thn) && InRange(m, els)
  }

  predicate DistinctParams(params: seq<Param>) {
    forall i, j :: 0 <= i < j < |params| ==> params[i].id != params[j].id
  }

  /** A module as it reaches the profiler: not yet hooked, ids in range, and
      `moonbit.malloc`, if there is one, a local function of an i32. */
  ghost predicate SourceModule(m: Module) {
    && (forall i :: 0 <= i < |m.funcs| ==> !m.funcs[i].Hook?)
    && (forall i :: 0 <= i < |m.funcs| && m.funcs[i].Local? ==>
          InRange(m, m.funcs[i].body) && DistinctParams(m.funcs[i].params)
          && forall p :: p in m.funcs[i].params ==> p.id < |m.localTypes|)
    && (var k := FindMalloc(m.funcs);
        k.Some? ==> m.funcs[k.value].Local? && |m.funcs[k.value].params| > 0 && m.funcs[k.value].params[0].ty == I32)
    && (forall t, v, s :: var f := m.engine.callee(t, v, s); f.Some? ==> f.value < |m.funcs|)
  }

  // ---------------------------------------------------------------- events

  /** The size the profile should show for an allocation; None when it shows nothing. */
  function ReportedSize(types: seq<TypeDef>, a: AllocOp, len: Int32): Option<Int32> {
    match StaticSize(types, a)
    case Some(size) => if size > 0 then Some(size) else None
    case None =>
      var elem := DynElemSize(types, a);
      if elem.Some? && elem.value > 0 then Some(Wrap32(len * elem.value)) else None
  }

  /** The hook calls owed for one event of the original run, and where they fall. */
  function WeaveOne(m: Module, e: Event): seq<Event> {
    match e
    case Allocated(a, len) =>
      var size := ReportedSize(m.types, a, len);
      if size.Some? then [Hooked(size.value), e] else [e]
    case Entered(f, args) =>
      if FindMalloc(m.funcs) == Some(f) && |args| > 0 && args[0].Num? then [e, Hooked(args[0].n)] else [e]
    case Hooked(_) => [e]
  }

  function Weave(m: Module, events: seq<Event>): seq<Event> {
    if events == [] then [] else Weave(m, events[..|events| - 1]) + WeaveOne(m, events[|events| - 1])
  }

  lemma WeaveSnoc(m: Module, events: seq<Event>, e: Event)
    ensures Weave(m, events + [e]) == Weave(m, events) + WeaveOne(m, e)
  {
    assert (events + [e])[..|events|] == events;
  }

  // ------------------------------------------------------------ simulation

  /** Same operands, store and original locals; the events are the original ones with the hook calls woven in. */
  ghost predicate SameState(m: Module, scratch: LocalId, st: State, st': State) {
    && st'.stack == st.stack
    && st'.store == st.store
    && scratch !in st.locals
    && st'.locals - {scratch} == st.locals
    && st'.events == Weave(m, st.events)
  }

  ghost predicate SameOutcome(m: Module, scratch: LocalId, o: Outcome, o': Outcome) {
    match o
    case Next(st) => o'.Next? && SameState(m, scratch, st, o'.st)
    case Branch(depth, st) => o'.Branch? && o'.depth == depth && SameState(m, scratch, st, o'.st)
    case Returned(st) => o'.Returned? && SameState(m, scratch, st, o'.st)
    case Trap(store, events) => o' == Trap(store, Weave(m, events))
    case Suspended(store, events) => o' == Suspended(store, Weave(m, events))
    case Stuck => o' == Stuck
  }

  ghost predicate ScratchOf(m: Module, scratch: LocalId)
    requires SourceModule(m)
  {
    |m.localTypes| <= scratch < |InstrumentModule(m).localTypes|
  }

  function Using(m: Module, scratch: LocalId): Pass {
    Pass(m.types, |m.funcs|, scratch)
  }

  lemma ExecOne(m: Module, fuel: nat, op: Op, rest: seq<Op>, st: State)
    ensures Exec(m, fuel, Straight([op] + rest), st) ==
            var o := Step(m, fuel, Do(op), st);
            if o.Next? then Exec(m, fuel, Straight(rest), o.st) else o
  {
    assert Straight([op] + rest)[1..] == Straight(rest);
  }

  predicate HookAt(m: Module, hook: FuncId) {
    hook < |m.funcs| && m.funcs[hook].Hook?
  }

  /** Calling the hook pops one i32 and reports it. */
  lemma HookCall(m: Module, fuel: nat, hook: FuncId, st: State)
    requires HookAt(m, hook) && IsNum(st.stack)
    ensures Step(m, fuel, Do(Call(hook)), st) ==
            Next(st.(stack := Below(st.stack, 1), events := st.events + [Hooked(st.stack[|st.stack| - 1].n)]))
  {}

  /** The static prefix reports its constant and leaves everything else alone. */
  lemma StaticPrefix(m: Module, fuel: nat, hook: FuncId, size: Int32, st: State)
    requires HookAt(m, hook)
    ensures Exec(m, fuel, Straight([Const(Num(size)), Call(hook)]), st) ==
            Next(st.(events := st.events + [Hooked(size)]))
  {
    var st1 := st.(stack := st.stack + [Num(size)]);
    ExecOne(m, fuel, Const(Num(size)), [Call(hook)], st);
    ExecOne(m, fuel, Call(hook), [], st1);
    HookCall(m, fuel, hook, st1);
    assert [Const(Num(size))] + [Call(hook)] == [Const(Num(size)), Call(hook)];
    assert Below(st1.stack, 1) == st.stack;
  }

  /** The six-instruction prefix reports len * elem, wrapped, and restores the operands. */
  lemma DynamicPrefix(m: Module, fuel: nat, hook: FuncId, elem: Int32, scratch: LocalId, st: State)
    requires HookAt(m, hook) && scratch < |m.localTypes| && IsNum(st.stack)
    ensures var len := st.stack[|st.stack| - 1];
            Exec(m, fuel, Straight(DynamicOps(hook, elem, scratch)), st) ==
            Next(st.(locals := st.locals[scratch := len], events := st.events + [Hooked(Wrap32(elem * len.n))]))
  {
    var call, get, len := Call(hook), LocalGet(scratch), st.stack[|st.stack| - 1];
    var base := Below(st.stack, 1);
    var st1 := st.(stack := base, locals := st.locals[scratch := len]);
    var st2 := st1.(stack := base + [Num(elem)]);
    var st3 := st1.(stack := base + [Num(elem)] + [len]);
    var st4 := st1.(stack := base + [Num(Wrap32(elem * len.n))]);
    var st5 := st1.(events := st.events + [Hooked(Wrap32(elem * len.n))]);
    assert DynamicOps(hook, elem, scratch) == [LocalSet(scratch)] + [Const(Num(elem)), get, I32Mul, call, get];
    ExecOne(m, fuel, LocalSet(scratch), [Const(Num(elem)), get, I32Mul, call, get], st);
    assert [Const(Num(elem)), get, I32Mul, call, get] == [Const(Num(elem))] + [get, I32Mul, call, get];
    ExecOne(m, fuel, Const(Num(elem)), [get, I32Mul, call, get], st1);
    assert [get, I32Mul, call, get] == [get] + [I32Mul, call, get];
    ExecOne(m, fuel, get, [I32Mul, call, get], st2);
    assert [I32Mul, call, get] == [I32Mul] + [call, get];
    ExecOne(m, fuel, I32Mul, [call, get], st3);
    assert Below(st3.stack, 2) == base;
    assert [call, get] == [call] + [get];
    ExecOne(m, fuel, call, [get], st4);
    HookCall(m, fuel, hook, st4);
    assert Below(st4.stack, 1) == base;
    ExecOne(m, fuel, get, [], st5);
    assert base + [len] == st.stack;
  }

  /** On operands the allocation itself would reject, the six-instruction prefix is rejected too. */
  lemma DynamicPrefixStuck(m: Module, fuel: nat, hook: FuncId, elem: Int32, scratch: LocalId, st: State)
    requires HookAt(m, hook) && scratch < |m.localTypes| && !IsNum(st.stack)
    ensures Exec(m, fuel, Straight(DynamicOps(hook, elem, scratch)), st) == Stuck
  {
    var call, get := Call(hook), LocalGet(scratch);
    assert DynamicOps(hook, elem, scratch) == [LocalSet(scratch)] + [Const(Num(elem)), get, I32Mul, call, get];
    ExecOne(m, fuel, LocalSet(scratch), [Const(Num(elem)), get, I32Mul, call, get], st);
    if |st.stack| > 0 {
      var base, len := Below(st.stack, 1), st.stack[|st.stack| - 1];
      var st1 := st.(stack := base, locals := st.locals[scratch := len]);
      var st2 := st1.(stack := base + [Num(elem)]);
      var st3 := st1.(stack := base + [Num(elem)] + [len]);
      assert [Const(Num(elem)), get, I32Mul, call, get] == [Const(Num(elem))] + [get, I32Mul, call, get];
      ExecOne(m, fuel, Const(Num(elem)), [get, I32Mul, call, get], st1);
      assert [get, I32Mul, call, get] == [get] + [I32Mul, call, get];
      ExecOne(m, fuel, get, [I32Mul, call, get], st2);
      assert [I32Mul, call, get] == [I32Mul] + [call, get];
      ExecOne(m, fuel, I32Mul, [call, get], st3);
    }
  }

  lemma ExecSingle(m: Module, fuel: nat, i: Instr, st: State)
    ensures Exec(m, fuel, [i], st) == Step(m, fuel, i, st)
  {}

  /** The hook calls owed before an allocation. */
  function Owed(m: Module, a: AllocOp, len: Int32): seq<Event> {
    var size := ReportedSize(m.types, a, len);
    if size.Some? then [Hooked(size.value)] else []
  }

  function LengthOf(a: AllocOp, stack: seq<Value>): Int32 {
    if TakesLength(a) && IsNum(stack) then stack[|stack| - 1].n else 0
  }

  /** A prefix that ends where it began, but for the events it owes and the scratch local. */
  ghost predicate ReportsOwed(m: Module, scratch: LocalId, a: AllocOp, st: State, o: Outcome) {
    if o.Next? then
      o.st.stack == st.stack && o.st.store == st.store && o.st.locals - {scratch} == st.locals - {scratch}
      && (!TakesLength(a) || IsNum(st.stack) ==> o.st.events == st.events + Owed(m, a, LengthOf(a, st.stack)))
    else o == Stuck && TakesLength(a) && !IsNum(st.stack)
  }

  /** Running a prefix reports what is owed and disturbs nothing but the scratch local. */
  lemma PrefixRun(m: Module, fuel: nat, scratch: LocalId, a: AllocOp, st: State)
    requires SourceModule(m) && ScratchOf(m, scratch)
    ensures ReportsOwed(m, scratch, a, st,
                        Exec(InstrumentModule(m), fuel, Straight(Prefix(Using(m, scratch), Alloc(a))), st))
  {
    hide Exec;
    hide SourceModule;
    hide ReportsOwed;
    hide StaticSize;
    hide DynElemSize;
    hide Straight;
    hide Prefix;
    HookAdded(m);
    PrefixCases(Using(m, scratch), a);
    var m' := InstrumentModule(m);
    hide InstrumentModule;
    var size, elem := StaticSize(m.types, a), DynElemSize(m.types, a);
    if size.Some? && size.value > 0 {
      StaticPrefix(m', fuel, |m.funcs|, size.value, st);
      StaticReports(m, scratch, a, st);
    } else if size.None? && elem.Some? && elem.value > 0 {
      if IsNum(st.stack) {
        DynamicPrefix(m', fuel, |m.funcs|, elem.value, scratch, st);
        DynamicReports(m, scratch, a, st);
      } else {
        DynamicPrefixStuck(m', fuel, |m.funcs|, elem.value, scratch, st);
        StuckReports(m, scratch, a, st);
      }
    } else {
      NoPrefixRun(m', fuel, st);
      NothingReports(m, scratch, a, st);
    }
  }

  lemma PrefixCases(p: Pass, a: AllocOp)
    ensures var size, elem := StaticSize(p.types, a), DynElemSize(p.types, a);
            Prefix(p, Alloc(a)) ==
            if size.Some? && size.value > 0 then [Const(Num(size.value)), Call(p.hook)]
            else if size.None? && elem.Some? && elem.value > 0 then DynamicOps(p.hook, elem.value, p.scratch)
            else []
  {
    hide StaticSize;
    hide DynElemSize;
  }

  lemma StaticReports(m: Module, scratch: LocalId, a: AllocOp, st: State)
    requires var size := StaticSize(m.types, a); size.Some? && size.value > 0
    ensures ReportsOwed(m, scratch, a, st, Next(st.(events := st.events + [Hooked(StaticSize(m.types, a).value)])))
  {
    hide StaticSize;
    hide DynElemSize;
  }

  lemma DynamicReports(m: Module, scratch: LocalId, a: AllocOp, st: State)
    requires StaticSize(m.types, a).None? && IsNum(st.stack)
    requires var elem := DynElemSize(m.types, a); elem.Some? && elem.value > 0
    ensures var elem, len := DynElemSize(m.types, a).value, st.stack[|st.stack| - 1];
            ReportsOwed(m, scratch, a, st,
                        Next(st.(locals := st.locals[scratch := len],
                                 events := st.events + [Hooked(Wrap32(elem * len.n))])))
  {
    hide StaticSize;
    hide GetArrayElem;
    hide Wrap32;
    var elem, len := DynElemSize(m.types, a).value, st.stack[|st.stack| - 1];
    assert elem * len.n == len.n * elem;
    assert st.locals[scratch := len] - {scratch} == st.locals - {scratch};
  }

  lemma StuckReports(m: Module, scratch: LocalId, a: AllocOp, st: State)
    requires DynElemSize(m.types, a).Some? && !IsNum(st.stack)
    ensures ReportsOwed(m, scratch, a, st, Stuck)
  {
    hide GetArrayElem;
  }

  lemma NothingReports(m: Module, scratch: LocalId, a: AllocOp, st: State)
    requires var size, elem := StaticSize(m.types, a), DynElemSize(m.types, a);
             if size.Some? then size.value <= 0 else elem.None? || elem.value <= 0
    ensures ReportsOwed(m, scratch, a, st, Next(st))
  {
    hide StaticSize;
    hide DynElemSize;
    assert st.events + [] == st.events;
  }

  lemma HookAdded(m: Module)
    requires SourceModule(m)
    ensures HookAt(InstrumentModule(m), |m.funcs|)
  {
    hide SourceModule;
  }

  lemma NoPrefixRun(m: Module, fuel: nat, st: State)
    ensures Exec(m, fuel, Straight([]), st) == Next(st)
  {
    assert Straight([]) == [];
  }

  /** An allocation preceded by its prefix, against the bare allocation. */
  lemma SimAlloc(m: Module, fuel: nat, scratch: LocalId, a: AllocOp, st: State, st': State)
    requires SourceModule(m) && ScratchOf(m, scratch) && SameState(m, scratch, st, st')
    ensures SameOutcome(m, scratch, StepAlloc(m, a, st),
                        Exec(InstrumentModule(m), fuel, Rewrite(Using(m, scratch), Do(Alloc(a))), st'))
  {
    var m' := InstrumentModule(m);
    var prefix := Straight(Prefix(Using(m, scratch), Alloc(a)));
    ExecAppend(m', fuel, prefix, [Do(Alloc(a))], st');
    PrefixRun(m, fuel, scratch, a, st');
    var o := Exec(m', fuel, prefix, st');
    if o.Next? {
      ExecSingle(m', fuel, Do(Alloc(a)), o.st);
      FinishAlloc(m, m', scratch, a, st, st', o.st);
    }
  }

  lemma ResumeSame(m: Module, scratch: LocalId, r: OpResult, base: seq<Value>, st: State, st': State)
    requires SameState(m, scratch, st, st')
    ensures SameOutcome(m, scratch, Resume(r, base, st), Resume(r, base, st'))
  {
    hide Weave;
  }

  lemma FinishBlockSame(m: Module, scratch: LocalId, o: Outcome, o': Outcome, arity: nat, base: seq<Value>)
    requires SameOutcome(m, scratch, o, o')
    ensures SameOutcome(m, scratch, FinishBlock(o, arity, base), FinishBlock(o', arity, base))
  {
    hide Weave;
  }

  lemma NextIterationSame(m: Module, scratch: LocalId, o: Outcome, o': Outcome, bt: BlockType, base: seq<Value>)
    requires SameOutcome(m, scratch, o, o')
    ensures match NextIteration(o, bt, base)
            case Ok(st) =>
              NextIteration(o', bt, base).Ok?
              && SameState(m, scratch, st, NextIteration(o', bt, base).value)
            case Err(x) =>
              NextIteration(o', bt, base).Err?
              && SameOutcome(m, scratch, x, NextIteration(o', bt, base).error)
  {
    hide Weave;
    FinishBlockSame(m, scratch, o, o', bt.results, base);
  }

  lemma FinishCallSame(m: Module, scratch: LocalId, inner: LocalId, o: Outcome, o': Outcome,
                       results: nat, base: seq<Value>, st: State, st': State)
    requires SameOutcome(m, inner, o, o') && SameState(m, scratch, st, st')
    ensures SameOutcome(m, scratch, FinishCall(o, results, base, st), FinishCall(o', results, base, st'))
  {
    hide Weave;
  }

  /** The allocation itself, once the prefix has run. */
  lemma FinishAlloc(m: Module, m': Module, scratch: LocalId, a: AllocOp, st: State, st': State, st'': State)
    requires m'.types == m.types && m'.engine == m.engine && SameState(m, scratch, st, st')
    requires st''.stack == st.stack && st''.store == st.store && st''.locals - {scratch} == st.locals
    requires !TakesLength(a) || IsNum(st.stack) ==> st''.events == st'.events + Owed(m, a, LengthOf(a, st.stack))
    ensures SameOutcome(m, scratch, StepAlloc(m, a, st), StepAlloc(m', a, st''))
  {
    hide ReportedSize;
    hide Operands;
    hide Weave;
    var n := Operands(m.types, a);
    if n.Some? && |st.stack| >= n.value && (!TakesLength(a) || IsNum(st.stack)) {
      var e := Allocated(a, LengthOf(a, st.stack));
      WeaveAllocated(m, st.events, a, LengthOf(a, st.stack));
      assert st''.events + [e] == Weave(m, st.events) + (Owed(m, a, LengthOf(a, st.stack)) + [e]);
      var st1, st1' := st.(events := st.events + [e]), st''.(events := st''.events + [e]);
      hide Owed;
      assert SameState(m, scratch, st1, st1');
      ResumeSame(m, scratch, m.engine.alloc(a, Top(st.stack, n.value), st.store), Below(st.stack, n.value), st1, st1');
    }
  }

  lemma WeaveAllocated(m: Module, events: seq<Event>, a: AllocOp, len: Int32)
    ensures Weave(m, events + [Allocated(a, len)]) == Weave(m, events) + (Owed(m, a, len) + [Allocated(a, len)])
  {
    hide ReportedSize;
    WeaveSnoc(m, events, Allocated(a, len));
    assert WeaveOne(m, Allocated(a, len)) == Owed(m, a, len) + [Allocated(a, len)];
  }

  /** Straight-line instructions. */
  lemma SimOp(m: Module, fuel: nat, scratch: LocalId, op: Op, st: State, st': State)
    requires SourceModule(m) && ScratchOf(m, scratch) && SameState(m, scratch, st, st')
    requires !op.Call? && !op.CallDynamic? && InstrInRange(m, Do(op))
    ensures SameOutcome(m, scratch, StepOp(m, op, st),
                        Exec(InstrumentModule(m), fuel, Rewrite(Using(m, scratch), Do(op)), st'))
  {
    if op.Alloc? {
      SimAlloc(m, fuel, scratch, op.a, st, st');
    } else {
      assert Straight([]) + [Do(op)] == [Do(op)];
      ExecSingle(InstrumentModule(m), fuel, Do(op), st');
    }
  }

  /** Function `i` as called in the instrumented module: the same frame, the rewritten body. */
  lemma SimInvoke(m: Module, scratch: LocalId, f: FuncId, st: State, st': State)
    requires SourceModule(m) && SameState(m, scratch, st, st') && f < |m.funcs|
    ensures var plan, plan' := Invoke(m, f, st), Invoke(InstrumentModule(m), f, st');
            match plan
            case Immediate(o) => plan'.Immediate? && SameOutcome(m, scratch, o, plan'.o)
            case Enter(body, frame, results, base) =>
              && m.funcs[f].Local? && body == m.funcs[f].body
              && frame.stack == [] && ArgsMatch(m.funcs[f].params, Top(st.stack, |m.funcs[f].params|))
              && frame.locals == Bind(m.funcs[f].params, Top(st.stack, |m.funcs[f].params|))
              && frame.events == st.events + [Entered(f, Top(st.stack, |m.funcs[f].params|))]
              && frame.store == st.store
              && plan' == Enter(InstrumentFunc(m, f).body, frame.(events := st'.events + [frame.events[|st.events|]]),
                                results, base)
  {
    assert InstrumentModule(m).funcs[f] == InstrumentFunc(m, f);
  }

  /** What `DispatchSame` relates: the same immediate outcome, or entry to the same function. */
  ghost predicate SamePlan(m: Module, scratch: LocalId, plan: CallPlan, plan': CallPlan, f: FuncId)
    requires SourceModule(m)
  {
    match plan
    case Immediate(o) => plan'.Immediate? && SameOutcome(m, scratch, o, plan'.o)
    case Enter(body, frame, results, base) =>
      && f < |m.funcs| && m.funcs[f].Local? && body == m.funcs[f].body
      && plan'.Enter? && plan'.body == InstrumentFunc(m, f).body && plan'.results == results && plan'.base == base
      && CalleeFrames(m, f, frame, plan'.frame)
  }

  /** The frames of one call in the two modules, before either body runs. */
  ghost predicate CalleeFrames(m: Module, f: FuncId, frame: State, frame': State)
    requires SourceModule(m) && f < |m.funcs| && m.funcs[f].Local?
  {
    && |frame.events| > 0
    && frame.events[|frame.events| - 1].Entered?
    && var e := frame.events[|frame.events| - 1];
    && e.f == f && ArgsMatch(m.funcs[f].params, e.args)
    && frame.locals == Bind(m.funcs[f].params, e.args)
    && frame' == frame.(events := Weave(m, frame.events[..|frame.events| - 1]) + [e])
  }

  lemma DispatchSame(m: Module, scratch: LocalId, op: Op, st: State, st': State) returns (f: FuncId)
    requires SourceModule(m) && SameState(m, scratch, st, st')
    requires (op.Call? || op.CallDynamic?) && InstrInRange(m, Do(op))
    ensures SamePlan(m, scratch, Dispatch(m, op, st), Dispatch(InstrumentModule(m), op, st'), f)
  {
    f := 0;
    if op.Call? {
      f := op.f;
      SimInvoke(m, scratch, f, st, st');
      var plan := Invoke(m, f, st);
      if plan.Enter? {
        assert plan.frame.events[..|st.events|] == st.events;
      }
    } else if |st.stack| > 0 {
      var callee := m.engine.callee(op.table, st.stack[|st.stack| - 1], st.store);
      if callee.Some? {
        f := callee.value;
        var s, s' := st.(stack := Below(st.stack, 1)), st'.(stack := Below(st.stack, 1));
        SimInvoke(m, scratch, f, s, s');
        var plan := Invoke(m, f, s);
        if plan.Enter? {
          assert plan.frame.events[..|st.events|] == st.events;
        }
      }
    }
  }

  lemma BindFirst(params: seq<Param>, args: seq<Value>)
    requires ArgsMatch(params, args) && |params| > 0
    ensures Bind(params, args)[params[0].id] == args[0]
  {}

  lemma RewriteWrapped(p: Pass, hook: FuncId, size: LocalId, body: seq<Instr>)
    ensures RewriteSeq(p, Wrapped(hook, size, body)) == Straight([LocalGet(size), Call(hook)]) + RewriteSeq(p, body)
  {
    var w := Wrapped(hook, size, body);
    assert w[1..][1..] == body && w[1..][0] == Do(Call(hook));
    assert Rewrite(p, w[0]) == [Do(LocalGet(size))];
    assert Rewrite(p, w[1]) == [Do(Call(hook))];
    assert RewriteSeq(p, w[1..]) == [Do(Call(hook))] + RewriteSeq(p, body);
    assert Straight([LocalGet(size), Call(hook)]) == [Do(LocalGet(size)), Do(Call(hook))];
  }

  /** The two instructions at the head of `moonbit.malloc` report the local they read. */
  lemma HeadRun(m: Module, fuel: nat, hook: FuncId, x: LocalId, v: Int32, st: State)
    requires HookAt(m, hook) && x in st.locals && st.locals[x] == Num(v)
    ensures Exec(m, fuel, Straight([LocalGet(x), Call(hook)]), st) == Next(st.(events := st.events + [Hooked(v)]))
  {
    var st1 := st.(stack := st.stack + [Num(v)]);
    assert [LocalGet(x)] + [Call(hook)] == [LocalGet(x), Call(hook)];
    ExecOne(m, fuel, LocalGet(x), [Call(hook)], st);
    ExecOne(m, fuel, Call(hook), [], st1);
    HookCall(m, fuel, hook, st1);
    assert Below(st1.stack, 1) == st.stack;
  }

  lemma WeaveEntry(m: Module, f: FuncId, frame: State, frame': State)
    requires SourceModule(m) && f < |m.funcs| && m.funcs[f].Local? && CalleeFrames(m, f, frame, frame')
    ensures var e := frame.events[|frame.events| - 1];
            if FindMalloc(m.funcs) == Some(f) then
              |e.args| > 0 && e.args[0].Num? && m.funcs[f].params[0].id in frame.locals
              && frame.locals[m.funcs[f].params[0].id] == e.args[0]
              && Weave(m, frame.events) == frame'.events + [Hooked(e.args[0].n)]
            else Weave(m, frame.events) == frame'.events
  {
    var init, e := frame.events[..|frame.events| - 1], frame.events[|frame.events| - 1];
    assert frame.events == init + [e];
    WeaveSnoc(m, init, e);
    if FindMalloc(m.funcs) == Some(f) {
      BindFirst(m.funcs[f].params, e.args);
      assert TypeOf(e.args[0]) == m.funcs[f].params[0].ty;
      assert Weave(m, init) + [e, Hooked(e.args[0].n)] == frame'.events + [Hooked(e.args[0].n)];
    }
  }

  /** Entering `moonbit.malloc` reports its argument and then runs the rewritten body from the woven state. */
  lemma EnterMalloc(m: Module, fuel: nat, f: FuncId, frame: State, frame': State)
    requires SourceModule(m) && FindMalloc(m.funcs) == Some(f) && CalleeFrames(m, f, frame, frame')
    ensures Exec(InstrumentModule(m), fuel, InstrumentFunc(m, f).body, frame') ==
            Exec(InstrumentModule(m), fuel, RewriteSeq(PassFor(m, f), m.funcs[f].body),
                 frame'.(events := Weave(m, frame.events)))
  {
    var p, body, size := PassFor(m, f), m.funcs[f].body, m.funcs[f].params[0].id;
    WeaveEntry(m, f, frame, frame');
    RewriteWrapped(p, |m.funcs|, size, body);
    ExecAppend(InstrumentModule(m), fuel, Straight([LocalGet(size), Call(|m.funcs|)]), RewriteSeq(p, body), frame');
    assert HookAt(InstrumentModule(m), |m.funcs|);
    HeadRun(InstrumentModule(m), fuel, |m.funcs|, size, frame.events[|frame.events| - 1].args[0].n, frame');
  }

  lemma LocalsBeforeMonotone(funcs: seq<Func>, i: nat, j: nat)
    requires i <= j <= |funcs|
    ensures LocalsBefore(funcs, i) <= LocalsBefore(funcs, j)
    decreases j
  {
    if i < j {
      LocalsBeforeMonotone(funcs, i, j - 1);
    }
  }

  /** Simulation of a whole body, entered by a call. */
  lemma {:induction false} SimBody(m: Module, fuel: nat, f: FuncId, frame: State, frame': State)
    requires SourceModule(m) && f < |m.funcs| && m.funcs[f].Local? && CalleeFrames(m, f, frame, frame')
    ensures SameOutcome(m, PassFor(m, f).scratch, Exec(m, fuel, m.funcs[f].body, frame),
                        Exec(InstrumentModule(m), fuel, InstrumentFunc(m, f).body, frame'))
    decreases fuel, m.funcs[f].body, 2
  {
    hide Exec;
    hide Weave;
    hide FindMalloc;
    hide SameOutcome;
    var scratch, body := PassFor(m, f).scratch, m.funcs[f].body;
    LocalsBeforeMonotone(m.funcs, f + 1, |m.funcs|);
    var entered := frame'.(events := Weave(m, frame.events));
    WeaveEntry(m, f, frame, frame');
    if FindMalloc(m.funcs) == Some(f) {
      EnterMalloc(m, fuel, f, frame, frame');
    }
    SimExec(m, fuel, scratch, body, frame, entered);
  }

  /** Simulation of a sequence. */
  lemma {:induction false} SimExec(m: Module, fuel: nat, scratch: LocalId, code: seq<Instr>, st: State, st': State)
    requires SourceModule(m) && ScratchOf(m, scratch) && InRange(m, code) && SameState(m, scratch, st, st')
    ensures SameOutcome(m, scratch, Exec(m, fuel, code, st),
                        Exec(InstrumentModule(m), fuel, RewriteSeq(Using(m, scratch), code), st'))
    decreases fuel, code, 0
  {
    hide SourceModule;
    hide InstrumentModule;
    hide Weave;
    if code != [] {
      var m', p := InstrumentModule(m), Using(m, scratch);
      SimStep(m, fuel, scratch, code[0], st, st');
      ExecAppend(m', fuel, Rewrite(p, code[0]), RewriteSeq(p, code[1..]), st');
      var o, o' := Step(m, fuel, code[0], st), Exec(m', fuel, Rewrite(p, code[0]), st');
      if o.Next? {
        SimExec(m, fuel, scratch, code[1..], o.st, o'.st);
      }
    }
  }

  /** Simulation of one instruction by its rewriting. */
  lemma {:induction false} SimStep(m: Module, fuel: nat, scratch: LocalId, i: Instr, st: State, st': State)
    requires SourceModule(m) && ScratchOf(m, scratch) && InstrInRange(m, i) && SameState(m, scratch, st, st')
    ensures SameOutcome(m, scratch, Step(m, fuel, i, st),
                        Exec(InstrumentModule(m), fuel, Rewrite(Using(m, scratch), i), st'))
    decreases fuel, i, 1
  {
    hide SourceModule;
    hide InstrumentModule;
    hide Weave;
    hide FinishBlock;
    hide FinishCall;
    var m', p := InstrumentModule(m), Using(m, scratch);
    match i
    case Do(op) =>
      if op.Call? || op.CallDynamic? {
        SimCall(m, fuel, scratch, op, st, st');
      } else {
        SimOp(m, fuel, scratch, op, st, st');
      }
    case Block(bt, body) =>
      ExecSingle(m', fuel, Block(bt, RewriteSeq(p, body)), st');
      if |st.stack| >= bt.params {
        var top := Top(st.stack, bt.params);
        SimExec(m, fuel, scratch, body, st.(stack := top), st'.(stack := top));
        FinishBlockSame(m, scratch, Exec(m, fuel, body, st.(stack := top)),
                        Exec(m', fuel, RewriteSeq(p, body), st'.(stack := top)), bt.results,
                        Below(st.stack, bt.params));
      }
    case IfElse(bt, thn, els) =>
      ExecSingle(m', fuel, IfElse(bt, RewriteSeq(p, thn), RewriteSeq(p, els)), st');
      if IsNum(st.stack) && |st.stack| - 1 >= bt.params {
        var s := Below(st.stack, 1);
        var top := Top(s, bt.params);
        var taken := if st.stack[|st.stack| - 1].n != 0 then thn else els;
        SimExec(m, fuel, scratch, taken, st.(stack := top), st'.(stack := top));
        FinishBlockSame(m, scratch, Exec(m, fuel, taken, st.(stack := top)),
                        Exec(m', fuel, RewriteSeq(p, taken), st'.(stack := top)), bt.results, Below(s, bt.params));
      }
    case Loop(bt, body) =>
      SimLoop(m, fuel, scratch, bt, body, st, st');
  }

  lemma {:induction false} SimLoop(m: Module, fuel: nat, scratch: LocalId, bt: BlockType, body: seq<Instr>, st: State,
                                   st': State)
    requires SourceModule(m) && ScratchOf(m, scratch) && InRange(m, body) && SameState(m, scratch, st, st')
    ensures SameOutcome(m, scratch, Step(m, fuel, Loop(bt, body), st),
                        Exec(InstrumentModule(m), fuel, Rewrite(Using(m, scratch), Loop(bt, body)), st'))
    decreases fuel, Loop(bt, body), 0
  {
    hide SourceModule;
    hide InstrumentModule;
    hide InRange;
    hide Prefix;
    hide ScratchOf;
    hide Weave;
    hide NextIteration;
    var m', p := InstrumentModule(m), Using(m, scratch);
    var loop := Loop(bt, RewriteSeq(p, body));
    ExecSingle(m', fuel, loop, st');
    if |st.stack| >= bt.params && fuel > 0 {
      var base, top := Below(st.stack, bt.params), Top(st.stack, bt.params);
      SimExec(m, fuel, scratch, body, st.(stack := top), st'.(stack := top));
      var o := Exec(m, fuel, body, st.(stack := top));
      var o' := Exec(m', fuel, RewriteSeq(p, body), st'.(stack := top));
      NextIterationSame(m, scratch, o, o', bt, base);
      var again, again' := NextIteration(o, bt, base), NextIteration(o', bt, base);
      if again.Ok? {
        SimStep(m, fuel - 1, scratch, Loop(bt, body), again.value, again'.value);
        ExecSingle(m', fuel - 1, loop, again'.value);
      }
    }
  }

  lemma {:induction false} SimCall(m: Module, fuel: nat, scratch: LocalId, op: Op, st: State, st': State)
    requires SourceModule(m) && ScratchOf(m, scratch) && SameState(m, scratch, st, st')
    requires (op.Call? || op.CallDynamic?) && InstrInRange(m, Do(op))
    ensures SameOutcome(m, scratch, Step(m, fuel, Do(op), st),
                        Exec(InstrumentModule(m), fuel, Rewrite(Using(m, scratch), Do(op)), st'))
    decreases fuel, Do(op), 0
  {
    hide SourceModule;
    hide InstrumentModule;
    hide Weave;
    hide FinishBlock;
    hide FinishCall;
    var m' := InstrumentModule(m);
    assert Straight([]) + [Do(op)] == [Do(op)];
    ExecSingle(m', fuel, Do(op), st');
    var f := DispatchSame(m, scratch, op, st, st');
    var plan, plan' := Dispatch(m, op, st), Dispatch(m', op, st');
    if plan.Enter? && fuel > 0 {
      SimBody(m, fuel - 1, f, plan.frame, plan'.frame);
      FinishCallSame(m, scratch, PassFor(m, f).scratch, Exec(m, fuel - 1, plan.body, plan.frame),
                     Exec(m', fuel - 1, plan'.body, plan'.frame), plan.results, plan.base, st, st');
    }
  }

  // ---------------------------------------------------------- main results

  /** A run from outside: an exported function applied to arguments in a store. */
  function Run(m: Module, fuel: nat, f: FuncId, args: seq<Value>, store: Store): Outcome {
    Step(m, fuel, Do(Call(f)), State(args, map[], store, []))
  }

  /** What a caller outside the module sees of an outcome. */
  datatype Observation =
    | Finished(results: seq<Value>, store: Store)
    | Trapped(store: Store)
    | Running(store: Store)
    | Invalid

  function Observe(o: Outcome): Observation {
    match o
    case Next(st) => Finished(st.stack, st.store)
    case Trap(store, _) => Trapped(store)
    case Suspended(store, _) => Running(store)
    case _ => Invalid
  }

  function EventsOf(o: Outcome): seq<Event> {
    match o
    case Next(st) => st.events
    case Branch(_, st) => st.events
    case Returned(st) => st.events
    case Trap(_, events) => events
    case Suspended(_, events) => events
    case Stuck => []
  }

  lemma SeenAlike(m: Module, scratch: LocalId, o: Outcome, o': Outcome)
    requires SourceModule(m) && SameOutcome(m, scratch, o, o')
    ensures Observe(o') == Observe(o) && EventsOf(o') == Weave(m, EventsOf(o))
  {
    hide SourceModule;
  }

  lemma StartsSame(m: Module, scratch: LocalId, st: State)
    requires SourceModule(m) && scratch !in st.locals && st.events == []
    ensures SameState(m, scratch, st, st)
  {
    hide SourceModule;
  }

  lemma HostStep(m: Module, fuel: nat, f: FuncId, st: State)
    requires f < |m.funcs| && m.funcs[f].Host?
    ensures Step(m, fuel, Do(Call(f)), st) ==
            var n := m.funcs[f].arity;
            if |st.stack| < n then Stuck
            else Resume(m.engine.host(f, Top(st.stack, n), st.store), Below(st.stack, n), st)
  {
    hide Exec;
  }

  lemma HostKept(m: Module, f: FuncId)
    requires SourceModule(m) && f < |m.funcs| && LocalsBefore(m.funcs, |m.funcs|) == 0
    ensures m.funcs[f].Host?
    ensures var m' := InstrumentModule(m); f < |m'.funcs| && m'.funcs[f] == m.funcs[f] && m'.engine == m.engine
  {
    hide FindMalloc;
    LocalsBeforeMonotone(m.funcs, f + 1, |m.funcs|);
  }

  /** Without local functions nothing is rewritten. */
  lemma NoLocalsRun(m: Module, fuel: nat, f: FuncId, args: seq<Value>, store: Store)
    requires SourceModule(m) && f < |m.funcs| && LocalsBefore(m.funcs, |m.funcs|) == 0
    ensures var o, o' := Run(m, fuel, f, args, store), Run(InstrumentModule(m), fuel, f, args, store);
            Observe(o') == Observe(o) && EventsOf(o') == Weave(m, EventsOf(o))
  {
    hide SourceModule;
    hide InstrumentModule;
    hide LocalsBefore;
    hide Step;
    var st := State(args, map[], store, []);
    HostKept(m, f);
    HostStep(m, fuel, f, st);
    HostStep(InstrumentModule(m), fuel, f, st);
  }

  /** For every module, function, argument list, store and amount of fuel, the
      instrumented run is seen to do what the original does, and its events
      are the original events with the owed hook calls woven in. */
  lemma InstrumentationPreservesRuns(m: Module, fuel: nat, f: FuncId, args: seq<Value>, store: Store)
    requires SourceModule(m) && f < |m.funcs|
    ensures var o, o' := Run(m, fuel, f, args, store), Run(InstrumentModule(m), fuel, f, args, store);
            Observe(o') == Observe(o) && EventsOf(o') == Weave(m, EventsOf(o))
  {
    hide Step;
    hide Exec;
    hide SourceModule;
    hide Weave;
    hide Observe;
    hide EventsOf;
    hide SameOutcome;
    hide SameState;
    hide LocalsBefore;
    if LocalsBefore(m.funcs, |m.funcs|) > 0 {
      var st, m', call, scratch := State(args, map[], store, []), InstrumentModule(m), Call(f), |m.localTypes|;
      StartsSame(m, scratch, st);
      SimStep(m, fuel, scratch, Do(call), st, st);
      assert Straight([]) + [Do(call)] == [Do(call)];
      ExecSingle(m', fuel, Do(call), st);
      SeenAlike(m, scratch, Step(m, fuel, Do(call), st), Step(m', fuel, Do(call), st));
    } else {
      NoLocalsRun(m, fuel, f, args, store);
    }
  }

  /** What the outcome of a call shows: how it ended, its results, the store it leaves and its events. */
  lemma RunsAlike(m: Module, fuel: nat, f: FuncId, args: seq<Value>, store: Store)
    requires SourceModule(m) && f < |m.funcs|
    ensures var o, o' := Run(m, fuel, f, args, store), Run(InstrumentModule(m), fuel, f, args, store);
            && (o.Next? ==> o'.Next? && o'.st.stack == o.st.stack && o'.st.store == o.st.store
                            && o'.st.events == Weave(m, o.st.events))
            && (o.Trap? ==> o' == Trap(o.store, Weave(m, o.events)))
            && (o.Suspended? ==> o' == Suspended(o.store, Weave(m, o.events)))
            && (o.Stuck? ==> !o'.Next? && !o'.Trap? && !o'.Suspended?)
  {
    hide InstrumentModule;
    hide SourceModule;
    hide Weave;
    hide Run;
    InstrumentationPreservesRuns(m, fuel, f, args, store);
  }

  /** The sizes handed to the hook, in order. */
  function HookSizes(events: seq<Event>): seq<Int32> {
    if events == [] then []
    else
      var e := events[|events| - 1];
      HookSizes(events[..|events| - 1]) + if e.Hooked? then [e.size] else []
  }

  /** The sizes the profile promises for a run of the original module: one per
      allocation of known positive size, one per entry to `moonbit.malloc`. */
  function PromisedSizes(m: Module, events: seq<Event>): seq<Int32> {
    if events == [] then []
    else PromisedSizes(m, events[..|events| - 1]) + PromisedFor(m, events[|events| - 1])
  }

  function PromisedFor(m: Module, e: Event): seq<Int32> {
    match e
    case Allocated(a, len) =>
      var size := ReportedSize(m.types, a, len);
      if size.Some? then [size.value] else []
    case Entered(f, args) =>
      if FindMalloc(m.funcs) == Some(f) && |args| > 0 && args[0].Num? then [args[0].n] else []
    case Hooked(_) => []
  }

  function EraseHooks(events: seq<Event>): seq<Event> {
    if events == [] then []
    else
      var e := events[|events| - 1];
      EraseHooks(events[..|events| - 1]) + if e.Hooked? then [] else [e]
  }

  lemma {:induction false} HookSizesAppend(a: seq<Event>, b: seq<Event>)
    ensures HookSizes(a + b) == HookSizes(a) + HookSizes(b)
  {
    if b == [] {
      assert a + b == a;
    } else {
      assert (a + b)[..|a + b| - 1] == a + b[..|b| - 1];
      HookSizesAppend(a, b[..|b| - 1]);
    }
  }

  lemma {:induction false} EraseHooksAppend(a: seq<Event>, b: seq<Event>)
    ensures EraseHooks(a + b) == EraseHooks(a) + EraseHooks(b)
  {
    if b == [] {
      assert a + b == a;
    } else {
      assert (a + b)[..|a + b| - 1] == a + b[..|b| - 1];
      EraseHooksAppend(a, b[..|b| - 1]);
    }
  }

  ghost predicate NoHooks(events: seq<Event>) {
    forall e :: e in events ==> !e.Hooked?
  }

  lemma WeaveOneIsExact(m: Module, e: Event)
    requires !e.Hooked?
    ensures HookSizes(WeaveOne(m, e)) == PromisedFor(m, e)
    ensures EraseHooks(WeaveOne(m, e)) == [e]
  {
    var w := WeaveOne(m, e);
    if |w| == 2 {
      assert w == [w[0]] + [w[1]];
      HookSizesAppend([w[0]], [w[1]]);
      EraseHooksAppend([w[0]], [w[1]]);
    }
  }

  /** The woven events carry exactly the promised sizes. */
  lemma {:induction false} WeaveCarriesPromised(m: Module, events: seq<Event>)
    requires NoHooks(events)
    ensures HookSizes(Weave(m, events)) == PromisedSizes(m, events)
  {
    hide WeaveOne;
    hide PromisedFor;
    if events != [] {
      var init, e := events[..|events| - 1], events[|events| - 1];
      WeaveCarriesPromised(m, init);
      HookSizesAppend(Weave(m, init), WeaveOne(m, e));
      WeaveOneIsExact(m, e);
    }
  }

  /** Nothing but hook calls was added. */
  lemma {:induction false} WeaveAddsHooksOnly(m: Module, events: seq<Event>)
    requires NoHooks(events)
    ensures EraseHooks(Weave(m, events)) == events
  {
    if events != [] {
      hide Weave;
      hide WeaveOne;
      hide EraseHooks;
      var init, e := events[..|events| - 1], events[|events| - 1];
      assert events == init + [e];
      WeaveAddsHooksOnly(m, init);
      WeaveSnoc(m, init, e);
      EraseHooksAppend(Weave(m, init), WeaveOne(m, e));
      WeaveOneIsExact(m, e);
    }
  }

  /** A module without the hook never reports anything. */
  lemma {:induction false} NeverHooked(m: Module, fuel: nat, code: seq<Instr>, st: State)
    requires SourceModule(m) && NoHooks(st.events)
    ensures NoHooks(EventsOf(Exec(m, fuel, code, st)))
    decreases fuel, code, 0
  {
    if code != [] {
      NeverHookedStep(m, fuel, code[0], st);
      var o := Step(m, fuel, code[0], st);
      if o.Next? {
        NeverHooked(m, fuel, code[1..], o.st);
      }
    }
  }

  lemma NeverHookedPlan(m: Module, op: Op, st: State)
    requires SourceModule(m) && NoHooks(st.events) && (op.Call? || op.CallDynamic?)
    ensures var plan := Dispatch(m, op, st);
            if plan.Immediate? then NoHooks(EventsOf(plan.o)) else NoHooks(plan.frame.events)
  {}

  lemma FinishAddsNothing(o: Outcome, n: nat, base: seq<Value>, st: State)
    requires NoHooks(EventsOf(o))
    ensures NoHooks(EventsOf(FinishBlock(o, n, base))) && NoHooks(EventsOf(FinishCall(o, n, base, st)))
  {}

  lemma NeverHookedOp(m: Module, op: Op, st: State)
    requires NoHooks(st.events) && !op.Call? && !op.CallDynamic?
    ensures NoHooks(EventsOf(StepOp(m, op, st)))
  {}

  lemma {:induction false} NeverHookedStep(m: Module, fuel: nat, i: Instr, st: State)
    requires SourceModule(m) && NoHooks(st.events)
    ensures NoHooks(EventsOf(Step(m, fuel, i, st)))
    decreases fuel, i, 1
  {
    hide SourceModule;
    hide StepOp;
    hide FinishBlock;
    hide FinishCall;
    hide NoHooks;
    match i
    case Do(op) =>
      if op.Call? || op.CallDynamic? {
        NeverHookedPlan(m, op, st);
        var plan := Dispatch(m, op, st);
        if plan.Enter? && fuel > 0 {
          NeverHooked(m, fuel - 1, plan.body, plan.frame);
          FinishAddsNothing(Exec(m, fuel - 1, plan.body, plan.frame), plan.results, plan.base, st);
        }
      } else {
        NeverHookedOp(m, op, st);
      }
    case Block(bt, body) =>
      if |st.stack| >= bt.params {
        var st1 := st.(stack := Top(st.stack, bt.params));
        NeverHooked(m, fuel, body, st1);
        FinishAddsNothing(Exec(m, fuel, body, st1), bt.results, Below(st.stack, bt.params), st);
      } else {
        NothingYet();
      }
    case IfElse(bt, thn, els) =>
      if IsNum(st.stack) && |st.stack| - 1 >= bt.params {
        var st1 := st.(stack := Top(Below(st.stack, 1), bt.params));
        var taken := if st.stack[|st.stack| - 1].n != 0 then thn else els;
        NeverHooked(m, fuel, taken, st1);
        FinishAddsNothing(Exec(m, fuel, taken, st1), bt.results, Below(Below(st.stack, 1), bt.params), st);
      } else {
        NothingYet();
      }
    case Loop(bt, body) =>
      NeverHookedLoop(m, fuel, bt, body, st);
  }

  lemma NothingYet()
    ensures NoHooks([])
  {}

  lemma {:induction false} NeverHookedLoop(m: Module, fuel: nat, bt: BlockType, body: seq<Instr>, st: State)
    requires SourceModule(m) && NoHooks(st.events)
    ensures NoHooks(EventsOf(Step(m, fuel, Loop(bt, body), st)))
    decreases fuel, Loop(bt, body), 0
  {
    hide SourceModule;
    if |st.stack| >= bt.params && fuel > 0 {
      NeverHooked(m, fuel, body, st.(stack := Top(st.stack, bt.params)));
      var o := Exec(m, fuel, body, st.(stack := Top(st.stack, bt.params)));
      var again := NextIteration(o, bt, Below(st.stack, bt.params));
      if again.Ok? {
        NeverHookedStep(m, fuel - 1, Loop(bt, body), again.value);
      }
    }
  }

  /** Hook trace exactness: in every run the hook receives, in execution order, the promised sizes and no
      others; erasing the hook calls gives back the original run's events. */
  lemma HookTraceIsExact(m: Module, fuel: nat, f: FuncId, args: seq<Value>, store: Store)
    requires SourceModule(m) && f < |m.funcs|
    ensures var events, events' := EventsOf(Run(m, fuel, f, args, store)),
                                   EventsOf(Run(InstrumentModule(m), fuel, f, args, store));
            HookSizes(events') == PromisedSizes(m, events) && EraseHooks(events') == events
  {
    InstrumentationPreservesRuns(m, fuel, f, args, store);
    NeverHookedStep(m, fuel, Do(Call(f)), State(args, map[], store, []));
    WeaveCarriesPromised(m, EventsOf(Run(m, fuel, f, args, store)));
    WeaveAddsHooksOnly(m, EventsOf(Run(m, fuel, f, args, store)));
  }
}
