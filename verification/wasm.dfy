/** A structured stack machine for the part of WebAssembly the allocation
    profiler rewrites: control, locals and calls as in section 4.4 of the
    WebAssembly Core Specification 2.0, and the struct/array allocation
    opcodes of the GC extension.

    Everything an instruction may do without touching control or locals is a
    parameter of the module (`Engine`), so a statement about every module is
    also a statement about every engine. */
module Wasm {
  import opened Wrappers

  type Int32 = x: int | -0x8000_0000 <= x < 0x8000_0000

  type LocalId = nat
  type FuncId = nat
  type TypeId = nat

  /** Two's complement truncation, as `i32.mul` and Rust's `as i32` perform it. */
  function Wrap32(x: int): Int32 {
    (x + 0x8000_0000) % 0x1_0000_0000 - 0x8000_0000
  }

  /** The result is the only 32-bit integer congruent to the argument modulo 2^32. */
  lemma WrapMeans(x: int, y: Int32)
    ensures (x - Wrap32(x)) % 0x1_0000_0000 == 0
    ensures y == Wrap32(x) <==> (x - y) % 0x1_0000_0000 == 0
  {
    var r := Wrap32(x);
    assert x - r == 0x1_0000_0000 * ((x + 0x8000_0000) / 0x1_0000_0000);
    if (x - y) % 0x1_0000_0000 == 0 {
      assert r - y == 0x1_0000_0000 * ((x - y) / 0x1_0000_0000 - (x - r) / 0x1_0000_0000);
    }
  }

  /** Wrapping inside a sum or a product changes nothing. */
  lemma WrapInside(a: int, b: int)
    ensures Wrap32(Wrap32(a) + b) == Wrap32(a + b) && Wrap32(b * Wrap32(a)) == Wrap32(b * a)
  {
    var m, w := 0x1_0000_0000, Wrap32(a);
    WrapMeans(a, w);
    var k := (a - w) / m;
    assert a == w + m * k;
    SameWrap(w + b, a + b, -k);
    assert b * a == b * w + m * (b * k) by { assert b * (m * k) == m * (b * k); }
    SameWrap(b * w, b * a, -(b * k));
  }

  lemma SameWrap(x: int, y: int, k: int)
    requires x == y + 0x1_0000_0000 * k
    ensures Wrap32(x) == Wrap32(y)
  {
    assert x - Wrap32(y) == 0x1_0000_0000 * (k + (y + 0x8000_0000) / 0x1_0000_0000);
    WrapMeans(x, Wrap32(y));
  }

  datatype OtherType = I64 | F32 | F64 | V128 | RefType

  datatype ValType = I32 | Other(kind: OtherType)

  datatype Value = Num(n: Int32) | Opaque(kind: OtherType, bits: int)

  function TypeOf(v: Value): ValType {
    if v.Num? then I32 else Other(v.kind)
  }

  function Default(t: ValType): Value {
    if t.I32? then Num(0) else Opaque(t.kind, 0)
  }

  datatype Storage = Int8 | Int16 | Full(t: ValType)

  /** Bits of a packed, numeric or vector type; a reference has no width of its own. */
  function BitWidth(s: Storage): Option<nat> {
    match s
    case Int8 => Some(8)
    case Int16 => Some(16)
    case Full(I32) => Some(32)
    case Full(Other(F32)) => Some(32)
    case Full(Other(I64)) => Some(64)
    case Full(Other(F64)) => Some(64)
    case Full(Other(V128)) => Some(128)
    case Full(Other(RefType)) => None
  }

  datatype TypeDef = StructType(fields: seq<Storage>) | ArrayType(elem: Storage) | FuncType

  datatype AllocOp =
    | StructNew(ty: TypeId)
    | StructNewDefault(ty: TypeId)
    | ArrayNewFixed(ty: TypeId, len: nat)
    | ArrayNew(ty: TypeId)
    | ArrayNewDefault(ty: TypeId)
    | ArrayNewData(ty: TypeId, segment: nat)
    | ArrayNewElem(ty: TypeId, segment: nat)

  /** The operands an allocation pops; None when its type index has the wrong kind. */
  function Operands(types: seq<TypeDef>, a: AllocOp): Option<nat> {
    if a.ty >= |types| then None
    else match a
      case StructNew(ty) => if types[ty].StructType? then Some(|types[ty].fields|) else None
      case StructNewDefault(ty) => if types[ty].StructType? then Some(0) else None
      case ArrayNewFixed(ty, n) => if types[ty].ArrayType? then Some(n) else None
      case ArrayNewDefault(ty) => if types[ty].ArrayType? then Some(1) else None
      case _ => if types[a.ty].ArrayType? then Some(2) else None
  }

  /** Opcodes whose element count is the top of the operand stack. */
  predicate TakesLength(a: AllocOp) {
    a.ArrayNew? || a.ArrayNewDefault? || a.ArrayNewData? || a.ArrayNewElem?
  }

  /** Instructions without nested sequences. */
  datatype Op =
    | Const(v: Value)
    | LocalGet(x: LocalId)
    | LocalSet(x: LocalId)
    | LocalTee(x: LocalId)
    | I32Mul
    | Call(f: FuncId)
    | CallDynamic(table: nat)      // call_indirect, call_ref
    | Alloc(a: AllocOp)
    | Plain(code: nat)             // touches the operand stack and the store only, and may branch (br_on_*)
    | Br(depth: nat)
    | BrIf(depth: nat)
    | BrTable(depths: seq<nat>, default: nat)
    | Return
    | Unreachable

  datatype BlockType = BlockType(params: nat, results: nat)

  datatype Instr =
    | Do(op: Op)
    | Block(bt: BlockType, body: seq<Instr>)
    | Loop(bt: BlockType, body: seq<Instr>)
    | IfElse(bt: BlockType, consequent: seq<Instr>, alternative: seq<Instr>)

  datatype Object = Object(ty: TypeId, contents: seq<Value>)

  datatype Store = Store(heap: seq<Object>, globals: seq<Value>, memory: seq<int>)

  datatype OpResult = Done(values: seq<Value>, store: Store) | Traps(store: Store)

  datatype PlainResult = Falls(r: OpResult) | Jumps(depth: nat, values: seq<Value>, store: Store)

  /** `plain` maps the whole operand stack, and may jump; `host` and `alloc` map operands to results. */
  datatype Engine = Engine(
    plain: (nat, seq<Value>, Store) -> PlainResult,
    host: (FuncId, seq<Value>, Store) -> OpResult,
    alloc: (AllocOp, seq<Value>, Store) -> OpResult,
    callee: (nat, Value, Store) -> Option<FuncId>)

  datatype Param = Param(id: LocalId, ty: ValType)

  datatype Func =
    | Local(name: Option<string>, params: seq<Param>, results: nat, body: seq<Instr>)
    | Host(name: Option<string>, arity: nat)
    | Hook                           // moonbit_profile.alloc_hook

  datatype Module = Module(types: seq<TypeDef>, localTypes: seq<ValType>, funcs: seq<Func>, engine: Engine)

  /** What a run can be observed to do, in execution order. */
  datatype Event =
    | Allocated(a: AllocOp, len: Int32)    // an allocation opcode starts executing
    | Entered(f: FuncId, args: seq<Value>) // a local function is entered
    | Hooked(size: Int32)                  // the hook is called with `size`

  datatype State = State(stack: seq<Value>, locals: map<LocalId, Value>, store: Store, events: seq<Event>)

  /** `Suspended` is a run cut off when its fuel is spent; `Stuck` is what validation rules out. */
  datatype Outcome =
    | Next(st: State)
    | Branch(depth: nat, st: State)
    | Returned(st: State)
    | Trap(store: Store, events: seq<Event>)
    | Suspended(store: Store, events: seq<Event>)
    | Stuck

  function Top(s: seq<Value>, n: nat): seq<Value>
    requires n <= |s|
  {
    s[|s| - n..]
  }

  function Below(s: seq<Value>, n: nat): seq<Value>
    requires n <= |s|
  {
    s[..|s| - n]
  }

  predicate IsNum(s: seq<Value>) {
    |s| > 0 && s[|s| - 1].Num?
  }

  function ReadLocal(m: Module, x: LocalId, st: State): Option<Value> {
    if x in st.locals then Some(st.locals[x])
    else if x < |m.localTypes| then Some(Default(m.localTypes[x]))
    else None
  }

  function Resume(r: OpResult, base: seq<Value>, st: State): Outcome {
    match r
    case Done(vs, store) => Next(st.(stack := base + vs, store := store))
    case Traps(store) => Trap(store, st.events)
  }

  /** Allocation: log the event, then let the engine allocate or trap. */
  function StepAlloc(m: Module, a: AllocOp, st: State): Outcome {
    var n := Operands(m.types, a);
    if n.None? || |st.stack| < n.value || (TakesLength(a) && !IsNum(st.stack)) then Stuck
    else
      var len := if TakesLength(a) then st.stack[|st.stack| - 1].n else 0;
      var st1 := st.(events := st.events + [Allocated(a, len)]);
      Resume(m.engine.alloc(a, Top(st.stack, n.value), st.store), Below(st.stack, n.value), st1)
  }

  /** The frame a call starts in: parameters bound in order. */
  function Bind(params: seq<Param>, args: seq<Value>): (locals: map<LocalId, Value>)
    requires |params| == |args|
    ensures locals.Keys == set p | p in params :: p.id
  {
    if params == [] then map[] else Bind(params[1..], args[1..])[params[0].id := args[0]]
  }

  predicate ArgsMatch(params: seq<Param>, args: seq<Value>) {
    |params| == |args| && forall i :: 0 <= i < |args| ==> TypeOf(args[i]) == params[i].ty
  }

  /** A callee's outcome seen by its caller: results go onto the caller's stack. The body stands under a label of its
      own, so a branch to it ends the call as a return does. */
  function FinishCall(o: Outcome, results: nat, base: seq<Value>, st: State): Outcome {
    match o
    case Next(s) =>
      if |s.stack| < results then Stuck
      else Next(State(base + Top(s.stack, results), st.locals, s.store, s.events))
    case Returned(s) =>
      if |s.stack| < results then Stuck
      else Next(State(base + Top(s.stack, results), st.locals, s.store, s.events))
    case Branch(depth, s) =>
      if depth > 0 || |s.stack| < results then Stuck
      else Next(State(base + Top(s.stack, results), st.locals, s.store, s.events))
    case _ => o
  }

  /** A body's outcome seen by the block around it: branches to the block's own label end it. */
  function FinishBlock(o: Outcome, arity: nat, base: seq<Value>): Outcome {
    match o
    case Next(s) => Next(s.(stack := base + s.stack))
    case Branch(depth, s) =>
      if depth > 0 then Branch(depth - 1, s)
      else if |s.stack| < arity then Stuck
      else Next(s.(stack := base + Top(s.stack, arity)))
    case _ => o
  }

  /** A loop body's outcome: a branch to the loop's own label starts the next iteration. */
  function NextIteration(o: Outcome, bt: BlockType, base: seq<Value>): Result<State, Outcome> {
    if o.Branch? && o.depth == 0 then
      if |o.st.stack| < bt.params then Err(Stuck) else Ok(o.st.(stack := base + Top(o.st.stack, bt.params)))
    else Err(FinishBlock(o, bt.results, base))
  }

  /** The indexed label; an index out of range, read as unsigned, takes the default. */
  function Selected(depths: seq<nat>, default: nat, index: Int32): nat {
    if 0 <= index < |depths| then depths[index] else default
  }

  /** Straight-line instructions other than calls. */
  function StepOp(m: Module, op: Op, st: State): Outcome
    requires !op.Call? && !op.CallDynamic?
  {
    var s := st.stack;
    match op
    case Const(v) => Next(st.(stack := s + [v]))
    case LocalGet(x) =>
      var v := ReadLocal(m, x, st);
      if v.None? then Stuck else Next(st.(stack := s + [v.value]))
    case LocalSet(x) =>
      if |s| == 0 || x >= |m.localTypes| then Stuck
      else Next(st.(stack := Below(s, 1), locals := st.locals[x := s[|s| - 1]]))
    case LocalTee(x) =>
      if |s| == 0 || x >= |m.localTypes| then Stuck
      else Next(st.(locals := st.locals[x := s[|s| - 1]]))
    case I32Mul =>
      if |s| < 2 || !s[|s| - 1].Num? || !s[|s| - 2].Num? then Stuck
      else Next(st.(stack := Below(s, 2) + [Num(Wrap32(s[|s| - 2].n * s[|s| - 1].n))]))
    case Alloc(a) => StepAlloc(m, a, st)
    case Plain(code) =>
      (match m.engine.plain(code, s, st.store)
       case Falls(r) => Resume(r, [], st)
       case Jumps(depth, values, store) => Branch(depth, st.(stack := values, store := store)))
    case Br(depth) => Branch(depth, st)
    case BrIf(depth) =>
      if !IsNum(s) then Stuck
      else if s[|s| - 1].n != 0 then Branch(depth, st.(stack := Below(s, 1)))
      else Next(st.(stack := Below(s, 1)))
    case BrTable(depths, default) =>
      if !IsNum(s) then Stuck
      else Branch(Selected(depths, default, s[|s| - 1].n), st.(stack := Below(s, 1)))
    case Return => Returned(st)
    case Unreachable => Trap(st.store, st.events)
  }

  /** What a call comes to: an outcome at once, or a body to run in a new frame. */
  datatype CallPlan =
    | Immediate(o: Outcome)
    | Enter(body: seq<Instr>, frame: State, results: nat, base: seq<Value>)

  function Invoke(m: Module, f: FuncId, st: State): CallPlan {
    if f >= |m.funcs| then Immediate(Stuck)
    else match m.funcs[f]
      case Hook =>
        if !IsNum(st.stack) then Immediate(Stuck)
        else Immediate(Next(st.(stack := Below(st.stack, 1),
                                events := st.events + [Hooked(st.stack[|st.stack| - 1].n)])))
      case Host(_, arity) =>
        if |st.stack| < arity then Immediate(Stuck)
        else Immediate(Resume(m.engine.host(f, Top(st.stack, arity), st.store), Below(st.stack, arity), st))
      case Local(_, params, results, body) =>
        if |st.stack| < |params| || !ArgsMatch(params, Top(st.stack, |params|)) then Immediate(Stuck)
        else
          var args := Top(st.stack, |params|);
          Enter(body, State([], Bind(params, args), st.store, st.events + [Entered(f, args)]),
                results, Below(st.stack, |params|))
  }

  /** Direct calls, and calls through a table or reference, which trap when it holds no function. */
  function Dispatch(m: Module, op: Op, st: State): CallPlan
    requires op.Call? || op.CallDynamic?
  {
    if op.Call? then Invoke(m, op.f, st)
    else if |st.stack| == 0 then Immediate(Stuck)
    else
      var f := m.engine.callee(op.table, st.stack[|st.stack| - 1], st.store);
      if f.None? then Immediate(Trap(st.store, st.events))
      else Invoke(m, f.value, st.(stack := Below(st.stack, 1)))
  }

  /** Runs a sequence. Fuel bounds the depth of calls and loop iterations; straight-line code is free. */
  function Exec(m: Module, fuel: nat, code: seq<Instr>, st: State): Outcome
    decreases fuel, code, 0
  {
    if code == [] then Next(st)
    else
      var o := Step(m, fuel, code[0], st);
      if o.Next? then Exec(m, fuel, code[1..], o.st) else o
  }

  function Step(m: Module, fuel: nat, i: Instr, st: State): Outcome
    decreases fuel, i, 1
  {
    match i
    case Do(op) =>
      if op.Call? || op.CallDynamic? then
        match Dispatch(m, op, st)
        case Immediate(o) => o
        case Enter(body, frame, results, base) =>
          if fuel == 0 then Suspended(st.store, st.events)
          else FinishCall(Exec(m, fuel - 1, body, frame), results, base, st)
      else StepOp(m, op, st)
    case Block(bt, body) =>
      if |st.stack| < bt.params then Stuck
      else FinishBlock(Exec(m, fuel, body, st.(stack := Top(st.stack, bt.params))), bt.results,
                       Below(st.stack, bt.params))
    case IfElse(bt, thn, els) =>
      if !IsNum(st.stack) || |st.stack| - 1 < bt.params then Stuck
      else
        var s := Below(st.stack, 1);
        var st1 := st.(stack := Top(s, bt.params));
        var o := if st.stack[|st.stack| - 1].n != 0 then Exec(m, fuel, thn, st1) else Exec(m, fuel, els, st1);
        FinishBlock(o, bt.results, Below(s, bt.params))
    case Loop(bt, body) =>
      if |st.stack| < bt.params then Stuck
      else if fuel == 0 then Suspended(st.store, st.events)
      else
        var base := Below(st.stack, bt.params);
        match NextIteration(Exec(m, fuel, body, st.(stack := Top(st.stack, bt.params))), bt, base)
        case Ok(st1) => Step(m, fuel - 1, i, st1)
        case Err(o) => o
  }

  /** Sequencing: running a concatenation is running its parts in turn. */
  lemma {:induction false} ExecAppend(m: Module, fuel: nat, a: seq<Instr>, b: seq<Instr>, st: State)
    ensures Exec(m, fuel, a + b, st) ==
            var o := Exec(m, fuel, a, st);
            if o.Next? then Exec(m, fuel, b, o.st) else o
    decreases |a|
  {
    if a == [] {
      assert a + b == b;
    } else {
      assert (a + b)[1..] == a[1..] + b;
      var o := Step(m, fuel, a[0], st);
      if o.Next? {
        ExecAppend(m, fuel, a[1..], b, o.st);
      }
    }
  }
}
