/** Threads that allocate and free through the patched runtime, interleaved at
    the grain of one lock operation or one written byte, and the proof that the
    stream they leave always replays to the live heap. */
module LiveHeap {
  import opened Wrappers
  import opened RecordCodec
  import opened RetainedStream
  import opened Sampling
  import opened MapSums

  type Tid = nat

  /** An address handed out by the C allocator. `owner` is the thread inside malloc or free with it, if any;
      `elected` is the sampler's verdict; `recorded` says its 'A' record is in the stream and its 'F' is not. */
  datatype Object = Object(size: U64, frames: seq<Name>, owner: Option<Tid>, elected: bool, recorded: bool)

  /** Where a thread stands in the patched moonbit_malloc_inlined or moonbit_free. */
  datatype Pc =
    | Idle
    | Allocated(ptr: U64)              // libc_malloc returned, the hook is entered
    | Counting(ptr: U64)               // holds the mutex to bump the counter
    | Elected(ptr: U64)                // sampled, record built, waiting for the mutex
    | WritingAlloc(ptr: U64, n: nat)   // holds the mutex, n bytes written
    | AllocLogged(ptr: U64)            // hook done, about to return the object
    | Freeing(ptr: U64)                // the free hook is entered
    | WritingFree(ptr: U64, n: nat)    // holds the mutex, n bytes written
    | FreeLogged(ptr: U64)             // hook done, libc_free next

  datatype State = State(
    rate: nat,
    heap: map<U64, Object>,
    threads: map<Tid, Pc>,
    mutex: Option<Tid>,
    counter: nat,
    electedCount: nat,
    stream: seq<Byte>,
    log: seq<Record>)                  // history: the records written to the end so far

  function AllocRecord(s: State, p: U64): Record
    requires p in s.heap
  {
    Alloc(p, s.heap[p].size, s.heap[p].frames)
  }

  predicate HoldsMutex(pc: Pc) {
    pc.Counting? || pc.WritingAlloc? || pc.WritingFree?
  }

  function MoveTo(s: State, t: Tid, pc: Pc): State {
    s.(threads := s.threads[t := pc])
  }

  function Mark(s: State, p: U64, o: Object): State {
    s.(heap := s.heap[p := o])
  }

  datatype Action =
    | LibcMalloc(p: U64, size: U64, frames: seq<Name>)
    | LockToCount | Count
    | LockToWrite | WriteByte | UnlockWritten
    | Return
    | CallFree(p: U64) | LockToFree | WriteFreeByte | UnlockFreed | LibcFree

  predicate Encodable8K(frames: seq<Name>) {
    |frames| <= MAX_FRAMES && forall f :: f in frames ==> |f| <= NAME_CAP
  }

  /** One step of thread `t`. Any address that is not allocated may be returned, so addresses are reused. A call to
      free takes an object that is allocated and not already being freed, whichever thread allocated it. */
  ghost predicate Next(s: State, s': State, t: Tid, a: Action) {
    t in s.threads &&
    var pc := s.threads[t];
    match a
    case LibcMalloc(p, size, frames) =>
      pc.Idle? && p != 0 && p !in s.heap && Encodable8K(frames)
      && s' == MoveTo(Mark(s, p, Object(size, frames, Some(t), false, false)), t, Allocated(p))
    case LockToCount =>
      pc.Allocated? && s.mutex.None? && s' == MoveTo(s, t, Counting(pc.ptr)).(mutex := Some(t))
    case Count =>
      // n = ++counter; sample when rate <= 1 or (n - 1) % rate == 0; an empty backtrace writes nothing
      pc.Counting? && pc.ptr in s.heap &&
      var elect := s.rate <= 1 || StartsGroup(s.counter, s.rate);
      var next := if elect && s.heap[pc.ptr].frames != [] then Elected(pc.ptr) else AllocLogged(pc.ptr);
      s' == MoveTo(Mark(s, pc.ptr, s.heap[pc.ptr].(elected := elect)), t, next)
            .(mutex := None, counter := s.counter + 1, electedCount := s.electedCount + if elect then 1 else 0)
    case LockToWrite =>
      pc.Elected? && s.mutex.None? && s' == MoveTo(s, t, WritingAlloc(pc.ptr, 0)).(mutex := Some(t))
    case WriteByte =>
      pc.WritingAlloc? && pc.ptr in s.heap && Encodable(AllocRecord(s, pc.ptr)) &&
      var bs := Encode(AllocRecord(s, pc.ptr));
      pc.n < |bs| &&
      var s1 := MoveTo(s, t, WritingAlloc(pc.ptr, pc.n + 1)).(stream := s.stream + [bs[pc.n]]);
      s' == if pc.n + 1 < |bs| then s1
            else Mark(s1, pc.ptr, s.heap[pc.ptr].(recorded := true)).(log := s.log + [AllocRecord(s, pc.ptr)])
    case UnlockWritten =>
      pc.WritingAlloc? && pc.ptr in s.heap && Encodable(AllocRecord(s, pc.ptr))
      && pc.n == |Encode(AllocRecord(s, pc.ptr))|
      && s' == MoveTo(s, t, AllocLogged(pc.ptr)).(mutex := None)
    case Return =>
      pc.AllocLogged? && pc.ptr in s.heap && s' == MoveTo(Mark(s, pc.ptr, s.heap[pc.ptr].(owner := None)), t, Idle)
    case CallFree(p) =>
      pc.Idle? && p in s.heap && s.heap[p].owner.None?
      && s' == MoveTo(Mark(s, p, s.heap[p].(owner := Some(t))), t, Freeing(p))
    case LockToFree =>
      pc.Freeing? && s.mutex.None? && s' == MoveTo(s, t, WritingFree(pc.ptr, 0)).(mutex := Some(t))
    case WriteFreeByte =>
      pc.WritingFree? && pc.ptr in s.heap &&
      var bs := Encode(Free(pc.ptr));
      pc.n < |bs| &&
      var s1 := MoveTo(s, t, WritingFree(pc.ptr, pc.n + 1)).(stream := s.stream + [bs[pc.n]]);
      s' == if pc.n + 1 < |bs| then s1
            else Mark(s1, pc.ptr, s.heap[pc.ptr].(recorded := false)).(log := s.log + [Free(pc.ptr)])
    case UnlockFreed =>
      pc.WritingFree? && pc.n == |Encode(Free(pc.ptr))| && s' == MoveTo(s, t, FreeLogged(pc.ptr)).(mutex := None)
    case LibcFree =>
      pc.FreeLogged? && s' == MoveTo(s.(heap := s.heap - {pc.ptr}), t, Idle)
  }

  ghost predicate Init(s: State) {
    && s.heap == map[] && s.mutex.None? && s.counter == 0 && s.electedCount == 0 && s.stream == [] && s.log == []
    && forall t :: t in s.threads ==> s.threads[t].Idle?
  }

  // -------------------------------------------------------------- invariant

  /** The mutex is held by exactly the thread whose program counter says so. */
  ghost predicate MutexInv(s: State) {
    && (s.mutex.Some? ==> s.mutex.value in s.threads && HoldsMutex(s.threads[s.mutex.value]))
    && forall t :: t in s.threads && HoldsMutex(s.threads[t]) ==> s.mutex == Some(t)
  }

  /** What a thread's position says about the object in its hands. */
  predicate PcInv(pc: Pc, o: Object) {
    match pc
    case Idle => false
    case Allocated(_) => !o.recorded
    case Counting(_) => !o.recorded
    case Elected(_) => !o.recorded && o.elected && o.frames != []
    case WritingAlloc(p, n) =>
      var r := Alloc(p, o.size, o.frames);
      Encodable(r) && n <= |Encode(r)| && o.elected && o.frames != [] && o.recorded == (n == |Encode(r)|)
    case AllocLogged(_) => o.recorded == (o.elected && o.frames != [])
    case Freeing(_) => o.recorded == (o.elected && o.frames != [])
    case WritingFree(p, n) =>
      n <= |Encode(Free(p))|
      && o.recorded == (n < |Encode(Free(p))| && o.elected && o.frames != [])
    case FreeLogged(_) => !o.recorded
  }

  /** Objects and the threads inside malloc or free with them point at each other. */
  ghost predicate OwnerInv(s: State) {
    && (forall t :: t in s.threads && !s.threads[t].Idle? ==>
          s.threads[t].ptr in s.heap && s.heap[s.threads[t].ptr].owner == Some(t)
          && PcInv(s.threads[t], s.heap[s.threads[t].ptr]))
    && (forall p :: p in s.heap && s.heap[p].owner.Some? ==>
          s.heap[p].owner.value in s.threads && !s.threads[s.heap[p].owner.value].Idle?
          && s.threads[s.heap[p].owner.value].ptr == p)
  }

  /** Objects the program can see carry the sampler's verdict. */
  ghost predicate ObjectInv(s: State) {
    forall p :: p in s.heap ==>
      p != 0 && Encodable8K(s.heap[p].frames)
      && (s.heap[p].owner.None? ==> s.heap[p].recorded == (s.heap[p].elected && s.heap[p].frames != []))
  }

  /** At rate 1 everything counted is elected. */
  ghost predicate RateInv(s: State) {
    s.rate <= 1 ==> forall p :: p in s.heap ==>
      s.heap[p].elected || (s.heap[p].owner.Some? && s.heap[p].owner.value in s.threads
                            && (s.threads[s.heap[p].owner.value].Allocated?
                                || s.threads[s.heap[p].owner.value].Counting?))
  }

  /** The bytes of the record that the mutex holder is in the middle of. */
  ghost function Partial(s: State): seq<Byte> {
    if s.mutex.None? || s.mutex.value !in s.threads then []
    else match s.threads[s.mutex.value]
      case WritingAlloc(p, n) =>
        if p in s.heap && Encodable(AllocRecord(s, p)) && n < |Encode(AllocRecord(s, p))|
        then Encode(AllocRecord(s, p))[..n] else []
      case WritingFree(p, n) => if n < |Encode(Free(p))| then Encode(Free(p))[..n] else []
      case _ => []
  }

  ghost predicate StreamInv(s: State) {
    AllEncodable(s.log) && s.stream == EncodeAll(s.log) + Partial(s)
  }

  /** The recorded part of the heap, as the replayed live map should show it. */
  ghost function Recorded(rd: Reading, heap: map<U64, Object>): Live {
    map p | p in heap && heap[p].recorded && LiveEntry(rd, heap[p].size, heap[p].frames).frames != []
      :: LiveEntry(rd, heap[p].size, heap[p].frames)
  }

  ghost predicate ReplayInv(s: State) {
    forall rd: Reading {:trigger Replay(rd, s.log)} :: Replay(rd, s.log) == Recorded(rd, s.heap)
  }

  predicate SampleInv(s: State) {
    s.electedCount == if s.rate <= 1 then s.counter else CeilDiv(s.counter, s.rate)
  }

  ghost predicate Inv(s: State) {
    MutexInv(s) && OwnerInv(s) && ObjectInv(s) && RateInv(s) && StreamInv(s) && ReplayInv(s) && SampleInv(s)
  }

  lemma StepMutex(s: State, s': State, t: Tid, a: Action)
    requires MutexInv(s) && Next(s, s', t, a)
    ensures MutexInv(s')
  {
    hide Encode;
    hide Encodable;
  }

  /** A thread that keeps its object keeps the pointers straight. */
  lemma OwnerKept(s: State, s': State, t: Tid, o: Object, pc: Pc)
    requires OwnerInv(s) && t in s.threads && !s.threads[t].Idle? && !pc.Idle? && pc.ptr == s.threads[t].ptr
    requires s'.threads == s.threads[t := pc] && s'.heap == s.heap[pc.ptr := o]
    requires o.owner == Some(t) && PcInv(pc, o)
    ensures OwnerInv(s')
  {
    hide PcInv;
  }

  lemma OwnerTaken(s: State, s': State, t: Tid, o: Object, pc: Pc)
    requires OwnerInv(s) && t in s.threads && s.threads[t].Idle? && !pc.Idle?
    requires pc.ptr in s.heap ==> s.heap[pc.ptr].owner.None?
    requires s'.threads == s.threads[t := pc] && s'.heap == s.heap[pc.ptr := o]
    requires o.owner == Some(t) && PcInv(pc, o)
    ensures OwnerInv(s')
  {
    hide PcInv;
  }

  lemma OwnerDropped(s: State, s': State, t: Tid, p: U64)
    requires OwnerInv(s) && t in s.threads && !s.threads[t].Idle? && s.threads[t].ptr == p
    requires s'.threads == s.threads[t := Idle]
    requires s'.heap == s.heap - {p} || s'.heap == s.heap[p := s.heap[p].(owner := None)]
    ensures OwnerInv(s')
  {
    hide PcInv;
  }

  lemma StepOwner(s: State, s': State, t: Tid, a: Action)
    requires OwnerInv(s) && ObjectInv(s) && Next(s, s', t, a)
    ensures OwnerInv(s')
  {
    var pc, pc' := s.threads[t], s'.threads[t];
    match a
    case LibcMalloc(p, _, _) => OwnerTaken(s, s', t, s'.heap[p], pc');
    case CallFree(p) => OwnerTaken(s, s', t, s'.heap[p], pc');
    case Return => OwnerDropped(s, s', t, pc.ptr);
    case LibcFree => OwnerDropped(s, s', t, pc.ptr);
    case LockToWrite => LockedToWrite(s, s', t);
    case _ =>
      StaysInHand(s, s', t, a);
      OwnerKept(s, s', t, s'.heap[pc.ptr], pc');
  }

  lemma StaysInHand(s: State, s': State, t: Tid, a: Action)
    requires OwnerInv(s) && Next(s, s', t, a)
    requires !a.LibcMalloc? && !a.CallFree? && !a.Return? && !a.LibcFree? && !a.LockToWrite?
    ensures !s.threads[t].Idle? && !s'.threads[t].Idle?
    ensures var p := s.threads[t].ptr;
            s'.threads[t].ptr == p && p in s'.heap && s'.heap == s.heap[p := s'.heap[p]]
            && s'.threads == s.threads[t := s'.threads[t]]
            && s'.heap[p].owner == Some(t) && PcInv(s'.threads[t], s'.heap[p])
  {
    hide Encode;
    var p := s.threads[t].ptr;
    assert PcInv(s.threads[t], s.heap[p]);
    assert s'.heap[p].owner == Some(t);
  }

  lemma LockedToWrite(s: State, s': State, t: Tid)
    requires OwnerInv(s) && ObjectInv(s) && Next(s, s', t, LockToWrite)
    ensures OwnerInv(s')
  {
    var p := s.threads[t].ptr;
    assert Encodable(AllocRecord(s, p));
    assert s'.heap == s.heap[p := s.heap[p]];
    hide Encode;
    OwnerKept(s, s', t, s.heap[p], s'.threads[t]);
  }

  lemma StepObject(s: State, s': State, t: Tid, a: Action)
    requires OwnerInv(s) && ObjectInv(s) && Next(s, s', t, a)
    ensures ObjectInv(s')
  {
    hide Encode;
    hide Encodable;
  }

  lemma StepRate(s: State, s': State, t: Tid, a: Action)
    requires OwnerInv(s) && ObjectInv(s) && RateInv(s) && Next(s, s', t, a)
    ensures RateInv(s')
  {
    hide Encode;
    hide Encodable;
  }

  lemma StepSample(s: State, s': State, t: Tid, a: Action)
    requires SampleInv(s) && Next(s, s', t, a)
    ensures SampleInv(s')
  {
    hide Encode;
    hide Encodable;
    if a.Count? && s.rate > 1 {
      CeilStep(s.counter, s.rate);
    }
  }

  // ------------------------------------------------------- stream and replay

  /** The steps that neither write nor change what the mutex holder is writing. */
  lemma PartialKept(s: State, s': State)
    requires s'.mutex == s.mutex
    requires s.mutex.Some? && s.mutex.value in s.threads ==>
               var u := s.mutex.value;
               u in s'.threads && s'.threads[u] == s.threads[u] &&
               (s.threads[u].WritingAlloc? ==>
                  var p := s.threads[u].ptr;
                  p in s.heap && p in s'.heap && AllocRecord(s', p) == AllocRecord(s, p))
    requires s.mutex.Some? ==> s.mutex.value in s.threads
    ensures Partial(s') == Partial(s)
  {
    hide Encode;
    hide Encodable;
  }

  lemma StepStream(s: State, s': State, t: Tid, a: Action)
    requires MutexInv(s) && OwnerInv(s) && ObjectInv(s) && StreamInv(s) && Next(s, s', t, a)
    ensures StreamInv(s')
  {
    hide Encode;
    hide Encodable;
    hide Encodable8K;
    hide Partial;
    hide StartsGroup;
    hide PcInv;
    match a
    case WriteByte => WroteByte(s, s', t);
    case WriteFreeByte => WroteFreeByte(s, s', t);
    case LibcMalloc(_, _, _) => PartialKept(s, s');
    case Return => PartialKept(s, s');
    case CallFree(_) => PartialKept(s, s');
    case LibcFree => PartialKept(s, s');
    case _ => MutexMoves(s, s', t, a);
  }

  /** Taking and releasing the mutex happens between records. */
  lemma MutexMoves(s: State, s': State, t: Tid, a: Action)
    requires MutexInv(s) && OwnerInv(s) && Next(s, s', t, a)
    requires a.LockToCount? || a.Count? || a.LockToWrite? || a.UnlockWritten? || a.LockToFree? || a.UnlockFreed?
    ensures Partial(s) == [] && Partial(s') == []
  {
    hide Encode;
    hide Encodable;
  }

  lemma Append1(log: seq<Byte>, bs: seq<Byte>, n: nat)
    requires n < |bs|
    ensures log + bs[..n] + [bs[n]] == log + bs[..n + 1]
  {
    assert bs[..n + 1] == bs[..n] + [bs[n]];
  }

  lemma LogOne(log: seq<Record>, r: Record)
    requires AllEncodable(log) && Encodable(r)
    ensures AllEncodable(log + [r]) && EncodeAll(log + [r]) == EncodeAll(log) + Encode(r)
  {
    EncodeAllAppend(log, [r]);
    assert EncodeAll([r]) == Encode(r) + EncodeAll([]);
  }

  lemma WroteByte(s: State, s': State, t: Tid)
    requires MutexInv(s) && StreamInv(s) && Next(s, s', t, WriteByte)
    ensures StreamInv(s')
  {
    var pc := s.threads[t];
    var r := AllocRecord(s, pc.ptr);
    hide Encode;
    hide Encodable;
    Append1(EncodeAll(s.log), Encode(r), pc.n);
    if pc.n + 1 == |Encode(r)| {
      LogOne(s.log, r);
      assert Encode(r)[..pc.n + 1] == Encode(r);
    }
  }

  lemma WroteFreeByte(s: State, s': State, t: Tid)
    requires MutexInv(s) && StreamInv(s) && Next(s, s', t, WriteFreeByte)
    ensures StreamInv(s')
  {
    var pc := s.threads[t];
    var r := Free(pc.ptr);
    assert Encodable(r);
    hide Encode;
    hide Encodable;
    Append1(EncodeAll(s.log), Encode(r), pc.n);
    if pc.n + 1 == |Encode(r)| {
      LogOne(s.log, r);
      assert Encode(r)[..pc.n + 1] == Encode(r);
    }
  }

  /** Two heaps with the same recorded objects. */
  ghost predicate SameRecorded(h: map<U64, Object>, h': map<U64, Object>) {
    && (forall p :: p in h && h[p].recorded ==>
          p in h' && h'[p].recorded && h'[p].size == h[p].size && h'[p].frames == h[p].frames)
    && (forall p :: p in h' && h'[p].recorded ==> p in h && h[p].recorded)
  }

  lemma RecordedKept(rd: Reading, h: map<U64, Object>, h': map<U64, Object>)
    requires SameRecorded(h, h')
    ensures Recorded(rd, h') == Recorded(rd, h)
  {
    hide LiveEntry;
  }

  lemma FreedUnrecorded(s: State, s': State, t: Tid)
    requires OwnerInv(s) && Next(s, s', t, LibcFree)
    ensures s'.log == s.log && SameRecorded(s.heap, s'.heap)
  {
    hide Encode;
    hide Encodable;
    assert PcInv(s.threads[t], s.heap[s.threads[t].ptr]);
  }

  /** Every step but the last byte of a record leaves the log and the recorded objects alone. */
  lemma QuietStep(s: State, s': State, t: Tid, a: Action)
    requires OwnerInv(s) && Next(s, s', t, a)
    ensures s'.log != s.log || SameRecorded(s.heap, s'.heap)
    ensures s'.log != s.log ==> (a.WriteByte? || a.WriteFreeByte?)
  {
    hide Encode;
    hide Encodable;
    hide PcInv;
    hide StartsGroup;
    hide Encodable8K;
    if a.LibcFree? {
      FreedUnrecorded(s, s', t);
    } else {
      hide OwnerInv;
      hide MoveTo;
    }
  }

  lemma RecordedSet(rd: Reading, h: map<U64, Object>, p: U64)
    requires p in h && !h[p].recorded
    ensures var entry := LiveEntry(rd, h[p].size, h[p].frames);
            Recorded(rd, h[p := h[p].(recorded := true)]) ==
            if entry.frames == [] then Recorded(rd, h) else Recorded(rd, h)[p := entry]
  {
    hide LiveEntry;
  }

  lemma RecordedCleared(rd: Reading, h: map<U64, Object>, p: U64)
    requires p in h
    ensures Recorded(rd, h[p := h[p].(recorded := false)]) == Recorded(rd, h) - {p}
  {
    hide LiveEntry;
  }

  lemma AllocLogs(s: State, s': State, t: Tid)
    requires OwnerInv(s) && ObjectInv(s) && Next(s, s', t, WriteByte) && s'.log != s.log
    ensures var p := s.threads[t].ptr;
            && p in s.heap && p != 0 && !s.heap[p].recorded
            && s'.log == s.log + [AllocRecord(s, p)] && s'.heap == s.heap[p := s.heap[p].(recorded := true)]
  {
    hide Encode;
    hide Encodable;
    hide Encodable8K;
    assert PcInv(s.threads[t], s.heap[s.threads[t].ptr]);
  }

  lemma LoggedAlloc(rd: Reading, s: State, s': State, t: Tid)
    requires OwnerInv(s) && ObjectInv(s) && Next(s, s', t, WriteByte) && s'.log != s.log
    requires Replay(rd, s.log) == Recorded(rd, s.heap)
    ensures Replay(rd, s'.log) == Recorded(rd, s'.heap)
  {
    hide Recorded;
    hide Replay;
    hide LiveEntry;
    AllocLogs(s, s', t);
    hide OwnerInv;
    hide ObjectInv;
    hide Next;
    var p := s.threads[t].ptr;
    RecordedSet(rd, s.heap, p);
    ReplaySnoc(rd, s.log, AllocRecord(s, p));
  }

  lemma FreeLogs(s: State, s': State, t: Tid)
    requires OwnerInv(s) && Next(s, s', t, WriteFreeByte) && s'.log != s.log
    ensures var p := s.threads[t].ptr;
            p in s.heap && s'.log == s.log + [Free(p)] && s'.heap == s.heap[p := s.heap[p].(recorded := false)]
  {
    hide Encode;
    hide PcInv;
  }

  lemma LoggedFree(rd: Reading, s: State, s': State, t: Tid)
    requires OwnerInv(s) && Next(s, s', t, WriteFreeByte) && s'.log != s.log
    requires Replay(rd, s.log) == Recorded(rd, s.heap)
    ensures Replay(rd, s'.log) == Recorded(rd, s'.heap)
  {
    FreeLogs(s, s', t);
    hide OwnerInv;
    hide Next;
    var p := s.threads[t].ptr;
    RecordedCleared(rd, s.heap, p);
    ReplaySnoc(rd, s.log, Free(p));
    hide Recorded;
    hide Replay;
  }

  lemma StepReplay(s: State, s': State, t: Tid, a: Action)
    requires OwnerInv(s) && ObjectInv(s) && ReplayInv(s) && Next(s, s', t, a)
    ensures ReplayInv(s')
  {
    QuietStep(s, s', t, a);
    forall rd: Reading
      ensures Replay(rd, s'.log) == Recorded(rd, s'.heap)
    {
      assert Replay(rd, s.log) == Recorded(rd, s.heap);
      if s'.log == s.log {
        RecordedKept(rd, s.heap, s'.heap);
      } else if a.WriteByte? {
        LoggedAlloc(rd, s, s', t);
      } else {
        LoggedFree(rd, s, s', t);
      }
    }
  }

  // ---------------------------------------------------------- main results

  lemma InitInv(s: State)
    requires Init(s)
    ensures Inv(s)
  {
    forall rd: Reading
      ensures Replay(rd, s.log) == Recorded(rd, s.heap)
    {
      assert Recorded(rd, s.heap) == map[];
    }
    if s.rate > 1 {
      CeilZero(s.rate);
    }
  }

  /** Every step of every thread keeps the invariant. */
  lemma StepInv(s: State, s': State, t: Tid, a: Action)
    requires Inv(s) && Next(s, s', t, a)
    ensures Inv(s')
  {
    hide Next;
    StepMutex(s, s', t, a);
    StepOwner(s, s', t, a);
    StepObject(s, s', t, a);
    StepRate(s, s', t, a);
    StepStream(s, s', t, a);
    StepReplay(s, s', t, a);
    StepSample(s, s', t, a);
  }

  datatype Move = Step(t: Tid, a: Action)

  /** An interleaving: states, each reached from the one before by one step of one thread. */
  ghost predicate IsRun(states: seq<State>, moves: seq<Move>) {
    && |states| == |moves| + 1 && Init(states[0])
    && forall i :: 0 <= i < |moves| ==> Next(states[i], states[i + 1], moves[i].t, moves[i].a)
  }

  lemma {:induction false} RunInv(states: seq<State>, moves: seq<Move>, i: nat)
    requires IsRun(states, moves) && i < |states|
    ensures Inv(states[i])
  {
    if i == 0 {
      InitInv(states[0]);
    } else {
      RunInv(states, moves, i - 1);
      StepInv(states[i - 1], states[i], moves[i - 1].t, moves[i - 1].a);
    }
  }

  /** In every interleaving, at every moment and even in the middle of a record: the stream parses without error, its
      whole records are the ones written to the end, and replaying them gives exactly the allocated objects whose 'A'
      record is written and whose 'F' record is not, with the size and stack they were allocated with. */
  lemma StreamShowsRecordedHeap(states: seq<State>, moves: seq<Move>, i: nat, rd: Reading)
    requires IsRun(states, moves) && i < |states|
    ensures ParseAll(states[i].stream) == Ok(states[i].log)
    ensures Replay(rd, states[i].log) == Recorded(rd, states[i].heap)
  {
    RunInv(states, moves, i);
    var s := states[i];
    TornTail(s);
    assert Replay(rd, s.log) == Recorded(rd, s.heap);
  }

  /** What follows the whole records is a proper prefix of one record. */
  lemma TornTail(s: State)
    requires MutexInv(s) && StreamInv(s)
    ensures ParseAll(s.stream) == Ok(s.log)
  {
    if Partial(s) == [] {
      ParsePrefix(s.log, |EncodeAll(s.log)|);
      AllWhollyInside(s.log);
      assert EncodeAll(s.log)[..|EncodeAll(s.log)|] == EncodeAll(s.log) == s.stream;
    } else {
      match s.threads[s.mutex.value]
      case WritingAlloc(p, n) => ParseAppend(s.log, AllocRecord(s, p), n);
      case WritingFree(p, n) => ParseAppend(s.log, Free(p), n);
    }
  }

  ghost predicate Quiescent(s: State) {
    forall t :: t in s.threads ==> s.threads[t].Idle?
  }

  ghost predicate AllUserVisible(rd: Reading, s: State) {
    forall p :: p in s.heap ==> LiveEntry(rd, s.heap[p].size, s.heap[p].frames).frames != []
  }

  /** The allocated heap, as allocation samples. */
  function HeapSamples(rd: Reading, heap: map<U64, Object>): Live {
    map p | p in heap :: LiveEntry(rd, heap[p].size, heap[p].frames)
  }

  /** With no thread inside a hook, sampling every allocation, and a user frame in every backtrace, the replayed stream
      is the allocated heap: same addresses, sizes and stacks, whatever addresses were reused on the way. */
  lemma QuiescentStreamIsTheHeap(states: seq<State>, moves: seq<Move>, i: nat, rd: Reading)
    requires IsRun(states, moves) && i < |states|
    requires Quiescent(states[i]) && states[i].rate <= 1 && AllUserVisible(rd, states[i])
    ensures ParseAll(states[i].stream) == Ok(states[i].log)
    ensures var s := states[i];
            Replay(rd, s.log) == HeapSamples(rd, s.heap)
  {
    StreamShowsRecordedHeap(states, moves, i, rd);
    RunInv(states, moves, i);
    var s := states[i];
    forall p | p in s.heap
      ensures s.heap[p].recorded
    {
      assert LiveEntry(rd, s.heap[p].size, s.heap[p].frames).frames != [];
      NoUserFrames(rd, s.heap[p]);
    }
  }

  lemma NoUserFrames(rd: Reading, o: Object)
    ensures o.frames == [] ==> LiveEntry(rd, o.size, o.frames).frames == []
  {}

  /** At any rate, with no thread inside a hook: the replayed stream is the elected part of the heap. */
  lemma QuiescentStreamIsTheSample(states: seq<State>, moves: seq<Move>, i: nat, rd: Reading)
    requires IsRun(states, moves) && i < |states| && Quiescent(states[i]) && AllUserVisible(rd, states[i])
    ensures var s := states[i];
            Replay(rd, s.log) ==
            map p | p in s.heap && s.heap[p].elected :: LiveEntry(rd, s.heap[p].size, s.heap[p].frames)
  {
    StreamShowsRecordedHeap(states, moves, i, rd);
    RunInv(states, moves, i);
    var s := states[i];
    forall p | p in s.heap
      ensures s.heap[p].recorded == s.heap[p].elected
    {
      NoUserFrames(rd, s.heap[p]);
    }
  }

  // ------------------------------------------------------- what the parser reports

  /** In every interleaving, at every moment: the parser accepts the stream, and reports one sample per stack with the
      summed counts and bytes of the objects recorded by then. */
  lemma ParserReportsRecordedHeap(states: seq<State>, moves: seq<Move>, i: nat, rd: Reading,
                                  r: Result<map<Frames, SampleAgg>, BadTag>)
    requires IsRun(states, moves) && i < |states| && ParsedTo(states[i].stream, rd, r)
    ensures r.Ok? && Aggregates(Recorded(rd, states[i].heap), r.value)
  {
    hide ParseAll;
    hide Replay;
    hide Recorded;
    hide Aggregates;
    hide IsRun;
    StreamShowsRecordedHeap(states, moves, i, rd);
  }

  function HeapSizes(heap: map<U64, Object>): map<U64, int> {
    map p | p in heap :: AsI64(heap[p].size)
  }

  /** At rest, sampling every allocation: the parser's samples are the allocated heap grouped by stack, and their bytes
      add up to the sizes of the allocated objects. */
  lemma ParserReportsTheHeap(states: seq<State>, moves: seq<Move>, i: nat, utf8: seq<Byte> -> string,
                             r: Result<map<Frames, SampleAgg>, BadTag>)
    requires IsRun(states, moves) && i < |states| && ParsedTo(states[i].stream, Reading(1, utf8), r)
    requires Quiescent(states[i]) && states[i].rate <= 1 && AllUserVisible(Reading(1, utf8), states[i])
    ensures r.Ok? && Aggregates(HeapSamples(Reading(1, utf8), states[i].heap), r.value)
    ensures Total(SampleBytes(r.value)) == Total(HeapSizes(states[i].heap))
  {
    hide ParseAll;
    hide Replay;
    hide Aggregates;
    hide IsRun;
    hide UserFrames;
    hide Decoded;
    var rd, heap := Reading(1, utf8), states[i].heap;
    QuiescentStreamIsTheHeap(states, moves, i, rd);
    AggregationConserves(HeapSamples(rd, heap), r.value);
    assert AllBytes(HeapSamples(rd, heap)) == HeapSizes(heap);
  }

  lemma {:induction false} AllInside(rs: seq<Record>, k: nat)
    requires AllEncodable(rs) && k >= |EncodeAll(rs)|
    ensures WhollyInside(rs, k) == rs
  {
    hide Encode;
    hide Encodable;
    if rs != [] {
      AllInside(rs[1..], k - |Encode(rs[0])|);
    }
  }

  /** Cutting the stream anywhere, as a signal may, still parses, to the records that were whole by then. */
  lemma AnyCutParses(states: seq<State>, moves: seq<Move>, i: nat, k: nat)
    requires IsRun(states, moves) && i < |states| && k <= |states[i].stream|
    ensures AllEncodable(states[i].log)
    ensures ParseAll(states[i].stream[..k]) == Ok(WhollyInside(states[i].log, k))
  {
    RunInv(states, moves, i);
    var s := states[i];
    if k <= |EncodeAll(s.log)| {
      ParsePrefix(s.log, k);
      assert s.stream[..k] == EncodeAll(s.log)[..k];
    } else {
      CutInPartial(s, k);
    }
  }

  lemma LogStep(s: State, s': State, t: Tid, a: Action)
    requires Next(s, s', t, a)
    ensures s'.log == s.log || exists r :: s'.log == s.log + [r]
  {
    hide Encode;
    hide Encodable;
    hide Encodable8K;
    hide StartsGroup;
  }

  /** Every prefix of the log was the whole log at some moment. */
  lemma {:induction false} LogWas(states: seq<State>, moves: seq<Move>, i: nat, n: nat) returns (j: nat)
    requires IsRun(states, moves) && i < |states| && n <= |states[i].log|
    ensures j <= i && states[j].log == states[i].log[..n]
  {
    if n == |states[i].log| {
      j := i;
    } else {
      LogStep(states[i - 1], states[i], moves[i - 1].t, moves[i - 1].a);
      hide Next;
      j := LogWas(states, moves, i - 1, n);
      assert states[i].log[..n] == states[i - 1].log[..n];
    }
  }

  /** What a cut leaves is what the stream showed earlier: for some earlier moment of the run, the same moment for every
      way of reading, replaying the records of the cut gives exactly the objects recorded then. */
  lemma AnyCutShowsAnEarlierHeap(states: seq<State>, moves: seq<Move>, i: nat, k: nat) returns (j: nat)
    requires IsRun(states, moves) && i < |states| && k <= |states[i].stream|
    ensures j <= i && ParseAll(states[i].stream[..k]) == Ok(states[j].log)
    ensures forall rd: Reading {:trigger Recorded(rd, states[j].heap)} ::
              Replay(rd, states[j].log) == Recorded(rd, states[j].heap)
    ensures forall rd: Reading, r {:trigger ParsedTo(states[i].stream[..k], rd, r)} ::
              ParsedTo(states[i].stream[..k], rd, r) ==> r.Ok? && Aggregates(Recorded(rd, states[j].heap), r.value)
  {
    hide IsRun;
    hide ParseAll;
    hide Replay;
    hide Recorded;
    hide Aggregates;
    AnyCutParses(states, moves, i, k);
    var n := WhollyInsideIsLongest(states[i].log, k);
    j := LogWas(states, moves, i, n);
    forall rd: Reading
      ensures Replay(rd, states[j].log) == Recorded(rd, states[j].heap)
    {
      StreamShowsRecordedHeap(states, moves, j, rd);
    }
  }

  lemma CutInPartial(s: State, k: nat)
    requires MutexInv(s) && StreamInv(s) && |EncodeAll(s.log)| < k <= |s.stream|
    ensures ParseAll(s.stream[..k]) == Ok(WhollyInside(s.log, k))
  {
    var j := k - |EncodeAll(s.log)|;
    AllInside(s.log, k);
    assert s.stream[..k] == EncodeAll(s.log) + Partial(s)[..j];
    match s.threads[s.mutex.value]
    case WritingAlloc(p, n) =>
      var r := AllocRecord(s, p);
      hide Encode;
      assert Partial(s)[..j] == Encode(r)[..j];
      ParseAppend(s.log, r, j);
    case WritingFree(p, n) =>
      var r := Free(p);
      hide Encode;
      assert Partial(s)[..j] == Encode(r)[..j];
      ParseAppend(s.log, r, j);
  }

  /** In every interleaving, after N counted allocations ceil(N / rate) have been elected, so scaling by the rate
      over-counts by less than one group, and not at all at rate 1. */
  lemma SamplingBound(states: seq<State>, moves: seq<Move>, i: nat)
    requires IsRun(states, moves) && i < |states|
    ensures var s := states[i];
            var rate := if s.rate <= 1 then 1 else s.rate;
            s.electedCount == CeilDiv(s.counter, rate)
            && s.counter <= rate * s.electedCount < s.counter + rate
  {
    RunInv(states, moves, i);
    var s := states[i];
    if s.rate <= 1 {
      CeilOne(s.counter);
    }
    CeilBound(s.counter, if s.rate <= 1 then 1 else s.rate);
  }
}
