/** The host side of the wasm hook: electing every Nth allocation, crediting
    its stack with the scaled count and bytes, and the running trace totals. */
module AllocationSampler {
  import opened Wrappers
  import opened Int64
  import opened MapSums
  import opened Sampling
  import W = Wasm

  const U64_SIZE := 0x1_0000_0000_0000_0000

  datatype FrameKey = FrameKey(funcIndex: nat, name: Option<string>) {
    predicate IsAllocRuntime() {
      name == Some("moonbit.malloc") || name == Some("moonbit.gc.malloc")
    }
  }

  type Frames = seq<FrameKey>

  datatype SampleAgg = SampleAgg(count: int, bytes: int)

  /** One call of the hook with a positive size. */
  datatype Call = Call(size: W.Int32, frames: Frames)

  datatype TraceEvent = TraceEvent(tsUs: nat, size: int, scaledSize: int, cumulativeObjects: int, cumulativeBytes: int,
                                   topFrame: Option<FrameKey>)

  /** A u64 counter: `wrapping_add`. */
  function WrapU64(n: nat): nat {
    n % U64_SIZE
  }

  /** Whether the nth counted call (from 0) is elected. */
  predicate Elects(rate: nat, n: nat) {
    rate <= 1 || StartsGroup(WrapU64(n), rate)
  }

  /** The first 2^64 calls are elected by their own number; then the counter starts over. */
  lemma ElectsAgain(rate: nat, n: nat)
    ensures rate <= 1 ==> Elects(rate, n)
    ensures rate > 1 && n < 0x1_0000_0000_0000_0000 ==> (Elects(rate, n) <==> StartsGroup(n, rate))
    ensures Elects(rate, n + 0x1_0000_0000_0000_0000) <==> Elects(rate, n)
  {
    hide StartsGroup;
    WrapsOver(n);
  }

  lemma WrapsOver(n: nat)
    ensures n < U64_SIZE ==> WrapU64(n) == n
    ensures WrapU64(n + U64_SIZE) == WrapU64(n)
  {
    var q, r := n / U64_SIZE, n % U64_SIZE;
    DivIs(n + U64_SIZE, U64_SIZE, q + 1, r);
  }

  function Scale(rate: nat): nat {
    if rate <= 1 then 1 else rate
  }

  /** A sampled size, credited with the calls it stands for. */
  function Scaled(size: int, rate: nat): int {
    size * Scale(rate)
  }

  function SaturatingMul(a: int, b: int): int {
    Saturate(a * b)
  }

  function Credit(samples: map<Frames, SampleAgg>, frames: Frames, count: int, bytes: int): map<Frames, SampleAgg> {
    var entry := if frames in samples then samples[frames] else SampleAgg(0, 0);
    samples[frames := SampleAgg(entry.count + count, entry.bytes + bytes)]
  }

  /** The sample map a history of calls leaves. */
  function SamplesOf(rate: nat, calls: seq<Call>): map<Frames, SampleAgg> {
    if calls == [] then map[]
    else
      var n := |calls| - 1;
      var before, c := SamplesOf(rate, calls[..n]), calls[n];
      if Elects(rate, n) then Credit(before, c.frames, Scale(rate), Scaled(c.size, rate)) else before
  }

  function ElectedCount(rate: nat, calls: nat): nat {
    if calls == 0 then 0 else ElectedCount(rate, calls - 1) + if Elects(rate, calls - 1) then 1 else 0
  }

  function ElectedBytes(rate: nat, calls: seq<Call>): int {
    if calls == [] then 0
    else ElectedBytes(rate, calls[..|calls| - 1]) + if Elects(rate, |calls| - 1) then calls[|calls| - 1].size else 0
  }

  /** The elected calls with a backtrace, and their bytes. */
  function ElectedOn(rate: nat, calls: seq<Call>, f: Frames): nat {
    if calls == [] then 0
    else
      var n := |calls| - 1;
      ElectedOn(rate, calls[..n], f) + if Elects(rate, n) && calls[n].frames == f then 1 else 0
  }

  function ElectedBytesOn(rate: nat, calls: seq<Call>, f: Frames): int {
    if calls == [] then 0
    else
      var n := |calls| - 1;
      ElectedBytesOn(rate, calls[..n], f) + if Elects(rate, n) && calls[n].frames == f then calls[n].size else 0
  }

  lemma {:induction false} ElectedOnMeans(rate: nat, calls: seq<Call>, f: Frames)
    ensures ElectedOn(rate, calls, f) > 0 <==> exists i :: 0 <= i < |calls| && Elects(rate, i) && calls[i].frames == f
    ensures ElectedOn(rate, calls, f) == 0 ==> ElectedBytesOn(rate, calls, f) == 0
  {
    hide Elects;
    if calls != [] {
      var n := |calls| - 1;
      ElectedOnMeans(rate, calls[..n], f);
      if ElectedOn(rate, calls[..n], f) > 0 {
        var i :| 0 <= i < n && Elects(rate, i) && calls[..n][i].frames == f;
        assert calls[i].frames == f;
      }
    }
  }

  /** Stack by stack: there is a sample exactly for the backtraces of elected calls, with their number and their bytes,
      scaled. */
  ghost predicate ByStack(samples: map<Frames, SampleAgg>, rate: nat, calls: seq<Call>) {
    && (forall f :: f in samples <==> exists i :: 0 <= i < |calls| && Elects(rate, i) && calls[i].frames == f)
    && forall f :: f in samples ==>
         samples[f] == SampleAgg(Scale(rate) * ElectedOn(rate, calls, f), Scale(rate) * ElectedBytesOn(rate, calls, f))
  }

  lemma SamplesByStack(rate: nat, calls: seq<Call>)
    ensures ByStack(SamplesOf(rate, calls), rate, calls)
  {
    hide Elects;
    hide SamplesOf;
    hide ElectedOn;
    hide ElectedBytesOn;
    hide Scale;
    forall f
      ensures f in SamplesOf(rate, calls) <==>
                exists i :: 0 <= i < |calls| && Elects(rate, i) && calls[i].frames == f
      ensures f in SamplesOf(rate, calls) ==>
                SamplesOf(rate, calls)[f] ==
                SampleAgg(Scale(rate) * ElectedOn(rate, calls, f), Scale(rate) * ElectedBytesOn(rate, calls, f))
    {
      SampleOn(rate, calls, f);
      ElectedOnMeans(rate, calls, f);
    }
  }

  lemma {:induction false} SampleOn(rate: nat, calls: seq<Call>, f: Frames)
    ensures f in SamplesOf(rate, calls) <==> ElectedOn(rate, calls, f) > 0
    ensures f in SamplesOf(rate, calls) ==>
              SamplesOf(rate, calls)[f] ==
              SampleAgg(Scale(rate) * ElectedOn(rate, calls, f), Scale(rate) * ElectedBytesOn(rate, calls, f))
  {
    hide Elects;
    hide Scale;
    if calls != [] {
      var n, k := |calls| - 1, Scale(rate);
      SampleOn(rate, calls[..n], f);
      ElectedOnMeans(rate, calls[..n], f);
      Distribute(k, ElectedOn(rate, calls[..n], f), 1);
      Distribute(k, ElectedBytesOn(rate, calls[..n], f), calls[n].size);
    }
  }

  function CountsOf(samples: map<Frames, SampleAgg>): map<Frames, int> {
    map f | f in samples :: samples[f].count
  }

  function BytesOf(samples: map<Frames, SampleAgg>): map<Frames, int> {
    map f | f in samples :: samples[f].bytes
  }

  lemma CreditTotals(samples: map<Frames, SampleAgg>, frames: Frames, count: int, bytes: int)
    ensures var s := Credit(samples, frames, count, bytes);
            Total(CountsOf(s)) == Total(CountsOf(samples)) + count
            && Total(BytesOf(s)) == Total(BytesOf(samples)) + bytes
  {
    var s := Credit(samples, frames, count, bytes);
    assert CountsOf(s) == AddAt(CountsOf(samples), frames, count);
    assert BytesOf(s) == AddAt(BytesOf(samples), frames, bytes);
    TotalAddAt(CountsOf(samples), frames, count);
    TotalAddAt(BytesOf(samples), frames, bytes);
  }

  /** Conservation: the summed counts and bytes of the samples are the elected calls, scaled. */
  lemma {:induction false} SamplesConserve(rate: nat, calls: seq<Call>)
    ensures Total(CountsOf(SamplesOf(rate, calls))) == Scale(rate) * ElectedCount(rate, |calls|)
    ensures Total(BytesOf(SamplesOf(rate, calls))) == Scale(rate) * ElectedBytes(rate, calls)
  {
    hide Elects;
    hide Scale;
    if calls == [] {
      assert CountsOf(map[]) == map[] && BytesOf(map[]) == map[];
    } else {
      var n, k := |calls| - 1, Scale(rate);
      var before, c := SamplesOf(rate, calls[..n]), calls[n];
      SamplesConserve(rate, calls[..n]);
      if Elects(rate, n) {
        CreditTotals(before, c.frames, k, Scaled(c.size, rate));
        hide Credit;
        Distribute(k, ElectedCount(rate, n), 1);
        Distribute(k, ElectedBytes(rate, calls[..n]), c.size);
      }
    }
  }

  /** Over every run of N <= 2^64 counted calls exactly ceil(N / rate) are elected. */
  lemma {:induction false} ElectedIsCeil(rate: nat, calls: nat)
    requires calls <= U64_SIZE
    ensures ElectedCount(rate, calls) == CeilDiv(calls, Scale(rate))
  {
    var k := Scale(rate);
    hide CeilDiv;
    hide StartsGroup;
    if calls == 0 {
      CeilZero(k);
    } else {
      ElectedIsCeil(rate, calls - 1);
      CeilStep(calls - 1, k);
      OneStartsAll(calls - 1);
    }
  }

  /** So scaling the elected calls back up gives N, over-counted by less than one group, and N itself at rate 1. */
  lemma ElectionBound(rate: nat, calls: nat)
    requires calls <= U64_SIZE
    ensures calls <= Scale(rate) * ElectedCount(rate, calls) < calls + Scale(rate)
  {
    ElectedIsCeil(rate, calls);
    CeilBound(calls, Scale(rate));
  }

  class AllocationTrace {
    var events: seq<TraceEvent>
    var cumulativeObjects: int
    var cumulativeBytes: int

    constructor ()
      ensures events == [] && cumulativeObjects == 0 && cumulativeBytes == 0
    {
      events, cumulativeObjects, cumulativeBytes := [], 0, 0;
    }

    method Record(tsUs: nat, size: int, scale: int, topFrame: Option<FrameKey>)
      modifies this
      ensures cumulativeObjects == Saturate(old(cumulativeObjects) + scale)
      ensures cumulativeBytes == Saturate(old(cumulativeBytes) + SaturatingMul(size, scale))
      ensures events ==
              old(events) +
              [TraceEvent(tsUs, size, SaturatingMul(size, scale), cumulativeObjects, cumulativeBytes, topFrame)]
    {
      var scaledSize := SaturatingMul(size, scale);
      cumulativeObjects := Saturate(cumulativeObjects + scale);
      cumulativeBytes := Saturate(cumulativeBytes + scaledSize);
      events := events + [TraceEvent(tsUs, size, scaledSize, cumulativeObjects, cumulativeBytes, topFrame)];
    }
  }

  /** The first frame that is not the allocation runtime, else the first frame. */
  function TopFrame(frames: Frames): Option<FrameKey> {
    if frames == [] then None else Some(FirstUser(frames, 0))
  }

  function FirstUser(frames: Frames, i: nat): FrameKey
    requires frames != [] && i <= |frames|
    decreases |frames| - i
  {
    if i == |frames| then frames[0] else if !frames[i].IsAllocRuntime() then frames[i] else FirstUser(frames, i + 1)
  }

  /** It is the first that is not the runtime's, or the leaf when all are. */
  lemma {:induction false} FirstUserIs(frames: Frames, i: nat) returns (k: nat)
    requires frames != [] && i <= |frames|
    ensures k < |frames| && FirstUser(frames, i) == frames[k]
    ensures (k >= i && !frames[k].IsAllocRuntime() && forall j :: i <= j < k ==> frames[j].IsAllocRuntime())
            || (k == 0 && forall j :: i <= j < |frames| ==> frames[j].IsAllocRuntime())
    decreases |frames| - i
  {
    if i == |frames| {
      k := 0;
    } else if !frames[i].IsAllocRuntime() {
      k := i;
    } else {
      k := FirstUserIs(frames, i + 1);
    }
  }

  lemma TopFrameIs(frames: Frames) returns (k: nat)
    ensures TopFrame(frames).None? <==> frames == []
    ensures frames != [] ==> k < |frames| && TopFrame(frames) == Some(frames[k])
    ensures frames != [] ==> (forall j :: 0 <= j < k ==> frames[j].IsAllocRuntime())
    ensures frames != [] && frames[k].IsAllocRuntime() ==>
              k == 0 && forall j :: 0 <= j < |frames| ==> frames[j].IsAllocRuntime()
    ensures forall f: FrameKey :: f.IsAllocRuntime() <==>
              f.name.Some? && f.name.value in {"moonbit.malloc", "moonbit.gc.malloc"}
  {
    k := 0;
    if frames != [] {
      k := FirstUserIs(frames, 0);
    }
  }

  class HostState {
    const sampleRate: nat
    const trace: AllocationTrace
    var counter: nat
    var samples: map<Frames, SampleAgg>
    ghost var calls: seq<Call>

    /** The state is what the history of counted calls makes it, and the trace shows the totals of the samples, held at
        the edge of an i64. */
    ghost predicate Valid()
      reads this, trace
    {
      && counter == WrapU64(|calls|)
      && samples == SamplesOf(sampleRate, calls)
      && Total(CountsOf(samples)) >= 0 && trace.cumulativeObjects == Saturate(Total(CountsOf(samples)))
      && Total(BytesOf(samples)) >= 0 && trace.cumulativeBytes == Saturate(Total(BytesOf(samples)))
      && |trace.events| == ElectedCount(sampleRate, |calls|)
    }

    constructor (sampleRate: nat)
      ensures Valid() && fresh(trace) && calls == [] && this.sampleRate == sampleRate
    {
      this.sampleRate := sampleRate;
      trace := new AllocationTrace();
      counter, samples, calls := 0, map[], [];
      new;
      assert CountsOf(samples) == map[] && BytesOf(samples) == map[];
    }

    /** The hook closure. The trace's cumulative totals stay the saturated sums over the sample map, and a call that is
        not elected, or not positive, credits nothing. */
    method AllocHook(size: W.Int32, tsUs: nat, frames: Frames)
      requires Valid()
      modifies this, trace
      ensures Valid()
      ensures calls == if size <= 0 then old(calls) else old(calls) + [Call(size, frames)]
      ensures size > 0 && Elects(sampleRate, |old(calls)|) ==>
                samples == Credit(old(samples), frames, Scale(sampleRate), Scaled(size, sampleRate))
                && trace.cumulativeObjects == Saturate(old(trace.cumulativeObjects) + Scale(sampleRate))
                && trace.cumulativeBytes ==
                  Saturate(old(trace.cumulativeBytes) + SaturatingMul(size, Scale(sampleRate)))
                && trace.events ==
                   old(trace.events) + [TraceEvent(tsUs, size, SaturatingMul(size, Scale(sampleRate)),
                                                   trace.cumulativeObjects, trace.cumulativeBytes, TopFrame(frames))]
      ensures size <= 0 || !Elects(sampleRate, |old(calls)|) ==>
                samples == old(samples) && trace.cumulativeBytes == old(trace.cumulativeBytes)
                && trace.events == old(trace.events)
    {
      hide StartsGroup;
      hide WrapU64;
      hide Total;
      hide Credit;
      hide TopFrame;
      hide Saturate;
      hide CountsOf;
      hide BytesOf;
      if size <= 0 {
        return;
      }
      var n := counter;
      counter := WrapU64(n + 1);
      HistoryStep(sampleRate, calls, Call(size, frames));
      var elected := sampleRate <= 1 || StartsGroup(n, sampleRate);
      assert elected == Elects(sampleRate, |calls|);
      hide Elects;
      hide SamplesOf;
      hide ElectedCount;
      calls := calls + [Call(size, frames)];
      if !elected {
        return;
      }
      var scale := Scale(sampleRate);
      var bytes := Scaled(size, sampleRate);
      CreditTotals(samples, frames, scale, bytes);
      ScaledSize(size, sampleRate);
      SaturateSum(Total(CountsOf(samples)), scale);
      SaturateSum(Total(BytesOf(samples)), bytes);
      hide Scale;
      hide Scaled;
      hide SaturatingMul;
      trace.Record(tsUs, size, scale, TopFrame(frames));
      samples := Credit(samples, frames, scale, bytes);
    }
  }

  /** Saturating at every step is saturating once. */
  lemma SaturateSum(a: nat, b: nat)
    ensures Saturate(Saturate(a) + b) == Saturate(a + b) && Saturate(Saturate(a) + Saturate(b)) == Saturate(a + b)
  {}

  /** The trace's totals are the sums over the sample map exactly as long as those fit an i64. */
  lemma TotalsAgreeIff(state: HostState)
    requires state.Valid()
    ensures state.trace.cumulativeObjects == Total(CountsOf(state.samples)) <==>
              Total(CountsOf(state.samples)) <= I64_MAX
    ensures state.trace.cumulativeBytes == Total(BytesOf(state.samples)) <==> Total(BytesOf(state.samples)) <= I64_MAX
  {}

  /** One more call in the history. */
  lemma HistoryStep(rate: nat, calls: seq<Call>, c: Call)
    ensures WrapU64(WrapU64(|calls|) + 1) == WrapU64(|calls| + 1)
    ensures ElectedCount(rate, |calls| + 1) == ElectedCount(rate, |calls|) + if Elects(rate, |calls|) then 1 else 0
    ensures SamplesOf(rate, calls + [c]) ==
            if Elects(rate, |calls|) then Credit(SamplesOf(rate, calls), c.frames, Scale(rate), Scaled(c.size, rate))
            else SamplesOf(rate, calls)
  {
    assert (calls + [c])[..|calls|] == calls;
  }

  lemma ScaledSize(size: int, rate: nat)
    requires size > 0
    ensures Scaled(size, rate) >= size
    ensures SaturatingMul(size, Scale(rate)) == Saturate(Scaled(size, rate))
  {}
}
