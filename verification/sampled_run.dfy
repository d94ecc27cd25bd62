/** An instrumented run together with the host that hears it: what the sample
    map holds afterwards, in terms of what the original run allocates. */
module SampledRun {
  import opened MapSums
  import opened Sampling
  import opened AllocationSampler
  import W = Wasm
  import I = Instrumentation

  /** The sizes the host counts. */
  function Positive(sizes: seq<W.Int32>): seq<W.Int32> {
    if sizes == [] then []
    else
      var init, size := Positive(sizes[..|sizes| - 1]), sizes[|sizes| - 1];
      if size > 0 then init + [size] else init
  }

  /** The calls counted when the hook is called with these sizes, under these backtraces. */
  function CallsOf(sizes: seq<W.Int32>, stacks: seq<Frames>): seq<Call>
    requires |sizes| == |stacks|
  {
    if sizes == [] then []
    else
      var n := |sizes| - 1;
      CallsOf(sizes[..n], stacks[..n]) + if sizes[n] > 0 then [Call(sizes[n], stacks[n])] else []
  }

  /** The engine calls the host's closure once for every hook call of a run. */
  method Hear(state: HostState, sizes: seq<W.Int32>, stacks: seq<Frames>, times: seq<nat>)
    requires state.Valid() && |sizes| == |stacks| == |times|
    modifies state, state.trace
    ensures state.Valid() && state.calls == old(state.calls) + CallsOf(sizes, stacks)
  {
    hide HostState.Valid;
    for i := 0 to |sizes|
      invariant state.Valid() && state.calls == old(state.calls) + CallsOf(sizes[..i], stacks[..i])
    {
      state.AllocHook(sizes[i], times[i], stacks[i]);
      assert sizes[..i + 1][..i] == sizes[..i] && stacks[..i + 1][..i] == stacks[..i];
    }
    assert sizes[..|sizes|] == sizes && stacks[..|stacks|] == stacks;
  }

  function Sum(sizes: seq<W.Int32>): int {
    if sizes == [] then 0 else Sum(sizes[..|sizes| - 1]) + sizes[|sizes| - 1]
  }

  /** The sum of the elected ones among the counted sizes. */
  function ElectedSum(rate: nat, sizes: seq<W.Int32>): int {
    if sizes == [] then 0
    else ElectedSum(rate, sizes[..|sizes| - 1]) + if Elects(rate, |sizes| - 1) then sizes[|sizes| - 1] else 0
  }

  lemma {:induction false} CallsCounted(rate: nat, sizes: seq<W.Int32>, stacks: seq<Frames>)
    requires |sizes| == |stacks|
    ensures |CallsOf(sizes, stacks)| == |Positive(sizes)|
    ensures ElectedBytes(rate, CallsOf(sizes, stacks)) == ElectedSum(rate, Positive(sizes))
  {
    hide Elects;
    if sizes != [] {
      var n := |sizes| - 1;
      var calls, counted := CallsOf(sizes[..n], stacks[..n]), Positive(sizes[..n]);
      CallsCounted(rate, sizes[..n], stacks[..n]);
      if sizes[n] > 0 {
        assert CallsOf(sizes, stacks) == calls + [Call(sizes[n], stacks[n])] && Positive(sizes) == counted + [sizes[n]];
        assert (calls + [Call(sizes[n], stacks[n])])[..|calls|] == calls;
        assert (counted + [sizes[n]])[..|counted|] == counted;
      } else {
        assert CallsOf(sizes, stacks) == calls && Positive(sizes) == counted;
      }
    }
  }

  lemma {:induction false} AllElected(rate: nat, sizes: seq<W.Int32>)
    requires rate <= 1
    ensures ElectedSum(rate, sizes) == Sum(sizes) && ElectedCount(rate, |sizes|) == |sizes|
  {
    if sizes != [] {
      AllElected(rate, sizes[..|sizes| - 1]);
    }
  }

  lemma ScaleOne(rate: nat)
    requires rate <= 1
    ensures Scale(rate) == 1
  {}

  /** What the sizes promise of the samples: counts and bytes of the elected sizes, times the rate; everything, at rate
      1; at any rate a count that exceeds the true one by less than a group. Each backtrace is credited with its own. */
  ghost predicate Accounts(state: HostState, sizes: seq<W.Int32>, stacks: seq<Frames>)
    requires |sizes| == |stacks|
    reads state
  {
    var counted, rate := Positive(sizes), state.sampleRate;
    && Total(CountsOf(state.samples)) == Scale(rate) * ElectedCount(rate, |counted|)
    && Total(BytesOf(state.samples)) == Scale(rate) * ElectedSum(rate, counted)
    && (rate <= 1 ==>
          Total(CountsOf(state.samples)) == |counted| && Total(BytesOf(state.samples)) == Sum(counted))
    && (|counted| <= U64_SIZE ==>
          |counted| <= Total(CountsOf(state.samples)) < |counted| + Scale(rate))
    && ByStack(state.samples, rate, CallsOf(sizes, stacks))
  }

  /** After the host heard an instrumented run, its samples account for the allocations of the original run. */
  lemma SamplesAccountForTheRun(m: W.Module, fuel: nat, f: W.FuncId, args: seq<W.Value>, store: W.Store,
                                stacks: seq<Frames>, state: HostState)
    requires I.SourceModule(m) && f < |m.funcs| && state.Valid()
    requires var sizes := I.HookSizes(I.EventsOf(I.Run(I.InstrumentModule(m), fuel, f, args, store)));
             |sizes| == |stacks| && state.calls == CallsOf(sizes, stacks)
    ensures var promised := I.PromisedSizes(m, I.EventsOf(I.Run(m, fuel, f, args, store)));
            |promised| == |stacks| && Accounts(state, promised, stacks)
  {
    hide I.SourceModule;
    hide I.InstrumentModule;
    hide I.Run;
    hide I.EventsOf;
    hide I.HookSizes;
    hide I.PromisedSizes;
    hide SamplesOf;
    hide Elects;
    hide Total;
    hide CountsOf;
    hide BytesOf;
    hide Positive;
    hide CallsOf;
    hide ElectedSum;
    hide ElectedCount;
    hide Scale;
    hide ByStack;
    I.HookTraceIsExact(m, fuel, f, args, store);
    var sizes, rate := I.HookSizes(I.EventsOf(I.Run(I.InstrumentModule(m), fuel, f, args, store))), state.sampleRate;
    CallsCounted(rate, sizes, stacks);
    SamplesConserve(rate, state.calls);
    SamplesByStack(rate, state.calls);
    if rate <= 1 {
      AllElected(rate, Positive(sizes));
      assert Scale(rate) == 1 by { ScaleOne(rate); }
    }
    if |Positive(sizes)| <= U64_SIZE {
      ElectionBound(rate, |Positive(sizes)|);
    }
  }
}
