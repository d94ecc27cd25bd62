/** Firefox threads to pprof samples: resolved samples aggregated per stack id,
    and each stack walked from leaf to root. */
module FirefoxThreads {
  import opened Wrappers
  import opened MapSums
  import P = Pprof
  import L = LocationCache

  /** What the caller's sample resolver makes of one sample. */
  datatype ResolvedSample = ResolvedSample(stack: Option<int>, count: int, ns: int)

  /** A thread's stack table and its resolved samples. */
  datatype Thread = Thread(frame: seq<int>, prefix: seq<Option<int>>, samples: seq<ResolvedSample>)

  function PrefixOf(t: Thread, id: int): Option<int> {
    if 0 <= id < |t.prefix| then t.prefix[id] else None
  }

  /** Stack ids are table indices, and every prefix is nearer to a root than its stack. */
  ghost predicate WellFormed(t: Thread, rank: int -> nat) {
    && (forall s :: s in t.samples && s.stack.Some? ==> 0 <= s.stack.value < |t.frame|)
    && (forall id :: 0 <= id < |t.frame| && PrefixOf(t, id).Some? ==>
          0 <= PrefixOf(t, id).value < |t.frame| && rank(PrefixOf(t, id).value) < rank(id))
  }

  /** The frames of a stack, leaf first. */
  ghost function FramesOf(t: Thread, rank: int -> nat, id: int): seq<int>
    requires WellFormed(t, rank) && 0 <= id < |t.frame|
    decreases rank(id)
  {
    [t.frame[id]] + if PrefixOf(t, id).Some? then FramesOf(t, rank, PrefixOf(t, id).value) else []
  }

  /** The leaf comes first, and then the frames of the stack it was called from. */
  lemma LeafFirst(t: Thread, rank: int -> nat, id: int)
    requires WellFormed(t, rank) && 0 <= id < |t.frame|
    ensures FramesOf(t, rank, id)[0] == t.frame[id]
    ensures id >= |t.prefix| || t.prefix[id].None? ==> FramesOf(t, rank, id) == [t.frame[id]]
    ensures id < |t.prefix| && t.prefix[id].Some? ==>
              0 <= t.prefix[id].value < |t.frame|
              && FramesOf(t, rank, id)[1..] == FramesOf(t, rank, t.prefix[id].value)
  {}

  ghost function FramesFrom(t: Thread, rank: int -> nat, s: Option<int>): seq<int>
    requires WellFormed(t, rank) && (s.Some? ==> 0 <= s.value < |t.frame|)
  {
    if s.Some? then FramesOf(t, rank, s.value) else []
  }

  ghost predicate StacksCached(t: Thread, rank: int -> nat, cache: map<int, seq<int>>)
    requires WellFormed(t, rank)
  {
    forall id :: id in cache ==> 0 <= id < |t.frame| && cache[id] == FramesOf(t, rank, id)
  }

  /** `stack_frames`: walks the prefixes once per stack. */
  method StackFrames(t: Thread, id: int, cache: map<int, seq<int>>, ghost rank: int -> nat)
    returns (frames: seq<int>, cache': map<int, seq<int>>)
    requires WellFormed(t, rank) && StacksCached(t, rank, cache) && 0 <= id < |t.frame|
    ensures frames == FramesOf(t, rank, id) && StacksCached(t, rank, cache')
  {
    if id in cache {
      return cache[id], cache;
    }
    frames := [];
    var s := Some(id);
    while s.Some?
      invariant s.Some? ==> 0 <= s.value < |t.frame|
      invariant FramesOf(t, rank, id) == frames + FramesFrom(t, rank, s)
      decreases if s.Some? then rank(s.value) + 1 else 0
    {
      var i := s.value;
      assert frames + ([t.frame[i]] + FramesFrom(t, rank, PrefixOf(t, i))) ==
               frames + [t.frame[i]] + FramesFrom(t, rank, PrefixOf(t, i));
      frames := frames + [t.frame[i]];
      s := PrefixOf(t, i);
    }
    assert frames + [] == frames;
    cache' := cache[id := frames];
  }

  // ------------------------------------------------------------- aggregation

  datatype Sum = Sum(count: int, ns: int)

  /** `entry.0 += count; entry.1 += ns` for every sample with a stack. */
  function Aggregate(samples: seq<ResolvedSample>): map<int, Sum> {
    if samples == [] then map[]
    else
      var m, s := Aggregate(samples[..|samples| - 1]), samples[|samples| - 1];
      if s.stack.None? then m
      else
        var e := if s.stack.value in m then m[s.stack.value] else Sum(0, 0);
        m[s.stack.value := Sum(e.count + s.count, e.ns + s.ns)]
  }

  /** A stack's own samples, summed. */
  function SumOf(samples: seq<ResolvedSample>, id: int): Sum {
    if samples == [] then Sum(0, 0)
    else
      var e, s := SumOf(samples[..|samples| - 1], id), samples[|samples| - 1];
      if s.stack == Some(id) then Sum(e.count + s.count, e.ns + s.ns) else e
  }

  /** All samples that have a stack, summed. */
  function Counted(samples: seq<ResolvedSample>): Sum {
    if samples == [] then Sum(0, 0)
    else
      var e, s := Counted(samples[..|samples| - 1]), samples[|samples| - 1];
      if s.stack.Some? then Sum(e.count + s.count, e.ns + s.ns) else e
  }

  ghost predicate Sampled(samples: seq<ResolvedSample>, id: int) {
    exists s :: s in samples && s.stack == Some(id)
  }

  function CountsOf(m: map<int, Sum>): map<int, int> {
    map id | id in m :: m[id].count
  }

  function NsOf(m: map<int, Sum>): map<int, int> {
    map id | id in m :: m[id].ns
  }

  lemma SampledSnoc(samples: seq<ResolvedSample>, s: ResolvedSample, id: int)
    ensures Sampled(samples + [s], id) <==> Sampled(samples, id) || s.stack == Some(id)
  {
    if Sampled(samples, id) {
      var x :| x in samples && x.stack == Some(id);
      assert x in samples + [s];
    }
    assert s in samples + [s];
  }

  lemma CountedSnoc(samples: seq<ResolvedSample>, s: ResolvedSample)
    ensures Counted(samples + [s]) ==
            if s.stack.Some? then Sum(Counted(samples).count + s.count, Counted(samples).ns + s.ns)
            else Counted(samples)
  {
    assert (samples + [s])[..|samples|] == samples;
  }

  lemma AggregateSnoc(samples: seq<ResolvedSample>, s: ResolvedSample)
    ensures var m := Aggregate(samples);
            Aggregate(samples + [s]) ==
            if s.stack.None? then m
            else
              var e := if s.stack.value in m then m[s.stack.value] else Sum(0, 0);
              m[s.stack.value := Sum(e.count + s.count, e.ns + s.ns)]
  {
    assert (samples + [s])[..|samples|] == samples;
  }

  lemma AddedAt(m: map<int, Sum>, id: int, count: int, ns: int)
    ensures var e := if id in m then m[id] else Sum(0, 0);
            var m' := m[id := Sum(e.count + count, e.ns + ns)];
            CountsOf(m') == AddAt(CountsOf(m), id, count) && NsOf(m') == AddAt(NsOf(m), id, ns)
  {}

  /** The map conserves both totals. */
  lemma {:induction false} AggregateConserves(samples: seq<ResolvedSample>)
    ensures Total(CountsOf(Aggregate(samples))) == Counted(samples).count
    ensures Total(NsOf(Aggregate(samples))) == Counted(samples).ns
  {
    hide Total;
    hide Aggregate;
    hide Counted;
    hide CountsOf;
    hide NsOf;
    hide AddAt;
    if samples == [] {
      NothingConserved();
    } else {
      var init, s := samples[..|samples| - 1], samples[|samples| - 1];
      assert samples == init + [s];
      AggregateConserves(init);
      AggregateSnoc(init, s);
      CountedSnoc(init, s);
      if s.stack.Some? {
        AddedAt(Aggregate(init), s.stack.value, s.count, s.ns);
        TotalAddAt(CountsOf(Aggregate(init)), s.stack.value, s.count);
        TotalAddAt(NsOf(Aggregate(init)), s.stack.value, s.ns);
      }
    }
  }

  lemma NothingConserved()
    ensures Total(CountsOf(Aggregate([]))) == Counted([]).count && Total(NsOf(Aggregate([]))) == Counted([]).ns
  {
    assert CountsOf(map[]) == map[] && NsOf(map[]) == map[];
  }

  /** The map holds exactly the sampled stacks, each with its own sums. */
  lemma {:induction false} AggregateIsExact(samples: seq<ResolvedSample>)
    ensures forall id :: id in Aggregate(samples) <==> Sampled(samples, id)
    ensures forall id :: id in Aggregate(samples) ==> Aggregate(samples)[id] == SumOf(samples, id)
    ensures forall id :: !Sampled(samples, id) ==> SumOf(samples, id) == Sum(0, 0)
  {
    if samples != [] {
      hide Sampled;
      var init, s := samples[..|samples| - 1], samples[|samples| - 1];
      assert samples == init + [s];
      AggregateIsExact(init);
      forall id
        ensures Sampled(samples, id) <==> Sampled(init, id) || s.stack == Some(id)
      {
        SampledSnoc(init, s, id);
      }
    }
  }

  method AggregateSamples(samples: seq<ResolvedSample>) returns (m: map<int, Sum>)
    ensures m == Aggregate(samples)
  {
    m := map[];
    for i := 0 to |samples|
      invariant m == Aggregate(samples[..i])
    {
      assert samples[..i + 1][..i] == samples[..i];
      var rs := samples[i];
      if rs.stack.None? {
        continue;
      }
      var e := if rs.stack.value in m then m[rs.stack.value] else Sum(0, 0);
      m := m[rs.stack.value := Sum(e.count + rs.count, e.ns + rs.ns)];
    }
    assert samples[..|samples|] == samples;
  }

  // ---------------------------------------------------------------- emission

  /** Location ids that are the cached ones of a thread's frames. */
  ghost predicate Stands(cache: map<(nat, int), nat>, thread: nat, ids: seq<nat>, frames: seq<int>) {
    |ids| == |frames| && forall k :: 0 <= k < |ids| ==>
      (thread, frames[k]) in cache && cache[(thread, frames[k])] == ids[k]
  }

  ghost predicate Kept(before: map<(nat, int), nat>, after: map<(nat, int), nat>) {
    forall p :: p in before ==> p in after && after[p] == before[p]
  }

  lemma StandsKept(before: map<(nat, int), nat>, after: map<(nat, int), nat>, thread: nat, ids: seq<nat>,
                   frames: seq<int>)
    requires Stands(before, thread, ids, frames) && Kept(before, after)
    ensures Stands(after, thread, ids, frames)
  {}

  lemma StandsNext(before: map<(nat, int), nat>, after: map<(nat, int), nat>, thread: nat, ids: seq<nat>,
                   frames: seq<int>, id: nat, f: int)
    requires Stands(before, thread, ids, frames) && Kept(before, after) && (thread, f) in after
             && after[(thread, f)] == id
    ensures Stands(after, thread, ids + [id], frames + [f])
  {}

  method InternFrames(state: L.State, thread: nat, frames: seq<int>) returns (ids: seq<nat>)
    requires state.Valid()
    modifies state
    ensures state.Valid() && Kept(old(state.frameToLoc), state.frameToLoc)
            && Stands(state.frameToLoc, thread, ids, frames)
  {
    hide Stands;
    hide L.FunctionsValid;
    hide L.LocationsValid;
    hide L.CacheValid;
    hide L.SafePairs;
    hide L.SafeTables;
    ids := [];
    assert Stands(state.frameToLoc, thread, ids, frames[..0]) by { NothingStands(state.frameToLoc, thread); }
    for k := 0 to |frames|
      invariant state.Valid() && Kept(old(state.frameToLoc), state.frameToLoc)
      invariant Stands(state.frameToLoc, thread, ids, frames[..k])
    {
      assert frames[..k + 1] == frames[..k] + [frames[k]];
      ghost var before := state.frameToLoc;
      var id := state.InternLocation(thread, frames[k]);
      StandsNext(before, state.frameToLoc, thread, ids, frames[..k], id, frames[k]);
      ids := ids + [id];
    }
    assert frames[..|frames|] == frames;
  }

  lemma NothingStands(cache: map<(nat, int), nat>, thread: nat)
    ensures Stands(cache, thread, [], [])
  {}

  ghost predicate Distinct(ids: seq<int>) {
    forall i, j :: 0 <= i < j < |ids| ==> ids[i] != ids[j]
  }

  /** One sample per stack listed, with its sums and the locations of its frames. */
  ghost predicate Emits(samples: seq<P.Sample>, stacks: seq<int>, t: Thread, rank: int -> nat, thread: nat,
                        sums: map<int, Sum>, cache: map<(nat, int), nat>)
    requires WellFormed(t, rank)
  {
    && |samples| == |stacks| && Distinct(stacks)
    && forall k :: 0 <= k < |stacks| ==>
         stacks[k] in sums && 0 <= stacks[k] < |t.frame|
         && samples[k].values == [sums[stacks[k]].count, sums[stacks[k]].ns]
         && Stands(cache, thread, samples[k].locationIds, FramesOf(t, rank, stacks[k]))
  }

  lemma EmitNext(samples: seq<P.Sample>, stacks: seq<int>, t: Thread, rank: int -> nat, thread: nat,
                 sums: map<int, Sum>, before: map<(nat, int), nat>, after: map<(nat, int), nat>, id: int, ids: seq<nat>)
    requires WellFormed(t, rank) && Emits(samples, stacks, t, rank, thread, sums, before) && Kept(before, after)
    requires id in sums && id !in stacks && 0 <= id < |t.frame| && Stands(after, thread, ids, FramesOf(t, rank, id))
    ensures Emits(samples + [P.Sample(ids, [sums[id].count, sums[id].ns])], stacks + [id], t, rank, thread, sums, after)
  {
    hide Stands;
    hide FramesOf;
    hide Kept;
    forall k | 0 <= k < |stacks|
      ensures Stands(after, thread, samples[k].locationIds, FramesOf(t, rank, stacks[k]))
    {
      StandsKept(before, after, thread, samples[k].locationIds, FramesOf(t, rank, stacks[k]));
    }
  }

  /** One thread's turn of `build`: one sample per distinct sampled stack, in whatever order the hash map yields them,
      with the stack's own sums, and locations that are the cached ones of its frames from leaf to root. */
  method BuildThread(state: L.State, t: Thread, thread: nat, ghost rank: int -> nat)
    returns (samples: seq<P.Sample>, ns: int, ghost stacks: seq<int>)
    requires state.Valid() && WellFormed(t, rank)
    modifies state
    ensures state.Valid() && Kept(old(state.frameToLoc), state.frameToLoc)
    ensures Emits(samples, stacks, t, rank, thread, Aggregate(t.samples), state.frameToLoc)
    ensures forall id :: id in stacks <==> Sampled(t.samples, id)
    ensures ns == Counted(t.samples).ns
  {
    hide Stands;
    hide FramesOf;
    hide Emits;
    hide Total;
    hide Aggregate;
    hide WellFormed;
    hide StacksCached;
    hide Sampled;
    hide L.FunctionsValid;
    hide L.LocationsValid;
    hide L.CacheValid;
    hide L.SafePairs;
    var aggregate := AggregateSamples(t.samples);
    AggregateIsExact(t.samples);
    AggregateConserves(t.samples);
    samples, ns, stacks := [], 0, [];
    var stackCache: map<int, seq<int>> := map[];
    var rest := aggregate.Items;
    NothingYet(t, rank, thread, aggregate, state.frameToLoc);
    while rest != {}
      invariant state.Valid() && Kept(old(state.frameToLoc), state.frameToLoc) && StacksCached(t, rank, stackCache)
      invariant Emits(samples, stacks, t, rank, thread, aggregate, state.frameToLoc)
      invariant rest <= aggregate.Items
      invariant forall id :: id in stacks <==> id in aggregate && (id, aggregate[id]) !in rest
      invariant ns + Total(RestNs(aggregate, rest)) == Total(NsOf(aggregate))
      decreases |rest|
    {
      var item :| item in rest;
      var stk, sum := item.0, item.1;
      InRange(t, rank, stk);
      var frames;
      frames, stackCache := StackFrames(t, stk, stackCache, rank);
      ghost var before := state.frameToLoc;
      var locationIds := InternFrames(state, thread, frames);
      EmitNext(samples, stacks, t, rank, thread, aggregate, before, state.frameToLoc, stk, locationIds);
      RestStep(aggregate, rest, item);
      samples := samples + [P.Sample(locationIds, [sum.count, sum.ns])];
      stacks := stacks + [stk];
      ns := ns + sum.ns;
      rest := rest - {item};
    }
    NoRest(aggregate);
  }

  ghost function RestNs(m: map<int, Sum>, rest: set<(int, Sum)>): map<int, int> {
    map id | id in m && (id, m[id]) in rest :: m[id].ns
  }

  lemma RestStep(m: map<int, Sum>, rest: set<(int, Sum)>, item: (int, Sum))
    requires rest <= m.Items && item in rest
    ensures Total(RestNs(m, rest)) == item.1.ns + Total(RestNs(m, rest - {item}))
  {
    assert item.0 in m && m[item.0] == item.1;
    TotalRemove(RestNs(m, rest), item.0);
    hide Total;
    assert RestNs(m, rest) - {item.0} == RestNs(m, rest - {item});
  }

  lemma NoRest(m: map<int, Sum>)
    ensures Total(RestNs(m, {})) == 0
  {
    assert RestNs(m, {}) == map[];
  }

  lemma InRange(t: Thread, rank: int -> nat, id: int)
    requires WellFormed(t, rank)
    ensures Sampled(t.samples, id) ==> 0 <= id < |t.frame|
  {}

  lemma NothingYet(t: Thread, rank: int -> nat, thread: nat, m: map<int, Sum>, cache: map<(nat, int), nat>)
    requires WellFormed(t, rank)
    ensures Emits([], [], t, rank, thread, m, cache) && StacksCached(t, rank, map[]) && RestNs(m, m.Items) == NsOf(m)
  {}
}
