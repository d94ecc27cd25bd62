/** Speedscope sampled profiles, out of pprof and back. */
module Speedscope {
  import opened Wrappers
  import opened Int64
  import opened Text
  import opened StackFormats
  import P = Pprof

  datatype SampledProfile = SampledProfile(profileType: string, name: string, unit: string, startValue: real,
                                           endValue: real, samples: seq<seq<nat>>, weights: seq<real>)

  datatype File = File(name: string, activeProfileIndex: nat, frames: seq<Frame>, profiles: seq<SampledProfile>)

  /** Converting an integer to a 64-bit float. */
  type ToFloat = int -> real

  /** Whole numbers up to 2^53 convert exactly. */
  ghost predicate ExactWhole(toFloat: ToFloat) {
    forall n :: 0 <= n <= FLOAT_EXACT ==> toFloat(n) == n as real
  }

  // -------------------------------------------------------------------- export

  /** The stacks that are exported, root first, with their values. */
  function Counted(p: P.Profile, idx: nat, samples: seq<P.Sample>): seq<(seq<Frame>, int)> {
    if samples == [] then []
    else
      var before, s := Counted(p, idx, samples[..|samples| - 1]), samples[|samples| - 1];
      if P.ValueAt(s, idx) <= 0 || s.locationIds == [] then before
      else before + [(StackOf(p, s.locationIds), P.ValueAt(s, idx))]
  }

  function PushUnique(table: seq<Frame>, f: Frame): seq<Frame> {
    if f in table then table else table + [f]
  }

  function PushAll(table: seq<Frame>, stack: seq<Frame>): seq<Frame> {
    if stack == [] then table else PushUnique(PushAll(table, stack[..|stack| - 1]), stack[|stack| - 1])
  }

  /** All frames in the order they are first used. */
  function TableOf(cs: seq<(seq<Frame>, int)>): seq<Frame> {
    if cs == [] then [] else PushAll(TableOf(cs[..|cs| - 1]), cs[|cs| - 1].0)
  }

  function Total(cs: seq<(seq<Frame>, int)>): int {
    if cs == [] then 0 else Total(cs[..|cs| - 1]) + cs[|cs| - 1].1
  }

  ghost predicate Distinct(table: seq<Frame>) {
    forall i, j :: 0 <= i < j < |table| ==> table[i] != table[j]
  }

  lemma {:induction false} TotalAdd(a: seq<(seq<Frame>, int)>, b: seq<(seq<Frame>, int)>)
    ensures Total(a + b) == Total(a) + Total(b)
    ensures |b| == 1 ==> Total(b) == b[0].1
  {
    if b == [] {
      assert a + b == a;
    } else {
      TotalAdd(a, b[..|b| - 1]);
      assert (a + b)[..|a + b| - 1] == a + b[..|b| - 1];
    }
  }

  /** A stack adds its frames to the table, each where it is first used; what is there stays where it is. */
  lemma {:induction false} PushedFrames(table: seq<Frame>, stack: seq<Frame>)
    ensures table <= PushAll(table, stack)
    ensures forall f :: f in PushAll(table, stack) <==> f in table || f in stack
    ensures Distinct(table) ==> Distinct(PushAll(table, stack))
  {
    if stack != [] {
      var init, last := stack[..|stack| - 1], stack[|stack| - 1];
      PushedFrames(table, init);
      assert stack == init + [last];
      hide PushAll;
      var before := PushAll(table, init);
      assert PushAll(table, stack) == PushUnique(before, last) by {
        PushAllLast(table, stack);
      }
    }
  }

  lemma PushAllLast(table: seq<Frame>, stack: seq<Frame>)
    requires stack != []
    ensures PushAll(table, stack) == PushUnique(PushAll(table, stack[..|stack| - 1]), stack[|stack| - 1])
  {}

  lemma {:induction false} PushAllAdd(table: seq<Frame>, a: seq<Frame>, b: seq<Frame>)
    ensures PushAll(table, a + b) == PushAll(PushAll(table, a), b)
  {
    if b == [] {
      assert a + b == a;
    } else {
      PushAllAdd(table, a, b[..|b| - 1]);
      assert (a + b)[..|a + b| - 1] == a + b[..|b| - 1];
    }
  }

  /** The table holds the frames of the stacks and no others, once each; more stacks only add at its end. */
  lemma {:induction false} TableFrames(cs: seq<(seq<Frame>, int)>)
    ensures forall f :: f in TableOf(cs) <==> exists k :: 0 <= k < |cs| && f in cs[k].0
    ensures Distinct(TableOf(cs))
    ensures cs != [] ==> TableOf(cs[..|cs| - 1]) <= TableOf(cs)
  {
    hide PushAll;
    hide Distinct;
    if cs != [] {
      var init, last := cs[..|cs| - 1], cs[|cs| - 1];
      TableFrames(init);
      PushedFrames(TableOf(init), last.0);
      forall f
        ensures f in TableOf(cs) <==> exists k :: 0 <= k < |cs| && f in cs[k].0
      {
        if k :| 0 <= k < |cs| && f in cs[k].0 {
          assert k < |init| ==> init[k] == cs[k];
        }
        if k :| 0 <= k < |init| && f in init[k].0 {
          assert cs[k] == init[k];
        }
        assert cs[|init|] == last;
      }
    } else {
      assert Distinct([]) by { NoFrames(); }
    }
  }

  lemma NoFrames()
    ensures Distinct([])
  {}

  lemma {:induction false} CountedAdd(p: P.Profile, idx: nat, a: seq<P.Sample>, b: seq<P.Sample>)
    ensures Counted(p, idx, a + b) == Counted(p, idx, a) + Counted(p, idx, b)
  {
    hide StackOf;
    hide P.ValueAt;
    if b == [] {
      assert a + b == a;
    } else {
      CountedAdd(p, idx, a, b[..|b| - 1]);
      assert (a + b)[..|a + b| - 1] == a + b[..|b| - 1];
    }
  }

  /** A sample is exported when its value is positive and it has a stack. */
  lemma CountedSingle(p: P.Profile, idx: nat, s: P.Sample)
    ensures Counted(p, idx, [s]) ==
            if idx < |s.values| && s.values[idx] > 0 && s.locationIds != []
            then [(StackOf(p, s.locationIds), s.values[idx])] else []
  {
    hide StackOf;
    assert [s][..0] == [];
  }

  /** Indices into the frame table that spell a stack. */
  ghost predicate Spells(table: seq<Frame>, ids: seq<nat>, stack: seq<Frame>) {
    |ids| == |stack| && forall j :: 0 <= j < |ids| ==> ids[j] < |table| && table[ids[j]] == stack[j]
  }

  ghost predicate AllSpell(table: seq<Frame>, samples: seq<seq<nat>>, cs: seq<(seq<Frame>, int)>) {
    |samples| == |cs| && forall k :: 0 <= k < |cs| ==> Spells(table, samples[k], cs[k].0)
  }

  ghost predicate Weighs(weights: seq<real>, cs: seq<(seq<Frame>, int)>, toFloat: ToFloat) {
    |weights| == |cs| && forall k :: 0 <= k < |cs| ==> weights[k] == toFloat(cs[k].1)
  }

  /** The file that exports the given stacks. */
  ghost predicate Exports(file: File, name: string, profileName: string, unit: string, cs: seq<(seq<Frame>, int)>,
                          toFloat: ToFloat)
  {
    && file.name == name && file.activeProfileIndex == 0 && file.frames == TableOf(cs) && Distinct(file.frames)
    && |file.profiles| == 1
    && file.profiles[0].profileType == "sampled" && file.profiles[0].name == profileName
    && file.profiles[0].unit == unit
    && file.profiles[0].startValue == 0.0 && file.profiles[0].endValue == toFloat(Total(cs))
    && AllSpell(file.frames, file.profiles[0].samples, cs) && Weighs(file.profiles[0].weights, cs, toFloat)
  }

  /** It is determined by the stacks and their values. */
  lemma ExportUnique(a: File, b: File, name: string, profileName: string, unit: string, cs: seq<(seq<Frame>, int)>,
                     toFloat: ToFloat)
    requires Exports(a, name, profileName, unit, cs, toFloat) && Exports(b, name, profileName, unit, cs, toFloat)
    ensures a == b
  {
    hide TableOf;
    hide Total;
    var x, y := a.profiles[0], b.profiles[0];
    forall k | 0 <= k < |cs|
      ensures x.samples[k] == y.samples[k]
    {
      SpellsOnce(a.frames, x.samples[k], y.samples[k], cs[k].0);
    }
    assert x.samples == y.samples && x.weights == y.weights;
    assert a.profiles == [x] && b.profiles == [y];
  }

  lemma SpellsOnce(table: seq<Frame>, ids: seq<nat>, ids': seq<nat>, stack: seq<Frame>)
    requires Distinct(table) && Spells(table, ids, stack) && Spells(table, ids', stack)
    ensures ids == ids'
  {
    forall j | 0 <= j < |ids|
      ensures ids[j] == ids'[j]
    {
      assert table[ids[j]] == table[ids'[j]];
    }
  }

  ghost predicate TableValid(frames: seq<Frame>, index: map<Frame, nat>) {
    && (forall f :: f in index ==> index[f] < |frames| && frames[index[f]] == f)
    && (forall i :: 0 <= i < |frames| ==> frames[i] in index && index[frames[i]] == i)
  }

  lemma KnownFrame(frames: seq<Frame>, index: map<Frame, nat>, f: Frame)
    requires TableValid(frames, index)
    ensures f in index <==> f in frames
    ensures f in index ==> index[f] < |frames| && frames[index[f]] == f
  {
    if f in frames {
      var i :| 0 <= i < |frames| && frames[i] == f;
    }
  }

  lemma NewFrame(frames: seq<Frame>, index: map<Frame, nat>, f: Frame)
    requires TableValid(frames, index) && f !in index
    ensures TableValid(frames + [f], index[f := |frames|])
  {}

  lemma TableDistinct(frames: seq<Frame>, index: map<Frame, nat>)
    requires TableValid(frames, index)
    ensures Distinct(frames)
  {}

  lemma SpellsNext(table: seq<Frame>, table': seq<Frame>, ids: seq<nat>, stack: seq<Frame>, id: nat, f: Frame)
    requires Spells(table, ids, stack) && table <= table' && id < |table'| && table'[id] == f
    ensures Spells(table', ids + [id], stack + [f])
  {}

  lemma AllSpellNext(table: seq<Frame>, table': seq<Frame>, samples: seq<seq<nat>>, cs: seq<(seq<Frame>, int)>,
                     ids: seq<nat>, c: (seq<Frame>, int))
    requires AllSpell(table, samples, cs) && table <= table' && Spells(table', ids, c.0)
    ensures AllSpell(table', samples + [ids], cs + [c])
  {}

  lemma WeighsNext(weights: seq<real>, cs: seq<(seq<Frame>, int)>, toFloat: ToFloat, c: (seq<Frame>, int))
    requires Weighs(weights, cs, toFloat)
    ensures Weighs(weights + [toFloat(c.1)], cs + [c], toFloat)
  {}

  /** Finds or adds every frame of a stack. */
  method InternStack(stack: seq<Frame>, frames0: seq<Frame>, index0: map<Frame, nat>)
    returns (ids: seq<nat>, frames: seq<Frame>, index: map<Frame, nat>)
    requires TableValid(frames0, index0)
    ensures TableValid(frames, index) && frames == PushAll(frames0, stack) && frames0 <= frames
            && Spells(frames, ids, stack)
  {
    hide TableValid;
    hide Spells;
    ids, frames, index := [], frames0, index0;
    SpellsNothing(frames);
    for j := 0 to |stack|
      invariant TableValid(frames, index) && frames == PushAll(frames0, stack[..j]) && frames0 <= frames
      invariant Spells(frames, ids, stack[..j])
    {
      var frame := stack[j];
      assert stack[..j + 1] == stack[..j] + [frame] && stack[..j + 1][..j] == stack[..j];
      ghost var before := frames;
      KnownFrame(frames, index, frame);
      var id;
      if frame in index {
        id := index[frame];
      } else {
        id := |frames|;
        NewFrame(frames, index, frame);
        index := index[frame := id];
        frames := frames + [frame];
      }
      SpellsNext(before, frames, ids, stack[..j], id, frame);
      ids := ids + [id];
    }
    assert stack[..|stack|] == stack;
  }

  lemma SpellsNothing(table: seq<Frame>)
    ensures Spells(table, [], [])
  {}

  lemma CountedNext(p: P.Profile, idx: nat, i: nat)
    requires i < |p.samples|
    ensures var s := p.samples[i];
            Counted(p, idx, p.samples[..i + 1]) ==
            if P.ValueAt(s, idx) <= 0 || s.locationIds == [] then Counted(p, idx, p.samples[..i])
            else Counted(p, idx, p.samples[..i]) + [(StackOf(p, s.locationIds), P.ValueAt(s, idx))]
  {
    assert p.samples[..i + 1][..i] == p.samples[..i];
  }

  lemma SnocTable(cs: seq<(seq<Frame>, int)>, c: (seq<Frame>, int))
    ensures TableOf(cs + [c]) == PushAll(TableOf(cs), c.0) && Total(cs + [c]) == Total(cs) + c.1
  {
    assert (cs + [c])[..|cs|] == cs;
  }

  /** What exporting a profile gives: the file of the selected axis, or an error when there is none. */
  ghost predicate ExportedAs(p: P.Profile, valueIndex: Option<nat>, name: string, profileName: string,
                             toFloat: ToFloat, r: Result<File, string>)
  {
    match P.SelectAxis(p, valueIndex, IsSpeedscopeUnit)
    case Err(_) => r.Err?
    case Ok(axis) =>
      r.Ok? && Exports(r.value, name, profileName, axis.unit, Counted(p, axis.idx, p.samples), toFloat)
  }

  method PprofToSpeedscope(p: P.Profile, valueIndex: Option<nat>, name: string, profileName: string, toFloat: ToFloat)
    returns (r: Result<File, string>)
    ensures ExportedAs(p, valueIndex, name, profileName, toFloat, r)
  {
    hide TableValid;
    hide Spells;
    hide AllSpell;
    hide Weighs;
    hide Counted;
    hide TableOf;
    hide Total;
    hide PushAll;
    hide StackOf;
    hide P.ValueAt;
    hide P.FirstTimeAxis;
    hide IsSpeedscopeUnit;
    hide Distinct;
    var selected := P.SelectAxis(p, valueIndex, IsSpeedscopeUnit);
    if selected.Err? {
      return Err(selected.error);
    }
    var axis := selected.value;
    var frames: seq<Frame>, index: map<Frame, nat> := [], map[];
    var samples: seq<seq<nat>>, weights: seq<real>, total := [], [], 0;
    ghost var cs: seq<(seq<Frame>, int)> := [];
    NothingExported(p, axis.idx, toFloat);
    for i := 0 to |p.samples|
      invariant cs == Counted(p, axis.idx, p.samples[..i]) && TableValid(frames, index) && frames == TableOf(cs)
      invariant AllSpell(frames, samples, cs) && Weighs(weights, cs, toFloat) && total == Total(cs)
    {
      var s := p.samples[i];
      CountedNext(p, axis.idx, i);
      var value := P.ValueAt(s, axis.idx);
      if value <= 0 {
        continue;
      }
      var stack := StackOf(p, s.locationIds);
      if stack == [] {
        continue;
      }
      ghost var before := frames;
      var stackIds;
      stackIds, frames, index := InternStack(stack, frames, index);
      AllSpellNext(before, frames, samples, cs, stackIds, (stack, value));
      WeighsNext(weights, cs, toFloat, (stack, value));
      SnocTable(cs, (stack, value));
      samples := samples + [stackIds];
      weights := weights + [toFloat(value)];
      total := total + value;
      cs := cs + [(stack, value)];
    }
    assert p.samples[..|p.samples|] == p.samples;
    TableDistinct(frames, index);
    r := Ok(File(name, 0, frames,
                 [SampledProfile("sampled", profileName, axis.unit, 0.0, toFloat(total), samples, weights)]));
  }

  lemma NothingExported(p: P.Profile, idx: nat, toFloat: ToFloat)
    ensures Counted(p, idx, p.samples[..0]) == [] && TableValid([], map[]) && TableOf([]) == [] && Total([]) == 0
    ensures AllSpell([], [], []) && Weighs([], [], toFloat)
  {}

  // -------------------------------------------------------------------- import

  function SpeedscopeValueType(unit: string): (string, string) {
    match unit
    case "nanoseconds" => ("cpu", "nanoseconds")
    case "microseconds" => ("cpu", "microseconds")
    case "milliseconds" => ("cpu", "milliseconds")
    case "seconds" => ("cpu", "seconds")
    case "bytes" => ("space", "bytes")
    case _ => ("samples", "count")
  }

  function OrZero(x: Option<int>): int {
    if x.Some? then x.value else 0
  }

  function OrEmpty(x: Option<string>): string {
    if x.Some? then x.value else ""
  }

  function ShownName(name: string): string {
    if name == "" then "(unknown)" else name
  }

  /** Function and location `i + 1` stand for frame `i`. */
  ghost predicate ImportedFrame(strings: seq<string>, fn: P.Function, l: P.Location, i: nat, f: Frame) {
    && fn.id == i + 1 && l == P.Location(i + 1, 1, 0, [P.Line(i + 1, OrZero(f.line), OrZero(f.col))])
    && 0 <= fn.name < |strings| && strings[fn.name] == ShownName(f.name) && fn.systemName == fn.name
    && 0 <= fn.filename < |strings| && strings[fn.filename] == OrEmpty(f.file)
    && fn.startLine == OrZero(f.line)
  }

  ghost predicate ImportedFrames(strings: seq<string>, functions: seq<P.Function>, locations: seq<P.Location>,
                                 frames: seq<Frame>)
  {
    && |functions| == |locations| == |frames|
    && forall i :: 0 <= i < |frames| ==> ImportedFrame(strings, functions[i], locations[i], i, frames[i])
  }

  lemma ImportedKept(strings: seq<string>, strings': seq<string>, functions: seq<P.Function>,
                     locations: seq<P.Location>, frames: seq<Frame>)
    requires ImportedFrames(strings, functions, locations, frames) && strings <= strings'
    ensures ImportedFrames(strings', functions, locations, frames)
  {
    hide ShownName;
    hide OrEmpty;
    hide OrZero;
  }

  lemma ImportedNext(strings: seq<string>, functions: seq<P.Function>, locations: seq<P.Location>, frames: seq<Frame>,
                     fn: P.Function, l: P.Location, f: Frame)
    requires ImportedFrames(strings, functions, locations, frames) && ImportedFrame(strings, fn, l, |frames|, f)
    ensures ImportedFrames(strings, functions + [fn], locations + [l], frames + [f])
  {
    hide ImportedFrame;
  }

  /** `round().max(0.0) as i64`. */
  function Weight(w: real): int {
    if w < 0.0 then 0
    else
      var n := (w + 0.5).Floor;
      if n > I64_MAX then I64_MAX else n
  }

  function WeightAt(weights: seq<real>, i: nat): int {
    Weight(if i < |weights| then weights[i] else 1.0)
  }

  function LocationId(frame: nat, frames: nat): seq<nat> {
    if frame < frames then [frame + 1] else []
  }

  /** Leaf-first location ids of a root-first stack of frame indices, out-of-range ones dropped. */
  function LocationIds(stack: seq<nat>, frames: nat): (ids: seq<nat>)
    ensures (forall k :: 0 <= k < |stack| ==> stack[k] < frames) ==>
              |ids| == |stack| && forall k :: 0 <= k < |stack| ==> ids[k] == stack[|stack| - 1 - k] + 1
  {
    if stack == [] then [] else LocationIds(stack[1..], frames) + LocationId(stack[0], frames)
  }

  function ImportedSamples(samples: seq<seq<nat>>, weights: seq<real>, frames: nat): seq<P.Sample> {
    if samples == [] then []
    else
      var n := |samples| - 1;
      var before := ImportedSamples(samples[..n], weights, frames);
      var weight, ids := WeightAt(weights, n), LocationIds(samples[n], frames);
      if weight == 0 || ids == [] then before else before + [P.Sample(ids, [1, weight])]
  }

  /** A weight is rounded to the nearest whole number, ties upward, and kept between 0 and the largest i64; a sample
      without a weight weighs 1. */
  lemma WeightReads(weights: seq<real>, i: nat)
    ensures var w, n := if i < |weights| then weights[i] else 1.0, WeightAt(weights, i);
            && 0 <= n <= 9_223_372_036_854_775_807
            && (w < n as real + 0.5 || n == 9_223_372_036_854_775_807) && (n as real - 0.5 <= w || n == 0)
    ensures i >= |weights| ==> WeightAt(weights, i) == 1
  {}

  lemma {:induction false} LocationIdsAdd(a: seq<nat>, b: seq<nat>, frames: nat)
    ensures LocationIds(a + b, frames) == LocationIds(b, frames) + LocationIds(a, frames)
  {
    hide LocationIds;
    hide LocationId;
    if a == [] {
      assert a + b == b && LocationIds(a, frames) == [];
    } else {
      LocationIdsAdd(a[1..], b, frames);
      LocationIdsFirst(a, frames);
      LocationIdsFirst(a + b, frames);
      assert (a + b)[1..] == a[1..] + b && (a + b)[0] == a[0];
      var x, xs, ys := LocationId(a[0], frames), LocationIds(a[1..], frames), LocationIds(b, frames);
      assert ys + xs + x == ys + (xs + x);
    }
  }

  lemma LocationIdsFirst(stack: seq<nat>, frames: nat)
    requires stack != []
    ensures LocationIds(stack, frames) == LocationIds(stack[1..], frames) + LocationId(stack[0], frames)
  {}

  lemma OneLocationId(i: nat, frames: nat)
    ensures LocationIds([i], frames) == if i < frames then [i + 1] else []
  {}

  /** Each sample is imported with the weight at its own place. */
  lemma {:induction false} ImportedSamplesAdd(a: seq<seq<nat>>, b: seq<seq<nat>>, weights: seq<real>, frames: nat)
    ensures ImportedSamples(a + b, weights, frames) ==
            ImportedSamples(a, weights, frames)
            + ImportedSamples(b, if |a| < |weights| then weights[|a|..] else [], frames)
  {
    hide WeightAt;
    hide LocationIds;
    if b == [] {
      assert a + b == a;
    } else {
      var init, later := b[..|b| - 1], if |a| < |weights| then weights[|a|..] else [];
      ImportedSamplesAdd(a, init, weights, frames);
      LaterWeight(weights, |a|, |init|);
      assert (a + b)[..|a + b| - 1] == a + init && (a + b)[|a + b| - 1] == b[|b| - 1];
    }
  }

  lemma LaterWeight(weights: seq<real>, n: nat, i: nat)
    ensures WeightAt(if n < |weights| then weights[n..] else [], i) == WeightAt(weights, n + i)
  {
    hide Weight;
  }

  lemma OneImportedSample(ids: seq<nat>, weights: seq<real>, frames: nat)
    ensures var w, locs := WeightAt(weights, 0), LocationIds(ids, frames);
            ImportedSamples([ids], weights, frames) ==
            if w != 0 && locs != [] then [P.Sample(locs, [1, w])] else []
  {
    hide WeightAt;
    hide LocationIds;
    assert [ids][..0] == [];
  }

  ghost predicate TypesSpell(strings: seq<string>, types: seq<P.ValueType>, second: (string, string)) {
    && |types| == 2
    && 0 <= types[0].ty < |strings| && strings[types[0].ty] == "samples"
    && 0 <= types[1].ty < |strings| && strings[types[1].ty] == second.0
    && 0 <= types[0].unit < |strings| && strings[types[0].unit] == "count"
    && 0 <= types[1].unit < |strings| && strings[types[1].unit] == second.1
  }

  lemma TypesKept(strings: seq<string>, strings': seq<string>, types: seq<P.ValueType>, second: (string, string))
    requires TypesSpell(strings, types, second) && strings <= strings'
    ensures TypesSpell(strings', types, second)
  {}

  method InternTypes(pool: StringPool, samples: string, count: string, ty: string, unit: string)
    returns (types: seq<P.ValueType>)
    requires pool.Valid()
    modifies pool
    ensures pool.Valid() && |types| == 2
    ensures 0 <= types[0].ty < |pool.strings| && pool.strings[types[0].ty] == samples
    ensures 0 <= types[1].ty < |pool.strings| && pool.strings[types[1].ty] == ty
    ensures 0 <= types[0].unit < |pool.strings| && pool.strings[types[0].unit] == count
    ensures 0 <= types[1].unit < |pool.strings| && pool.strings[types[1].unit] == unit
  {
    hide StringPool.Valid;
    var t0 := pool.Intern(samples);
    var u0 := pool.Intern(count);
    var t1 := pool.Intern(ty);
    var u1 := pool.Intern(unit);
    types := [P.ValueType(t0, u0), P.ValueType(t1, u1)];
  }

  /** One function and one location per shared frame. */
  method ImportFrames(pool: StringPool, frames: seq<Frame>)
    returns (functions: seq<P.Function>, locations: seq<P.Location>)
    requires pool.Valid()
    modifies pool
    ensures pool.Valid() && old(pool.strings) <= pool.strings
    ensures ImportedFrames(pool.strings, functions, locations, frames)
  {
    hide StringPool.Valid;
    hide ImportedFrames;
    functions, locations := [], [];
    NothingImported(pool.strings);
    for i := 0 to |frames|
      invariant pool.Valid() && old(pool.strings) <= pool.strings
      invariant |functions| == i && ImportedFrames(pool.strings, functions, locations, frames[..i])
    {
      var frame := frames[i];
      assert frames[..i + 1] == frames[..i] + [frame];
      ghost var before := pool.strings;
      var name := pool.Intern(if frame.name == "" then "(unknown)" else frame.name);
      var filename := pool.Intern(OrEmpty(frame.file));
      ImportedKept(before, pool.strings, functions, locations, frames[..i]);
      var fn := P.Function(i + 1, name, name, filename, OrZero(frame.line));
      var l := P.Location(i + 1, 1, 0, [P.Line(i + 1, OrZero(frame.line), OrZero(frame.col))]);
      ImportedNext(pool.strings, functions, locations, frames[..i], fn, l, frame);
      functions := functions + [fn];
      locations := locations + [l];
    }
    assert frames[..|frames|] == frames;
  }

  lemma NothingImported(strings: seq<string>)
    ensures ImportedFrames(strings, [], [], [])
  {}

  lemma SamplesStep(samples: seq<seq<nat>>, weights: seq<real>, frames: nat, i: nat)
    requires i < |samples|
    ensures var before := ImportedSamples(samples[..i], weights, frames);
            var weight, ids := WeightAt(weights, i), LocationIds(samples[i], frames);
            ImportedSamples(samples[..i + 1], weights, frames) ==
            if weight == 0 || ids == [] then before else before + [P.Sample(ids, [1, weight])]
  {
    assert samples[..i + 1][..i] == samples[..i];
  }

  /** What an import of a profile of the file gives. */
  ghost predicate Imports(q: P.Profile, frames: seq<Frame>, profile: SampledProfile) {
    && ImportedFrames(q.strings, q.functions, q.locations, frames)
    && q.samples == ImportedSamples(profile.samples, profile.weights, |frames|)
    && TypesSpell(q.strings, q.sampleTypes, SpeedscopeValueType(profile.unit))
    && q.durationNanos == DurationNanos(Weight(profile.endValue - profile.startValue), profile.unit)
  }

  method SpeedscopeToPprof(file: File, profileIndex: nat, mappingFilename: string)
    returns (r: Result<P.Profile, string>)
    ensures r.Ok? <==> profileIndex < |file.profiles| && file.profiles[profileIndex].profileType == "sampled"
    ensures r.Ok? ==> Imports(r.value, file.frames, file.profiles[profileIndex])
  {
    hide StringPool.Valid;
    hide ImportedFrames;
    hide SpeedscopeValueType;
    hide WeightAt;
    hide LocationIds;
    hide ImportedSamples;
    if profileIndex >= |file.profiles| {
      return Err("profile index out of range");
    }
    var profile := file.profiles[profileIndex];
    if profile.profileType != "sampled" {
      return Err("only Speedscope sampled profiles are supported");
    }
    var pool := new StringPool();
    var second := SpeedscopeValueType(profile.unit);
    var types := InternTypes(pool, "samples", "count", second.0, second.1);
    ghost var before := pool.strings;
    var _ := pool.Intern(mappingFilename);
    var functions, locations := ImportFrames(pool, file.frames);
    TypesKept(before, pool.strings, types, second);
    var strings := pool.strings;
    hide TypesSpell;
    var samples: seq<P.Sample> := [];
    NoSamples(profile, |file.frames|);
    for i := 0 to |profile.samples|
      invariant samples == ImportedSamples(profile.samples[..i], profile.weights, |file.frames|)
    {
      SamplesStep(profile.samples, profile.weights, |file.frames|, i);
      var weight := WeightAt(profile.weights, i);
      if weight == 0 {
        continue;
      }
      var locationIds := LocationIds(profile.samples[i], |file.frames|);
      if locationIds == [] {
        continue;
      }
      samples := samples + [P.Sample(locationIds, [1, weight])];
    }
    assert profile.samples[..|profile.samples|] == profile.samples;
    var span := profile.endValue - profile.startValue;
    r := Ok(P.Profile(types, samples, locations, functions, strings, 0, DurationNanos(Weight(span), profile.unit)));
  }

  lemma NoSamples(profile: SampledProfile, frames: nat)
    ensures ImportedSamples(profile.samples[..0], profile.weights, frames) == []
  {}

  // ------------------------------------------------------------- the fixed point

  /** Frames as the resolver shows them: a name, and no empty file or non-positive position. */
  predicate Normal(f: Frame) {
    && f.name != "" && (f.file.Some? ==> f.file.value != "")
    && (f.line.Some? ==> f.line.value > 0) && (f.col.Some? ==> f.col.value > 0)
  }

  lemma ShownIsNormal(p: P.Profile, locId: nat)
    ensures Normal(FrameForLocation(p, locId))
  {
    hide P.LocationMap;
    hide P.FunctionMap;
    hide Digits;
  }

  /** A normal frame shows again as itself after an import. */
  lemma FrameKept(q: P.Profile, frames: seq<Frame>, id: nat)
    requires ImportedFrames(q.strings, q.functions, q.locations, frames) && 1 <= id <= |frames|
             && Normal(frames[id - 1])
    ensures FrameForLocation(q, id) == frames[id - 1]
  {
    hide FrameForLocation;
    assert ImportedFrame(q.strings, q.functions[id - 1], q.locations[id - 1], id - 1, frames[id - 1]);
    forall i | 0 <= i < |frames|
      ensures q.functions[i].id == i + 1 && q.locations[i].id == i + 1
    {
      assert ImportedFrame(q.strings, q.functions[i], q.locations[i], i, frames[i]);
    }
    DenseFrame(q, id);
  }

  /** Any frame shows as a normal one: without what is empty or not positive, and never without a name. */
  lemma FrameShown(q: P.Profile, frames: seq<Frame>, id: nat)
    requires ImportedFrames(q.strings, q.functions, q.locations, frames) && 1 <= id <= |frames|
    ensures var f, shown := frames[id - 1], FrameForLocation(q, id);
            && shown.name == (if f.name == "" then "(unknown)" else f.name)
            && shown.file == (if f.file == Some("") then None else f.file)
            && shown.line == (if f.line.Some? && f.line.value <= 0 then None else f.line)
            && shown.col == (if f.col.Some? && f.col.value <= 0 then None else f.col)
  {
    hide FrameForLocation;
    assert ImportedFrame(q.strings, q.functions[id - 1], q.locations[id - 1], id - 1, frames[id - 1]);
    forall i | 0 <= i < |frames|
      ensures q.functions[i].id == i + 1 && q.locations[i].id == i + 1
    {
      assert ImportedFrame(q.strings, q.functions[i], q.locations[i], i, frames[i]);
    }
    DenseFrame(q, id);
  }

  ghost predicate AllNormal(stack: seq<Frame>) {
    forall j :: 0 <= j < |stack| ==> Normal(stack[j])
  }

  lemma StackKept(q: P.Profile, frames: seq<Frame>, ids: seq<nat>, stack: seq<Frame>)
    requires ImportedFrames(q.strings, q.functions, q.locations, frames) && Spells(frames, ids, stack)
             && AllNormal(stack)
    ensures StackOf(q, LocationIds(ids, |frames|)) == stack && |LocationIds(ids, |frames|)| == |stack|
  {
    hide ImportedFrames;
    hide FrameForLocation;
    hide StackOf;
    hide LocationIds;
    hide Normal;
    var locs := LocationIds(ids, |frames|);
    forall j | 0 <= j < |stack|
      ensures StackOf(q, locs)[j] == stack[j]
    {
      assert Normal(stack[j]) && frames[ids[j]] == stack[j];
      FrameKept(q, frames, ids[j] + 1);
    }
  }

  ghost predicate Sound(cs: seq<(seq<Frame>, int)>) {
    forall k :: 0 <= k < |cs| ==> cs[k].0 != [] && cs[k].1 >= 1 && AllNormal(cs[k].0)
  }

  lemma {:induction false} CountedSound(p: P.Profile, idx: nat, samples: seq<P.Sample>)
    ensures Sound(Counted(p, idx, samples))
  {
    hide Counted;
    hide Normal;
    hide StackOf;
    hide FrameForLocation;
    if samples == [] {
      NoneCounted(p, idx);
    } else {
      var s := samples[|samples| - 1];
      CountedSound(p, idx, samples[..|samples| - 1]);
      CountedLast(p, idx, samples);
      forall j | 0 <= j < |s.locationIds|
        ensures Normal(StackOf(p, s.locationIds)[j])
      {
        ShownIsNormal(p, s.locationIds[|s.locationIds| - 1 - j]);
      }
    }
  }

  lemma NoneCounted(p: P.Profile, idx: nat)
    ensures Counted(p, idx, []) == []
  {}

  lemma CountedLast(p: P.Profile, idx: nat, samples: seq<P.Sample>)
    requires samples != []
    ensures var s := samples[|samples| - 1];
            Counted(p, idx, samples) ==
            if P.ValueAt(s, idx) <= 0 || s.locationIds == [] then Counted(p, idx, samples[..|samples| - 1])
            else Counted(p, idx, samples[..|samples| - 1]) + [(StackOf(p, s.locationIds), P.ValueAt(s, idx))]
  {}

  lemma WholeWeight(w: real, n: int)
    requires w == n as real && 1 <= n <= FLOAT_EXACT
    ensures Weight(w) == n
  {
    assert (n as real + 0.5).Floor == n;
  }

  ghost predicate WithinExact(cs: seq<(seq<Frame>, int)>) {
    forall k :: 0 <= k < |cs| ==> cs[k].1 <= FLOAT_EXACT
  }

  /** The stacks and values as the import reads them: what rounds to zero is dropped. */
  function Reread(cs: seq<(seq<Frame>, int)>, toFloat: ToFloat): seq<(seq<Frame>, int)> {
    if cs == [] then []
    else
      var before, c := Reread(cs[..|cs| - 1], toFloat), cs[|cs| - 1];
      if Weight(toFloat(c.1)) == 0 then before else before + [(c.0, Weight(toFloat(c.1)))]
  }

  lemma RereadNext(cs: seq<(seq<Frame>, int)>, toFloat: ToFloat, n: nat)
    requires n < |cs|
    ensures var before, w := Reread(cs[..n], toFloat), Weight(toFloat(cs[n].1));
            Reread(cs[..n + 1], toFloat) == if w == 0 then before else before + [(cs[n].0, w)]
  {
    assert cs[..n + 1][..n] == cs[..n];
  }

  /** One exported sample comes back with its stack and its weight's value. */
  lemma SampleKept(q: P.Profile, frames: seq<Frame>, cs: seq<(seq<Frame>, int)>, samples: seq<seq<nat>>,
                   weights: seq<real>, toFloat: ToFloat, k: nat)
    requires ImportedFrames(q.strings, q.functions, q.locations, frames) && AllSpell(frames, samples, cs)
    requires Weighs(weights, cs, toFloat) && Sound(cs) && k < |cs| == |samples|
    ensures WeightAt(weights, k) == Weight(toFloat(cs[k].1)) >= 0 && LocationIds(samples[k], |frames|) != []
    ensures StackOf(q, LocationIds(samples[k], |frames|)) == cs[k].0
  {
    hide ImportedFrames;
    hide Spells;
    hide AllNormal;
    hide StackOf;
    hide LocationIds;
    StackKept(q, frames, samples[k], cs[k].0);
    assert weights[k] == toFloat(cs[k].1);
  }

  lemma CountedSnoc(q: P.Profile, idx: nat, before: seq<P.Sample>, s: P.Sample, stack: seq<Frame>, value: int)
    requires s.locationIds != [] && P.ValueAt(s, idx) == value >= 1 && StackOf(q, s.locationIds) == stack
    ensures Counted(q, idx, before + [s]) == Counted(q, idx, before) + [(stack, value)]
  {
    CountedLast(q, idx, before + [s]);
    assert (before + [s])[..|before|] == before;
  }

  /** Importing an export and reading axis 1 gives the same stacks, in order, with their values as read back. */
  lemma {:induction false} StacksKept(q: P.Profile, frames: seq<Frame>, cs: seq<(seq<Frame>, int)>,
                                      samples: seq<seq<nat>>, weights: seq<real>, toFloat: ToFloat, n: nat)
    requires ImportedFrames(q.strings, q.functions, q.locations, frames) && AllSpell(frames, samples, cs)
    requires Weighs(weights, cs, toFloat) && Sound(cs) && n <= |cs| == |samples|
    ensures Counted(q, 1, ImportedSamples(samples[..n], weights, |frames|)) == Reread(cs[..n], toFloat)
  {
    hide ImportedFrames;
    hide Weighs;
    hide Sound;
    hide StackOf;
    hide LocationIds;
    hide WeightAt;
    hide Weight;
    hide AllSpell;
    hide ImportedSamples;
    hide Counted;
    hide Reread;
    NothingKept(q, samples, weights, |frames|, cs, toFloat);
    if n > 0 {
      StacksKept(q, frames, cs, samples, weights, toFloat, n - 1);
      RereadNext(cs, toFloat, n - 1);
      KeptAt(q, frames, cs, samples, weights, toFloat, n - 1);
    }
  }

  lemma KeptAt(q: P.Profile, frames: seq<Frame>, cs: seq<(seq<Frame>, int)>, samples: seq<seq<nat>>,
               weights: seq<real>, toFloat: ToFloat, k: nat)
    requires ImportedFrames(q.strings, q.functions, q.locations, frames) && AllSpell(frames, samples, cs)
    requires Weighs(weights, cs, toFloat) && Sound(cs) && k < |cs| == |samples|
    ensures var w, before := Weight(toFloat(cs[k].1)), Counted(q, 1, ImportedSamples(samples[..k], weights, |frames|));
            Counted(q, 1, ImportedSamples(samples[..k + 1], weights, |frames|)) ==
            if w == 0 then before else before + [(cs[k].0, w)]
  {
    hide ImportedFrames;
    hide Weighs;
    hide Sound;
    hide StackOf;
    hide LocationIds;
    hide WeightAt;
    hide Weight;
    hide AllSpell;
    hide ImportedSamples;
    hide Counted;
    SampleKept(q, frames, cs, samples, weights, toFloat, k);
    SamplesStep(samples, weights, |frames|, k);
    SnocKept(q, ImportedSamples(samples[..k], weights, |frames|), LocationIds(samples[k], |frames|),
             Weight(toFloat(cs[k].1)), cs[k].0);
  }

  lemma SnocKept(q: P.Profile, before: seq<P.Sample>, ids: seq<nat>, w: int, stack: seq<Frame>)
    requires ids != [] && w >= 0 && StackOf(q, ids) == stack
    ensures Counted(q, 1, if w == 0 then before else before + [P.Sample(ids, [1, w])]) ==
            if w == 0 then Counted(q, 1, before) else Counted(q, 1, before) + [(stack, w)]
  {
    hide Counted;
    hide StackOf;
    if w != 0 {
      CountedSnoc(q, 1, before, P.Sample(ids, [1, w]), stack, w);
    }
  }

  lemma TimeAxis(q: P.Profile, unit: string)
    requires TypesSpell(q.strings, q.sampleTypes, SpeedscopeValueType(unit))
    ensures P.SelectAxis(q, None, IsSpeedscopeUnit) ==
            if P.IsTimeUnit(unit) then Ok(P.Axis(1, unit)) else Err("no CPU/wall time sample_type found")
  {
    assert P.FirstTimeAxis(q, IsSpeedscopeUnit, 0) == P.FirstTimeAxis(q, IsSpeedscopeUnit, 1);
    assert !P.IsTimeUnit(unit) ==> P.FirstTimeAxis(q, IsSpeedscopeUnit, 1) == P.FirstTimeAxis(q, IsSpeedscopeUnit, 2);
  }

  lemma NothingKept(q: P.Profile, samples: seq<seq<nat>>, weights: seq<real>, frames: nat,
                    cs: seq<(seq<Frame>, int)>, toFloat: ToFloat)
    ensures Counted(q, 1, ImportedSamples(samples[..0], weights, frames)) == []
    ensures Reread(cs[..0], toFloat) == []
  {}

  lemma ValueAxis(q: P.Profile, unit: string)
    requires TypesSpell(q.strings, q.sampleTypes, SpeedscopeValueType(unit))
    ensures P.SelectAxis(q, Some(1), IsSpeedscopeUnit) == Ok(P.Axis(1, SpeedscopeValueType(unit).1))
  {}

  /** Every weight reads back as a value with the same weight, and so does their total. */
  ghost predicate WeightsSurvive(cs: seq<(seq<Frame>, int)>, toFloat: ToFloat) {
    && (forall k :: 0 <= k < |cs| ==>
          var w := Weight(toFloat(cs[k].1)); w != 0 && toFloat(w) == toFloat(cs[k].1))
    && toFloat(Total(Reread(cs, toFloat))) == toFloat(Total(cs))
  }

  lemma {:induction false} RereadKeeps(cs: seq<(seq<Frame>, int)>, toFloat: ToFloat)
    ensures |Reread(cs, toFloat)| <= |cs|
    ensures |Reread(cs, toFloat)| == |cs| <==> forall k :: 0 <= k < |cs| ==> Weight(toFloat(cs[k].1)) != 0
    ensures |Reread(cs, toFloat)| == |cs| ==>
              forall k :: 0 <= k < |cs| ==> Reread(cs, toFloat)[k] == (cs[k].0, Weight(toFloat(cs[k].1)))
  {
    hide Weight;
    if cs != [] {
      RereadKeeps(cs[..|cs| - 1], toFloat);
    }
  }

  lemma {:induction false} TableOfStacks(cs: seq<(seq<Frame>, int)>, ds: seq<(seq<Frame>, int)>)
    requires |cs| == |ds| && forall k :: 0 <= k < |cs| ==> cs[k].0 == ds[k].0
    ensures TableOf(cs) == TableOf(ds)
  {
    hide PushAll;
    if cs != [] {
      TableOfStacks(cs[..|cs| - 1], ds[..|ds| - 1]);
    }
  }

  /** The export of what was read back is the first file exactly when the unit and the weights survive. */
  lemma SameFileIff(a: File, b: File, name: string, profileName: string, unit: string, unit': string,
                    cs: seq<(seq<Frame>, int)>, toFloat: ToFloat)
    requires Exports(a, name, profileName, unit, cs, toFloat)
    requires Exports(b, name, profileName, unit', Reread(cs, toFloat), toFloat)
    ensures a == b <==> unit == unit' && WeightsSurvive(cs, toFloat)
  {
    hide TableOf;
    hide Total;
    hide Reread;
    hide Weight;
    hide AllSpell;
    hide Distinct;
    RereadKeeps(cs, toFloat);
    var ds, x, y := Reread(cs, toFloat), a.profiles[0], b.profiles[0];
    if unit == unit' && WeightsSurvive(cs, toFloat) {
      TableOfStacks(cs, ds);
      SameSpelling(a.frames, x.samples, y.samples, cs, ds);
      assert x.weights == y.weights;
      assert a.profiles == [x] && b.profiles == [y];
    }
    if a == b {
      assert x.weights == y.weights && |ds| == |cs|;
      assert forall k :: 0 <= k < |cs| ==> x.weights[k] == y.weights[k];
    }
  }

  lemma SameSpelling(table: seq<Frame>, xs: seq<seq<nat>>, ys: seq<seq<nat>>, cs: seq<(seq<Frame>, int)>,
                     ds: seq<(seq<Frame>, int)>)
    requires Distinct(table) && AllSpell(table, xs, cs) && AllSpell(table, ys, ds)
    requires |cs| == |ds| && forall k :: 0 <= k < |cs| ==> cs[k].0 == ds[k].0
    ensures xs == ys
  {
    hide Distinct;
    hide Spells;
    forall k | 0 <= k < |cs|
      ensures xs[k] == ys[k]
    {
      SpellsOnce(table, xs[k], ys[k], cs[k].0);
    }
  }

  /** Export, import, export again. The import always succeeds, with the stacks in order and their values as read back.
      The second export of the default axis finds one exactly for units of time, and is then the first file exactly when
      the weights survive; that of axis 1 is the first file exactly when, besides, the unit survives. */
  ghost predicate SpeedscopeTrip(p: P.Profile, axis: P.Axis, toFloat: ToFloat, first: File, imported: P.Profile,
                                 second: Result<File, string>, third: Result<File, string>)
  {
    var cs := Counted(p, axis.idx, p.samples);
    && Counted(imported, 1, imported.samples) == Reread(cs, toFloat)
    && (second.Ok? <==> P.IsTimeUnit(axis.unit)) && third.Ok?
    && (second == Ok(first) <==> P.IsTimeUnit(axis.unit) && WeightsSurvive(cs, toFloat))
    && (third == Ok(first) <==> SpeedscopeValueType(axis.unit).1 == axis.unit && WeightsSurvive(cs, toFloat))
  }

  ghost predicate RoundTripped(p: P.Profile, valueIndex: Option<nat>, name: string, profileName: string,
                               toFloat: ToFloat, first: Result<File, string>, imported: Result<P.Profile, string>,
                               second: Result<File, string>, third: Result<File, string>)
  {
    match P.SelectAxis(p, valueIndex, IsSpeedscopeUnit)
    case Err(_) => first.Err?
    case Ok(axis) =>
      first.Ok? && imported.Ok?
      && Exports(first.value, name, profileName, axis.unit, Counted(p, axis.idx, p.samples), toFloat)
      && SpeedscopeTrip(p, axis, toFloat, first.value, imported.value, second, third)
  }

  method SpeedscopeRoundTrip(p: P.Profile, valueIndex: Option<nat>, name: string, profileName: string,
                             mappingFilename: string, toFloat: ToFloat)
    returns (first: Result<File, string>, imported: Result<P.Profile, string>, second: Result<File, string>,
             third: Result<File, string>)
    ensures RoundTripped(p, valueIndex, name, profileName, toFloat, first, imported, second, third)
  {
    hide IsSpeedscopeUnit;
    hide P.FirstTimeAxis;
    hide Counted;
    hide Exports;
    hide ImportedFrames;
    hide ImportedSamples;
    hide TypesSpell;
    hide SpeedscopeTrip;
    hide SpeedscopeValueType;
    imported, second, third := Err("not imported"), Err("not imported"), Err("not imported");
    first := PprofToSpeedscope(p, valueIndex, name, profileName, toFloat);
    if first.Err? {
      return;
    }
    ghost var axis := P.SelectAxis(p, valueIndex, IsSpeedscopeUnit).value;
    ghost var cs := Counted(p, axis.idx, p.samples);
    OneProfile(first.value, name, profileName, axis.unit, cs, toFloat);
    imported := SpeedscopeToPprof(first.value, 0, mappingFilename);
    second := PprofToSpeedscope(imported.value, None, name, profileName, toFloat);
    third := PprofToSpeedscope(imported.value, Some(1), name, profileName, toFloat);
    TripHolds(p, axis, name, profileName, toFloat, first.value, imported.value, second, third);
  }

  lemma OneProfile(file: File, name: string, profileName: string, unit: string, cs: seq<(seq<Frame>, int)>,
                   toFloat: ToFloat)
    requires Exports(file, name, profileName, unit, cs, toFloat)
    ensures |file.profiles| == 1 && file.profiles[0].profileType == "sampled" && file.profiles[0].unit == unit
    ensures AllSpell(file.frames, file.profiles[0].samples, cs) && Weighs(file.profiles[0].weights, cs, toFloat)
  {
    hide AllSpell;
    hide Weighs;
  }

  lemma TripHolds(p: P.Profile, axis: P.Axis, name: string, profileName: string, toFloat: ToFloat, first: File,
                  imported: P.Profile, second: Result<File, string>, third: Result<File, string>)
    requires Exports(first, name, profileName, axis.unit, Counted(p, axis.idx, p.samples), toFloat)
    requires |first.profiles| == 1 && Imports(imported, first.frames, first.profiles[0])
    requires ExportedAs(imported, None, name, profileName, toFloat, second)
    requires ExportedAs(imported, Some(1), name, profileName, toFloat, third)
    ensures SpeedscopeTrip(p, axis, toFloat, first, imported, second, third)
  {
    hide P.SelectAxis;
    hide Exports;
    hide Counted;
    hide SpeedscopeValueType;
    hide TypesSpell;
    hide ImportedFrames;
    hide ImportedSamples;
    hide WeightsSurvive;
    hide Reread;
    hide IsSpeedscopeUnit;
    hide P.IsTimeUnit;
    var cs := Counted(p, axis.idx, p.samples);
    OneProfile(first, name, profileName, axis.unit, cs, toFloat);
    TimeAxis(imported, axis.unit);
    ValueAxis(imported, axis.unit);
    KeptWhole(imported, first, cs, toFloat, p, axis.idx);
    SameFileIff(first, third.value, name, profileName, axis.unit, SpeedscopeValueType(axis.unit).1, cs, toFloat);
    if P.IsTimeUnit(axis.unit) {
      SameFileIff(first, second.value, name, profileName, axis.unit, axis.unit, cs, toFloat);
    }
  }

  lemma KeptWhole(q: P.Profile, file: File, cs: seq<(seq<Frame>, int)>, toFloat: ToFloat, p: P.Profile, idx: nat)
    requires |file.profiles| == 1 && Imports(q, file.frames, file.profiles[0])
    requires AllSpell(file.frames, file.profiles[0].samples, cs) && Weighs(file.profiles[0].weights, cs, toFloat)
    requires cs == Counted(p, idx, p.samples)
    ensures Counted(q, 1, q.samples) == Reread(cs, toFloat)
  {
    hide Weighs;
    hide ImportedFrames;
    hide ImportedSamples;
    hide TypesSpell;
    hide Counted;
    hide Spells;
    hide Reread;
    var profile := file.profiles[0];
    CountedSound(p, idx, p.samples);
    assert |cs| == |profile.samples|;
    hide Sound;
    StacksKept(q, file.frames, cs, profile.samples, profile.weights, toFloat, |cs|);
    assert profile.samples[..|cs|] == profile.samples && cs[..|cs|] == cs;
  }

  /** The units that come back: those of time, bytes and a plain count. */
  lemma UnitSurvivesIff(unit: string)
    ensures SpeedscopeValueType(unit).1 == unit <==> P.IsTimeUnit(unit) || unit == "bytes" || unit == "count"
    ensures SpeedscopeValueType(unit).1 != unit ==> SpeedscopeValueType(unit) == ("samples", "count")
    ensures SpeedscopeValueType(unit).0 ==
            if P.IsTimeUnit(unit) then "cpu" else if unit == "bytes" then "space" else "samples"
  {}

  /** An axis can be exported exactly when its unit comes back, or is none; a plain count cannot. */
  lemma UnitsExported(unit: string)
    ensures IsSpeedscopeUnit(unit) <==> unit == "none" || (SpeedscopeValueType(unit).1 == unit && unit != "count")
  {}

  /** Values up to 2^53 survive, and are read back as themselves. */
  lemma {:induction false} ExactSurvive(cs: seq<(seq<Frame>, int)>, toFloat: ToFloat)
    requires ExactWhole(toFloat) && WithinExact(cs) && forall k :: 0 <= k < |cs| ==> cs[k].1 >= 1
    ensures Reread(cs, toFloat) == cs && WeightsSurvive(cs, toFloat)
  {
    hide Weight;
    hide Total;
    RereadKeeps(cs, toFloat);
    forall k | 0 <= k < |cs|
      ensures Weight(toFloat(cs[k].1)) == cs[k].1
    {
      WholeWeight(toFloat(cs[k].1), cs[k].1);
    }
  }

  /** Converting a positive value gives a float that reads back as a value of the same float, as rounding does. */
  ghost predicate Rounds(toFloat: ToFloat) {
    forall v: int :: v >= 1 ==> Weight(toFloat(v)) >= 1 && toFloat(Weight(toFloat(v))) == toFloat(v)
  }

  /** Beyond that, with a rounding conversion, every weight survives and only the total can tell. */
  lemma RoundedSurviveIff(cs: seq<(seq<Frame>, int)>, toFloat: ToFloat)
    requires Rounds(toFloat) && forall k :: 0 <= k < |cs| ==> cs[k].1 >= 1
    ensures WeightsSurvive(cs, toFloat) <==> toFloat(Total(Reread(cs, toFloat))) == toFloat(Total(cs))
  {
    hide Weight;
    hide Total;
    hide Reread;
    forall k | 0 <= k < |cs|
      ensures Weight(toFloat(cs[k].1)) != 0 && toFloat(Weight(toFloat(cs[k].1))) == toFloat(cs[k].1)
    {
      var v := cs[k].1;
      assert v >= 1;
    }
  }
}
