/** Firefox profiles to pprof: locations found through two caches, one per
    thread and frame, one per resolved content. */
module LocationCache {
  import opened Text
  import P = Pprof
  import B = CpuProfiles

  const US := B.SEP
  const RS := '\U{1e}'

  /** One frame of a resolved inline chain; chains are leaf first. */
  datatype ResolvedFrame = ResolvedFrame(name: string, file: string, line: int, mapping: nat, address: nat)

  type Chain = seq<ResolvedFrame>

  // ------------------------------------------------------ the canonical string

  function FrameText(f: ResolvedFrame): string {
    Decimal(f.mapping) + [US] + (Decimal(f.address) + [US] + (f.name + [US] + DecimalInt(f.line)))
  }

  function Canonical(chain: Chain): string {
    if chain == [] then ""
    else if |chain| == 1 then FrameText(chain[0])
    else FrameText(chain[0]) + [RS] + Canonical(chain[1..])
  }

  /** What the canonical string keeps of a frame. */
  datatype Key = Key(mapping: nat, address: nat, name: string, line: int)

  function KeyOf(f: ResolvedFrame): Key {
    Key(f.mapping, f.address, f.name, f.line)
  }

  function Keys(chain: Chain): seq<Key> {
    if chain == [] then [] else [KeyOf(chain[0])] + Keys(chain[1..])
  }

  /** Names without the two separators. */
  predicate NameSafe(chain: Chain) {
    forall k :: 0 <= k < |chain| ==> Free(chain[k].name, US) && Free(chain[k].name, RS)
  }

  lemma DecimalFree(n: nat, c: char)
    requires !IsDigit(c)
    ensures Free(Decimal(n), c)
  {
    DecimalIsDigits(n);
    forall i | 0 <= i < |Decimal(n)|
      ensures Decimal(n)[i] != c
    {
      assert Decimal(n)[i] in Decimal(n);
    }
  }

  lemma FrameTextInjective(f: ResolvedFrame, g: ResolvedFrame)
    requires Free(f.name, US) && Free(g.name, US) && FrameText(f) == FrameText(g)
    ensures KeyOf(f) == KeyOf(g)
  {
    hide Decimal;
    hide DecimalInt;
    DecimalFree(f.mapping, US);
    DecimalFree(g.mapping, US);
    DecimalFree(f.address, US);
    DecimalFree(g.address, US);
    var x, y := f.name + [US] + DecimalInt(f.line), g.name + [US] + DecimalInt(g.line);
    SplitAt(US, Decimal(f.mapping), Decimal(g.mapping), Decimal(f.address) + [US] + x, Decimal(g.address) + [US] + y);
    DecimalInjective(f.mapping, g.mapping);
    SplitAt(US, Decimal(f.address), Decimal(g.address), x, y);
    DecimalInjective(f.address, g.address);
    SplitAt(US, f.name, g.name, DecimalInt(f.line), DecimalInt(g.line));
    DecimalIntInjective(f.line, g.line);
  }

  lemma FreeAppend(a: string, b: string, c: char)
    requires Free(a, c) && Free(b, c)
    ensures Free(a + b, c)
  {}

  lemma FrameTextFree(f: ResolvedFrame)
    requires Free(f.name, RS)
    ensures Free(FrameText(f), RS) && FrameText(f) != ""
  {
    DecimalFree(f.mapping, RS);
    DecimalFree(f.address, RS);
    DecimalFree(if f.line < 0 then -f.line else f.line, RS);
    hide Decimal;
    FreeAppend(if f.line < 0 then "-" else "", Decimal(if f.line < 0 then -f.line else f.line), RS);
    var line := DecimalInt(f.line);
    assert "" + Decimal(if f.line < 0 then -f.line else f.line) == Decimal(if f.line < 0 then -f.line else f.line);
    hide DecimalInt;
    FreeAppend([US], line, RS);
    FreeAppend(f.name, [US] + line, RS);
    assert f.name + ([US] + line) == f.name + [US] + line;
    var rest := f.name + [US] + line;
    FreeAppend([US], rest, RS);
    FreeAppend(Decimal(f.address), [US] + rest, RS);
    assert Decimal(f.address) + ([US] + rest) == Decimal(f.address) + [US] + rest;
  }

  lemma CanonicalCons(chain: Chain)
    requires |chain| >= 2
    ensures Canonical(chain) == FrameText(chain[0]) + [RS] + Canonical(chain[1..])
  {}

  lemma FreeHasNone(a: string, x: string, y: string)
    requires Free(a, RS)
    ensures a != x + [RS] + y
  {
    assert (x + [RS] + y)[|x|] == RS;
  }

  /** The content cache tells chains apart exactly by mapping, address, name and line of every frame; the file does not
      take part. */
  lemma {:induction false} CanonicalInjective(a: Chain, b: Chain)
    requires NameSafe(a) && NameSafe(b)
    ensures Canonical(a) == Canonical(b) <==> Keys(a) == Keys(b)
  {
    if a != [] && b != [] {
      CanonicalInjective(a[1..], b[1..]);
      FrameTextFree(a[0]);
      FrameTextFree(b[0]);
      hide Canonical;
      CanonicalHeads(a, b);
    } else {
      EmptyOnly(a);
      EmptyOnly(b);
    }
  }

  lemma EmptyOnly(a: Chain)
    requires NameSafe(a)
    ensures (Canonical(a) == "" <==> a == []) && (Keys(a) == [] <==> a == [])
  {
    if a != [] {
      FrameTextFree(a[0]);
    }
  }

  lemma SameKeyText(f: ResolvedFrame, g: ResolvedFrame)
    requires Free(f.name, US) && Free(g.name, US)
    ensures FrameText(f) == FrameText(g) <==> KeyOf(f) == KeyOf(g)
  {
    if FrameText(f) == FrameText(g) {
      FrameTextInjective(f, g);
    }
  }

  lemma KeysCons(a: Chain, b: Chain)
    requires a != [] && b != []
    ensures Keys(a) == Keys(b) <==> KeyOf(a[0]) == KeyOf(b[0]) && Keys(a[1..]) == Keys(b[1..])
  {
    var x, y := Keys(a), Keys(b);
    assert x[0] == KeyOf(a[0]) && x[1..] == Keys(a[1..]) && y[0] == KeyOf(b[0]) && y[1..] == Keys(b[1..]);
  }

  lemma {:induction false} KeysLength(a: Chain)
    ensures |Keys(a)| == |a|
    ensures forall k :: 0 <= k < |a| ==> Keys(a)[k] == KeyOf(a[k])
  {
    if a != [] {
      KeysLength(a[1..]);
    }
  }

  lemma CanonicalOne(a: Chain)
    requires |a| == 1
    ensures Canonical(a) == FrameText(a[0])
  {}

  lemma CanonicalHeads(a: Chain, b: Chain)
    requires NameSafe(a) && NameSafe(b) && a != [] && b != []
    requires Free(FrameText(a[0]), RS) && Free(FrameText(b[0]), RS)
    requires Canonical(a[1..]) == Canonical(b[1..]) <==> Keys(a[1..]) == Keys(b[1..])
    ensures Canonical(a) == Canonical(b) <==> Keys(a) == Keys(b)
  {
    hide Canonical;
    hide FrameText;
    hide Keys;
    KeysCons(a, b);
    KeysLength(a[1..]);
    KeysLength(b[1..]);
    SameKeyText(a[0], b[0]);
    if |a| == 1 {
      CanonicalOne(a);
    } else {
      CanonicalCons(a);
    }
    if |b| == 1 {
      CanonicalOne(b);
    } else {
      CanonicalCons(b);
    }
    if |a| == 1 && |b| == 1 {
      assert a[1..] == b[1..];
    } else if |a| == 1 {
      FreeHasNone(FrameText(a[0]), FrameText(b[0]), Canonical(b[1..]));
    } else if |b| == 1 {
      FreeHasNone(FrameText(b[0]), FrameText(a[0]), Canonical(a[1..]));
    } else if Canonical(a) == Canonical(b) {
      SplitAt(RS, FrameText(a[0]), FrameText(b[0]), Canonical(a[1..]), Canonical(b[1..]));
    }
  }

  // ------------------------------------------------------------------ tables

  function FunctionKey(name: string, file: string): string {
    name + [US] + file
  }

  /** A function entry spells the name and file it was made from. */
  ghost predicate SpellsFunction(strings: seq<string>, demangle: string -> string, fn: P.Function, name: string,
                                 file: string)
  {
    && 0 <= fn.name < |strings| && strings[fn.name] == demangle(name)
    && 0 <= fn.systemName < |strings| && strings[fn.systemName] == name
    && 0 <= fn.filename < |strings| && strings[fn.filename] == file
    && fn.startLine == 0
  }

  /** Functions are dense from id 1, found by the key of their source, and spell that source. */
  ghost predicate FunctionsValid(strings: seq<string>, demangle: string -> string, functions: seq<P.Function>,
                                 index: map<string, nat>, sources: seq<(string, string)>) {
    && |functions| == |sources|
    && (forall i :: 0 <= i < |functions| ==>
          functions[i].id == i + 1 && SpellsFunction(strings, demangle, functions[i], sources[i].0, sources[i].1))
    && (forall k :: k in index ==>
          1 <= index[k] <= |functions| && FunctionKey(sources[index[k] - 1].0, sources[index[k] - 1].1) == k)
    && (forall i :: 0 <= i < |sources| ==>
          FunctionKey(sources[i].0, sources[i].1) in index && index[FunctionKey(sources[i].0, sources[i].1)] == i + 1)
  }

  /** A line shows a frame: its number, and a function with the frame's key. */
  ghost predicate SpellsLine(sources: seq<(string, string)>, l: P.Line, f: ResolvedFrame) {
    && l.line == f.line && l.column == 0 && 1 <= l.functionId <= |sources|
    && FunctionKey(sources[l.functionId - 1].0, sources[l.functionId - 1].1) == FunctionKey(f.name, f.file)
  }

  ghost predicate SpellsLines(sources: seq<(string, string)>, lines: seq<P.Line>, chain: Chain) {
    |lines| == |chain| && forall k :: 0 <= k < |chain| ==> SpellsLine(sources, lines[k], chain[k])
  }

  ghost predicate SpellsChain(sources: seq<(string, string)>, l: P.Location, chain: Chain) {
    && l.address == (if chain == [] then 0 else chain[0].address)
    && l.mappingId == (if chain == [] then 1 else chain[0].mapping + 1)
    && SpellsLines(sources, l.lines, chain)
  }

  /** Locations are dense from id 1, one per distinct canonical string, and spell the chain they were made from. */
  ghost predicate LocationsValid(sources: seq<(string, string)>, locations: seq<P.Location>,
                                 canonical: map<string, nat>, chains: seq<Chain>) {
    && |locations| == |chains|
    && (forall i :: 0 <= i < |chains| ==> locations[i].id == i + 1 && SpellsChain(sources, locations[i], chains[i]))
    && (forall k :: k in canonical ==> 1 <= canonical[k] <= |chains| && Canonical(chains[canonical[k] - 1]) == k)
    && (forall i :: 0 <= i < |chains| ==> Canonical(chains[i]) in canonical && canonical[Canonical(chains[i])] == i + 1)
  }

  type Resolver = (nat, int) -> Chain

  ghost predicate CacheValid(resolve: Resolver, cache: map<(nat, int), nat>, chains: seq<Chain>) {
    forall p :: p in cache ==>
      1 <= cache[p] <= |chains| && Canonical(chains[cache[p] - 1]) == Canonical(resolve(p.0, p.1))
  }

  /** No name resolved for these pairs holds a separator. */
  ghost predicate SafePairs(resolve: Resolver, pairs: set<(nat, int)>) {
    forall p :: p in pairs ==> NameSafe(resolve(p.0, p.1))
  }

  ghost predicate SafeTables(sources: seq<(string, string)>, chains: seq<Chain>) {
    && (forall i :: 0 <= i < |sources| ==> Free(sources[i].0, US))
    && (forall i :: 0 <= i < |chains| ==> NameSafe(chains[i]))
  }

  lemma FunctionsKept(strings: seq<string>, strings': seq<string>, demangle: string -> string,
                      functions: seq<P.Function>, index: map<string, nat>, sources: seq<(string, string)>)
    requires FunctionsValid(strings, demangle, functions, index, sources) && strings <= strings'
    ensures FunctionsValid(strings', demangle, functions, index, sources)
  {
    hide FunctionKey;
  }

  lemma FunctionAdded(strings: seq<string>, demangle: string -> string, functions: seq<P.Function>,
                      index: map<string, nat>,
                      sources: seq<(string, string)>, fn: P.Function, name: string, file: string)
    requires FunctionsValid(strings, demangle, functions, index, sources) && FunctionKey(name, file) !in index
    requires fn.id == |functions| + 1 && SpellsFunction(strings, demangle, fn, name, file)
    ensures FunctionsValid(strings, demangle, functions + [fn], index[FunctionKey(name, file) := fn.id],
                           sources + [(name, file)])
  {
    hide FunctionKey;
    hide SpellsFunction;
  }

  lemma KnownFunction(strings: seq<string>, demangle: string -> string, functions: seq<P.Function>,
                      index: map<string, nat>, sources: seq<(string, string)>, key: string)
    requires FunctionsValid(strings, demangle, functions, index, sources)
    ensures |functions| == |sources|
    ensures key in index ==>
              1 <= index[key] <= |sources| && FunctionKey(sources[index[key] - 1].0, sources[index[key] - 1].1) == key
  {}

  lemma LinesKept(sources: seq<(string, string)>, sources': seq<(string, string)>, lines: seq<P.Line>, chain: Chain)
    requires SpellsLines(sources, lines, chain) && sources <= sources'
    ensures SpellsLines(sources', lines, chain)
  {
    hide FunctionKey;
  }

  lemma LinesNext(sources: seq<(string, string)>, lines: seq<P.Line>, chain: Chain, l: P.Line, f: ResolvedFrame)
    requires SpellsLines(sources, lines, chain) && SpellsLine(sources, l, f)
    ensures SpellsLines(sources, lines + [l], chain + [f])
  {
    hide SpellsLine;
  }

  lemma LocationsKept(sources: seq<(string, string)>, sources': seq<(string, string)>, locations: seq<P.Location>,
                      canonical: map<string, nat>, chains: seq<Chain>)
    requires LocationsValid(sources, locations, canonical, chains) && sources <= sources'
    ensures LocationsValid(sources', locations, canonical, chains)
  {
    hide SpellsLines;
    hide Canonical;
    forall i | 0 <= i < |chains|
      ensures SpellsChain(sources', locations[i], chains[i])
    {
      LinesKept(sources, sources', locations[i].lines, chains[i]);
    }
  }

  lemma LocationAdded(sources: seq<(string, string)>, locations: seq<P.Location>, canonical: map<string, nat>,
                      chains: seq<Chain>, l: P.Location, chain: Chain)
    requires LocationsValid(sources, locations, canonical, chains) && Canonical(chain) !in canonical
    requires l.id == |locations| + 1 && SpellsChain(sources, l, chain)
    ensures LocationsValid(sources, locations + [l], canonical[Canonical(chain) := l.id], chains + [chain])
  {
    hide SpellsChain;
    hide Canonical;
  }

  lemma KnownLocation(sources: seq<(string, string)>, locations: seq<P.Location>, canonical: map<string, nat>,
                      chains: seq<Chain>, key: string)
    requires LocationsValid(sources, locations, canonical, chains)
    ensures |locations| == |chains|
    ensures key in canonical ==> 1 <= canonical[key] <= |chains| && Canonical(chains[canonical[key] - 1]) == key
  {}

  lemma CacheAdded(resolve: Resolver, cache: map<(nat, int), nat>, chains: seq<Chain>, chains': seq<Chain>,
                   p: (nat, int), id: nat)
    requires CacheValid(resolve, cache, chains) && chains <= chains'
    requires 1 <= id <= |chains'| && Canonical(chains'[id - 1]) == Canonical(resolve(p.0, p.1))
    ensures CacheValid(resolve, cache[p := id], chains')
  {
    hide Canonical;
  }

  class State {
    const demangle: string -> string
    const resolve: Resolver
    var strings: seq<string>
    var stringIndex: map<string, int>
    var functions: seq<P.Function>
    var funcIndex: map<string, nat>
    var locations: seq<P.Location>
    var locCanonical: map<string, nat>
    var frameToLoc: map<(nat, int), nat>
    ghost var sources: seq<(string, string)>
    ghost var chains: seq<Chain>
    ghost var asked: set<(nat, int)>

    /** The tables agree with each other, and hold only what the pairs asked for so far resolve to. */
    ghost predicate Tables()
      reads this
    {
      && B.StringsValid(strings, stringIndex)
      && FunctionsValid(strings, demangle, functions, funcIndex, sources)
      && LocationsValid(sources, locations, locCanonical, chains)
      && CacheValid(resolve, frameToLoc, chains)
      && (SafePairs(resolve, asked) ==> SafeTables(sources, chains))
    }

    ghost predicate Valid()
      reads this
    {
      Tables() && frameToLoc.Keys == asked
    }

    constructor (demangle: string -> string, resolve: Resolver)
      ensures Valid() && this.demangle == demangle && this.resolve == resolve && frameToLoc == map[]
    {
      this.demangle, this.resolve := demangle, resolve;
      strings, stringIndex := [""], map["" := 0];
      functions, funcIndex, locations, locCanonical, frameToLoc := [], map[], [], map[], map[];
      sources, chains, asked := [], [], {};
      new;
      hide B.StringsValid;
      hide FunctionsValid;
      hide LocationsValid;
      FreshTables(demangle, resolve);
      var _ := Intern("samples");
      var _ := Intern("count");
      var _ := Intern("cpu");
      var _ := Intern("nanoseconds");
    }

    /** Ids once issued never change. */
    twostate predicate Grown()
      reads this
    {
      && old(strings) <= strings && old(functions) <= functions && old(locations) <= locations
      && old(sources) <= sources && old(chains) <= chains
      && forall p :: p in old(frameToLoc) ==> p in frameToLoc && frameToLoc[p] == old(frameToLoc)[p]
    }

    method Intern(s: string) returns (id: int)
      requires Tables()
      modifies this`strings, this`stringIndex
      ensures Tables() && old(strings) <= strings
      ensures 0 <= id < |strings| && strings[id] == s
    {
      hide FunctionsValid;
      hide LocationsValid;
      hide CacheValid;
      hide SafePairs;
      hide SafeTables;
      if s in stringIndex {
        return stringIndex[s];
      }
      id := |strings|;
      ghost var before := strings;
      strings := strings + [s];
      stringIndex := stringIndex[s := id];
      assert B.StringsValid(strings, stringIndex);
      FunctionsKept(before, strings, demangle, functions, funcIndex, sources);
    }

    method InternFunction(name: string, file: string) returns (id: nat)
      requires Tables() && (SafePairs(resolve, asked) ==> Free(name, US))
      modifies this`strings, this`stringIndex, this`functions, this`funcIndex, this`sources
      ensures Tables() && Grown()
      ensures 1 <= id <= |functions| == |sources|
              && FunctionKey(sources[id - 1].0, sources[id - 1].1) == FunctionKey(name, file)
    {
      hide FunctionKey;
      hide FunctionsValid;
      hide LocationsValid;
      hide B.StringsValid;
      hide SafePairs;
      hide CacheValid;
      var key := FunctionKey(name, file);
      KnownFunction(strings, demangle, functions, funcIndex, sources, key);
      if key in funcIndex {
        return funcIndex[key];
      }
      var pretty := demangle(name);
      id := |functions| + 1;
      var nameId := Intern(pretty);
      var systemName := Intern(name);
      var filename := Intern(file);
      var fn := P.Function(id, nameId, systemName, filename, 0);
      assert SpellsFunction(strings, demangle, fn, name, file);
      hide SpellsFunction;
      FunctionAdded(strings, demangle, functions, funcIndex, sources, fn, name, file);
      LocationsKept(sources, sources + [(name, file)], locations, locCanonical, chains);
      functions := functions + [fn];
      funcIndex := funcIndex[key := id];
      sources := sources + [(name, file)];
    }

    /** The lines of a chain, leaf first. */
    method InternLines(chain: Chain) returns (lines: seq<P.Line>)
      requires Tables() && (SafePairs(resolve, asked) ==> NameSafe(chain))
      modifies this`strings, this`stringIndex, this`functions, this`funcIndex, this`sources
      ensures Tables() && Grown() && SpellsLines(sources, lines, chain)
    {
      hide FunctionKey;
      hide FunctionsValid;
      hide LocationsValid;
      hide B.StringsValid;
      hide SafePairs;
      hide SafeTables;
      hide CacheValid;
      hide SpellsLines;
      lines := [];
      NoLines(sources);
      for k := 0 to |chain|
        invariant Tables() && Grown() && SpellsLines(sources, lines, chain[..k])
      {
        var fr := chain[k];
        assert chain[..k + 1] == chain[..k] + [fr];
        ghost var before := sources;
        var funcId := InternFunction(fr.name, fr.file);
        LinesKept(before, sources, lines, chain[..k]);
        LinesNext(sources, lines, chain[..k], P.Line(funcId, fr.line, 0), fr);
        lines := lines + [P.Line(funcId, fr.line, 0)];
      }
      assert chain[..|chain|] == chain;
    }

    /** `intern_location`: the pair's own cache first, then the content cache, then a new location. */
    method InternLocation(thread: nat, frame: int) returns (id: nat)
      requires Valid()
      modifies this
      ensures Valid() && Grown()
      ensures (thread, frame) in frameToLoc && frameToLoc[(thread, frame)] == id
      ensures forall p :: p in frameToLoc ==> p in old(frameToLoc) || p == (thread, frame)
    {
      hide FunctionsValid;
      hide LocationsValid;
      hide B.StringsValid;
      hide SafeTables;
      hide CacheValid;
      hide SpellsLines;
      hide Canonical;
      if (thread, frame) in frameToLoc {
        return frameToLoc[(thread, frame)];
      }
      asked := asked + {(thread, frame)};
      var frames := resolve(thread, frame);
      var canonical := Canonical(frames);
      ghost var was, before := frameToLoc, chains;
      KnownLocation(sources, locations, locCanonical, chains, canonical);
      if canonical in locCanonical {
        id := locCanonical[canonical];
        CacheAdded(resolve, frameToLoc, chains, chains, (thread, frame), id);
        frameToLoc := frameToLoc[(thread, frame) := id];
        return;
      }
      id := AddLocation(frames, canonical);
      CacheAdded(resolve, was, before, chains, (thread, frame), id);
      frameToLoc := frameToLoc[(thread, frame) := id];
    }

    method AddLocation(frames: Chain, canonical: string) returns (id: nat)
      requires Tables() && canonical == Canonical(frames) && canonical !in locCanonical
      requires SafePairs(resolve, asked) ==> NameSafe(frames)
      modifies this`strings, this`stringIndex, this`functions, this`funcIndex, this`sources,
               this`locations, this`locCanonical, this`chains
      ensures Tables() && Grown() && id == |locations| == |chains| && chains == old(chains) + [frames]
    {
      hide FunctionsValid;
      hide LocationsValid;
      hide B.StringsValid;
      hide SafePairs;
      hide CacheValid;
      hide SpellsLines;
      hide Canonical;
      hide NameSafe;
      var headAddress := if frames != [] then frames[0].address else 0;
      var headMapping := if frames != [] then frames[0].mapping + 1 else 1;
      var lines := InternLines(frames);
      KnownLocation(sources, locations, locCanonical, chains, canonical);
      id := |locations| + 1;
      var location := P.Location(id, headMapping, headAddress, lines);
      LocationAdded(sources, locations, locCanonical, chains, location, frames);
      ChainsGrow(resolve, frameToLoc, chains, frames);
      locations := locations + [location];
      locCanonical := locCanonical[canonical := id];
      chains := chains + [frames];
    }
  }

  lemma ChainsGrow(resolve: Resolver, cache: map<(nat, int), nat>, chains: seq<Chain>, chain: Chain)
    requires CacheValid(resolve, cache, chains)
    ensures CacheValid(resolve, cache, chains + [chain])
  {
    hide Canonical;
  }

  lemma NoLines(sources: seq<(string, string)>)
    ensures SpellsLines(sources, [], [])
  {}

  lemma FreshTables(demangle: string -> string, resolve: Resolver)
    ensures B.StringsValid([""], map["" := 0]) && FunctionsValid([""], demangle, [], map[], [])
            && LocationsValid([], [], map[], [])
    ensures CacheValid(resolve, map[], [])
  {}

  // ------------------------------------------------------------------ results

  /** Two pairs share a location exactly when their chains have the same canonical string. */
  lemma SharedIffCanonical(resolve: Resolver, cache: map<(nat, int), nat>, sources: seq<(string, string)>,
                           locations: seq<P.Location>, canonical: map<string, nat>, chains: seq<Chain>, p: (nat, int),
                           q: (nat, int))
    requires LocationsValid(sources, locations, canonical, chains) && CacheValid(resolve, cache, chains)
    requires p in cache && q in cache
    ensures cache[p] == cache[q] <==> Canonical(resolve(p.0, p.1)) == Canonical(resolve(q.0, q.1))
  {
    hide Canonical;
    hide SpellsChain;
    hide LocationsValid;
    LocationByContent(sources, locations, canonical, chains, cache[p] - 1);
    LocationByContent(sources, locations, canonical, chains, cache[q] - 1);
  }

  /** So when the names of both hold no separator: exactly when their resolved chains agree on mapping, address, name
      and line throughout. */
  lemma SameLocationIff(resolve: Resolver, cache: map<(nat, int), nat>, sources: seq<(string, string)>,
                        locations: seq<P.Location>, canonical: map<string, nat>, chains: seq<Chain>, p: (nat, int),
                        q: (nat, int))
    requires LocationsValid(sources, locations, canonical, chains) && CacheValid(resolve, cache, chains)
    requires p in cache && q in cache && NameSafe(resolve(p.0, p.1)) && NameSafe(resolve(q.0, q.1))
    ensures cache[p] == cache[q] <==> Keys(resolve(p.0, p.1)) == Keys(resolve(q.0, q.1))
  {
    hide Canonical;
    hide NameSafe;
    hide Keys;
    hide LocationsValid;
    hide CacheValid;
    SharedIffCanonical(resolve, cache, sources, locations, canonical, chains, p, q);
    CanonicalInjective(resolve(p.0, p.1), resolve(q.0, q.1));
  }

  lemma LocationByContent(sources: seq<(string, string)>, locations: seq<P.Location>, canonical: map<string, nat>,
                          chains: seq<Chain>, i: nat)
    requires LocationsValid(sources, locations, canonical, chains) && i < |chains|
    ensures Canonical(chains[i]) in canonical && canonical[Canonical(chains[i])] == i + 1
    ensures |locations| == |chains| && locations[i].id == i + 1 && SpellsChain(sources, locations[i], chains[i])
  {
    hide Canonical;
    hide SpellsChain;
  }

  /** What a reader sees on one line of a location. */
  function ShownLine(strings: seq<string>, functions: seq<P.Function>, l: P.Line): B.Resolved
    requires l.functionId in P.FunctionMap(functions)
  {
    var fn := P.FunctionMap(functions)[l.functionId];
    B.Resolved(P.StringAt(strings, fn.name), P.StringAt(strings, fn.systemName), l.line)
  }

  lemma SourceShown(strings: seq<string>, demangle: string -> string, functions: seq<P.Function>,
                    index: map<string, nat>, sources: seq<(string, string)>, l: P.Line, f: ResolvedFrame)
    requires FunctionsValid(strings, demangle, functions, index, sources) && SpellsLine(sources, l, f)
    requires Free(f.name, US) && forall i :: 0 <= i < |sources| ==> Free(sources[i].0, US)
    ensures l.functionId in P.FunctionMap(functions)
    ensures ShownLine(strings, functions, l) == B.Resolved(demangle(f.name), f.name, f.line)
    ensures P.StringAt(strings, P.FunctionMap(functions)[l.functionId].filename) == f.file
  {
    hide P.FunctionMap;
    var i := l.functionId - 1;
    P.DenseFunction(functions, i);
    SplitAt(US, sources[i].0, f.name, sources[i].1, f.file);
    assert SpellsFunction(strings, demangle, functions[i], sources[i].0, sources[i].1);
  }

  /** Every cached location agrees with resolving its pair afresh: the same mapping and address, and line by line the
      same names and numbers, every function id resolving. */
  lemma CachedAgreesWithFresh(state: State, p: (nat, int), k: nat)
    requires state.Valid() && SafePairs(state.resolve, state.frameToLoc.Keys) && p in state.frameToLoc
    ensures 1 <= state.frameToLoc[p] <= |state.locations|
    ensures var l, chain := state.locations[state.frameToLoc[p] - 1], state.resolve(p.0, p.1);
            && l.id == state.frameToLoc[p] && |l.lines| == |chain|
            && (chain != [] ==> l.address == chain[0].address && l.mappingId == chain[0].mapping + 1)
            && (k < |chain| ==> l.lines[k].functionId in P.FunctionMap(state.functions)
                                && ShownLine(state.strings, state.functions, l.lines[k]) ==
                                   B.Resolved(state.demangle(chain[k].name), chain[k].name, chain[k].line))
  {
    hide B.StringsValid;
    hide FunctionsValid;
    hide Canonical;
    hide SpellsLine;
    hide P.FunctionMap;
    hide ShownLine;
    hide NameSafe;
    hide LocationsValid;
    var i, chain := state.frameToLoc[p] - 1, state.resolve(p.0, p.1);
    LocationByContent(state.sources, state.locations, state.locCanonical, state.chains, i);
    assert NameSafe(chain);
    hide SafePairs;
    var stored, l := state.chains[i], state.locations[i];
    StoredSafe(state.sources, state.chains, i);
    CanonicalInjective(stored, chain);
    KeysLength(stored);
    KeysLength(chain);
    hide Keys;
    assert SpellsChain(state.sources, l, stored);
    if chain != [] {
      assert Keys(stored)[0] == Keys(chain)[0];
    }
    if k < |chain| {
      assert Keys(stored)[k] == Keys(chain)[k];
      SafeFrame(stored, k);
      SourceShown(state.strings, state.demangle, state.functions, state.funcIndex, state.sources, l.lines[k],
                  stored[k]);
    }
  }

  lemma StoredSafe(sources: seq<(string, string)>, chains: seq<Chain>, i: nat)
    requires SafeTables(sources, chains) && i < |chains|
    ensures NameSafe(chains[i])
  {}

  lemma SafeFrame(chain: Chain, k: nat)
    requires NameSafe(chain) && k < |chain|
    ensures Free(chain[k].name, US)
  {}

  /** The file a stored location shows is that of the chain it was made from, so functions of one name in two files stay
      two. */
  lemma StoredFiles(state: State, i: nat, k: nat)
    requires state.Valid() && SafePairs(state.resolve, state.frameToLoc.Keys)
    requires i < |state.chains| && k < |state.chains[i]|
    ensures i < |state.locations| && |state.locations[i].lines| == |state.chains[i]|
    ensures var id := state.locations[i].lines[k].functionId;
            id in P.FunctionMap(state.functions)
            && P.StringAt(state.strings, P.FunctionMap(state.functions)[id].filename) == state.chains[i][k].file
  {
    hide B.StringsValid;
    hide FunctionsValid;
    hide Canonical;
    hide SpellsLine;
    hide P.FunctionMap;
    hide ShownLine;
    hide NameSafe;
    hide LocationsValid;
    hide SafePairs;
    hide CacheValid;
    LocationByContent(state.sources, state.locations, state.locCanonical, state.chains, i);
    StoredSafe(state.sources, state.chains, i);
    SafeFrame(state.chains[i], k);
    SourceShown(state.strings, state.demangle, state.functions, state.funcIndex, state.sources,
                state.locations[i].lines[k], state.chains[i][k]);
  }

  /** Two functions share a key exactly when name and file agree, as long as the names hold no separator. */
  lemma FunctionKeyTells(name: string, file: string, name': string, file': string)
    requires Free(name, US) && Free(name', US)
    ensures FunctionKey(name, file) == FunctionKey(name', file') <==> name == name' && file == file'
  {
    if FunctionKey(name, file) == FunctionKey(name', file') {
      SplitAt(US, name, name', file, file');
    }
  }

  /** Chains that differ only in a file share a location, which then shows the file seen first. */
  lemma FilesAreNotTold(chain: Chain, k: nat, file: string)
    requires k < |chain|
    ensures Keys(chain[k := chain[k].(file := file)]) == Keys(chain)
  {
    KeysLength(chain);
    KeysLength(chain[k := chain[k].(file := file)]);
  }
}
