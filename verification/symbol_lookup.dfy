/** The samply sidecar: symbols sorted once, addresses found by binary search,
    inline chains turned leaf first. */
module SymbolLookup {
  import opened Wrappers
  import opened Text
  import opened LocationCache
  import StableSort

  datatype SymFrame = SymFrame(func: int, file: Option<int>, line: Option<int>)

  datatype SymEntry = SymEntry(rva: nat, size: nat, symbol: int, frames: seq<SymFrame>)

  // ------------------------------------------------------------------ loading

  function Rva(e: SymEntry): int {
    e.rva
  }

  /** `sort_by_key(|e| e.rva)`. */
  function SortByRva(table: seq<SymEntry>): seq<SymEntry> {
    StableSort.Sort(table, Rva)
  }

  ghost predicate Sorted(table: seq<SymEntry>) {
    forall i, j :: 0 <= i < j < |table| ==> table[i].rva <= table[j].rva
  }

  /** Loading sorts every table and keeps its symbols. */
  lemma SortIsRight(table: seq<SymEntry>)
    ensures Sorted(SortByRva(table)) && forall x :: x in SortByRva(table) <==> x in table
  {
    StableSort.SortIsStable(table, Rva, 0);
    StableSort.SortElements(table, Rva);
    var sorted := SortByRva(table);
    assert forall i :: 0 <= i < |sorted| ==> Rva(sorted[i]) == sorted[i].rva;
  }

  // ------------------------------------------------------------------- lookup

  predicate Contains(e: SymEntry, rva: nat) {
    e.rva <= rva < e.rva + e.size
  }

  function St(strings: seq<string>, idx: int): string {
    if 0 <= idx < |strings| then strings[idx] else ""
  }

  function FrameOf(strings: seq<string>, e: SymEntry, f: SymFrame, rva: nat): ResolvedFrame {
    var name := St(strings, f.func);
    ResolvedFrame(if name == "" then St(strings, e.symbol) else name,
                  if f.file.Some? then St(strings, f.file.value) else "",
                  if f.line.Some? then f.line.value else 0, 0, rva)
  }

  /** An inline frame shows its own name if it has one and the symbol's otherwise, its own file and line if it has them,
      and the address looked up. */
  lemma FrameShows(strings: seq<string>, e: SymEntry, f: SymFrame, rva: nat)
    ensures var r := FrameOf(strings, e, f, rva);
            && (0 <= f.func < |strings| && strings[f.func] != "" ==> r.name == strings[f.func])
            && (0 <= f.func < |strings| && strings[f.func] == "" ==> r.name == St(strings, e.symbol))
            && (!(0 <= f.func < |strings|) ==> r.name == St(strings, e.symbol))
            && (f.file.Some? && 0 <= f.file.value < |strings| ==> r.file == strings[f.file.value])
            && (f.file.None? ==> r.file == "") && (f.line.Some? ==> r.line == f.line.value)
            && (f.line.None? ==> r.line == 0) && r.address == rva
  {}

  lemma StringsShown(strings: seq<string>, i: int)
    ensures 0 <= i < |strings| ==> St(strings, i) == strings[i]
    ensures i < 0 || i >= |strings| ==> St(strings, i) == ""
  {}

  /** The symbol's inline chain: stored outermost first, shown leaf first. */
  function ChainOf(strings: seq<string>, e: SymEntry, rva: nat): (chain: Chain)
    ensures |chain| == if e.frames == [] then 1 else |e.frames|
    ensures e.frames == [] ==> chain[0] == ResolvedFrame(St(strings, e.symbol), "", 0, 0, rva)
    ensures forall k :: 0 <= k < |e.frames| ==> chain[k] == FrameOf(strings, e, e.frames[|e.frames| - 1 - k], rva)
  {
    if e.frames == [] then [ResolvedFrame(St(strings, e.symbol), "", 0, 0, rva)]
    else InnerFirst(strings, e, e.frames, rva)
  }

  function InnerFirst(strings: seq<string>, e: SymEntry, frames: seq<SymFrame>, rva: nat): (chain: Chain)
    ensures |chain| == |frames|
    ensures forall k :: 0 <= k < |frames| ==> chain[k] == FrameOf(strings, e, frames[|frames| - 1 - k], rva)
  {
    if frames == [] then [] else InnerFirst(strings, e, frames[1..], rva) + [FrameOf(strings, e, frames[0], rva)]
  }

  /** `binary_search_by_key`: a matching entry, or where one would be inserted. */
  method BinarySearch(table: seq<SymEntry>, rva: nat) returns (r: Result<nat, nat>)
    requires Sorted(table)
    ensures r.Ok? ==> r.value < |table| && table[r.value].rva == rva
    ensures r.Err? ==> r.error <= |table| && (forall i :: 0 <= i < r.error ==> table[i].rva < rva)
                       && forall i :: r.error <= i < |table| ==> table[i].rva > rva
  {
    var lo, hi := 0, |table|;
    while lo < hi
      invariant 0 <= lo <= hi <= |table|
      invariant forall i :: 0 <= i < lo ==> table[i].rva < rva
      invariant forall i :: hi <= i < |table| ==> table[i].rva > rva
    {
      var mid := lo + (hi - lo) / 2;
      if table[mid].rva == rva {
        return Ok(mid);
      } else if table[mid].rva < rva {
        lo := mid + 1;
      } else {
        hi := mid;
      }
    }
    return Err(lo);
  }

  /** What the search may settle on: any entry that starts at the address, or else the last one that starts before
      it. */
  ghost predicate Picks(table: seq<SymEntry>, i: int, rva: nat) {
    && 0 <= i < |table| && table[i].rva <= rva
    && (table[i].rva == rva || forall j :: i < j < |table| ==> table[j].rva > rva)
  }

  /** What a lookup may answer: the chain of a picked symbol that contains the address, or nothing. */
  ghost predicate Answers(strings: seq<string>, table: seq<SymEntry>, rva: nat, r: Option<Chain>) {
    match r
    case None =>
      (forall x :: x in table ==> x.rva > rva) || exists i :: Picks(table, i, rva) && !Contains(table[i], rva)
    case Some(chain) =>
      exists i :: Picks(table, i, rva) && Contains(table[i], rva) && chain == ChainOf(strings, table[i], rva)
  }

  /** `lookup`, on one library's sorted table. */
  method Lookup(strings: seq<string>, table: seq<SymEntry>, rva: nat) returns (r: Option<Chain>)
    requires Sorted(table)
    ensures Answers(strings, table, rva, r)
  {
    hide ChainOf;
    var found := BinarySearch(table, rva);
    var idx;
    match found {
      case Ok(i) => idx := i;
      case Err(i) =>
        if i == 0 {
          return None;
        }
        idx := i - 1;
    }
    var sym := table[idx];
    assert Picks(table, idx, rva);
    if rva >= sym.rva + sym.size {
      return None;
    }
    return Some(ChainOf(strings, sym, rva));
  }

  ghost predicate Covered(table: seq<SymEntry>, rva: nat) {
    exists e :: e in table && Contains(e, rva)
  }

  /** Every answer a lookup may give is a chain exactly where some symbol contains the address. */
  ghost predicate FindsAll(strings: seq<string>, table: seq<SymEntry>) {
    forall rva: nat, r :: Answers(strings, table, rva, r) ==> (r.Some? <==> Covered(table, rva))
  }

  predicate LastOfStart(table: seq<SymEntry>, i: nat)
    requires i < |table|
  {
    forall j :: i < j < |table| ==> table[j].rva != table[i].rva
  }

  /** Some symbol goes on where symbol `n` ends, and none takes over from `n` there or before. */
  ghost predicate Hides(table: seq<SymEntry>, n: SymEntry) {
    Covered(table, n.rva + n.size) && forall x :: x in table ==> !(n.rva < x.rva <= n.rva + n.size)
  }

  /** Among symbols of one start only the last, and those of size zero, can hide another. */
  ghost predicate NoneHidden(table: seq<SymEntry>) {
    forall i :: 0 <= i < |table| && (LastOfStart(table, i) || table[i].size == 0) ==> !Hides(table, table[i])
  }

  /** The lookup finds every containing symbol, at every address, exactly when no symbol is hidden. */
  lemma FindsAllIff(strings: seq<string>, loaded: seq<SymEntry>)
    ensures FindsAll(strings, SortByRva(loaded)) <==> NoneHidden(loaded)
  {
    hide FindsAll;
    hide NoneHidden;
    hide SortByRva;
    SortIsRight(loaded);
    FindsAllSorted(strings, SortByRva(loaded));
    HiddenAlike(loaded);
  }

  lemma FindsAllSorted(strings: seq<string>, table: seq<SymEntry>)
    requires Sorted(table)
    ensures FindsAll(strings, table) <==> NoneHidden(table)
  {
    hide ChainOf;
    forall rva: nat, r | NoneHidden(table) && Answers(strings, table, rva, r)
      ensures r.Some? <==> Covered(table, rva)
    {
      hide NoneHidden;
      NeverMisses(strings, table, rva, r);
    }
    forall i | 0 <= i < |table| && (LastOfStart(table, i) || table[i].size == 0) && Hides(table, table[i])
      ensures !FindsAll(strings, table)
    {
      EndIsMissed(strings, table, i);
    }
  }

  lemma NeverMisses(strings: seq<string>, table: seq<SymEntry>, rva: nat, r: Option<Chain>)
    requires Sorted(table) && NoneHidden(table) && Answers(strings, table, rva, r)
    ensures r.Some? <==> Covered(table, rva)
  {
    hide ChainOf;
    hide NoneHidden;
    forall i | Picks(table, i, rva) && !Contains(table[i], rva)
      ensures !Covered(table, rva)
    {
      MissIsRight(table, i, rva);
    }
    forall i | Picks(table, i, rva)
      ensures table[i] in table
    {}
  }

  lemma MissIsRight(table: seq<SymEntry>, i: nat, rva: nat)
    requires Sorted(table) && NoneHidden(table) && Picks(table, i, rva) && !Contains(table[i], rva)
    ensures !Covered(table, rva)
  {
    var n := table[i];
    forall x | x in table
      ensures !(n.rva < x.rva <= n.rva + n.size) && (x.rva <= rva ==> x.rva <= n.rva)
    {
      var k :| 0 <= k < |table| && table[k] == x;
    }
    assert LastOfStart(table, i) || n.size == 0;
    forall e | e in table
      ensures !Contains(e, rva)
    {
      assert !Contains(e, n.rva + n.size);
    }
  }

  /** At the end of such a symbol, finding nothing is an allowed answer. */
  lemma EndIsMissed(strings: seq<string>, table: seq<SymEntry>, i: nat)
    requires Sorted(table) && i < |table| && (LastOfStart(table, i) || table[i].size == 0) && Hides(table, table[i])
    ensures Answers(strings, table, table[i].rva + table[i].size, None) && Covered(table, table[i].rva + table[i].size)
  {
    hide ChainOf;
    forall j | i < j < |table| && table[i].size > 0
      ensures table[j].rva > table[i].rva + table[i].size
    {
      assert table[j] in table;
    }
    assert Picks(table, i, table[i].rva + table[i].size);
  }

  /** Sorting is stable, so it changes neither which symbols are last of their start nor what they hide. */
  lemma HiddenAlike(loaded: seq<SymEntry>)
    ensures NoneHidden(SortByRva(loaded)) <==> NoneHidden(loaded)
  {
    hide SortByRva;
    SortIsRight(loaded);
    SameLast(loaded);
    var table := SortByRva(loaded);
    forall n | n in table
      ensures Hides(table, n) <==> Hides(loaded, n)
    {
      HidesAlike(loaded, table, n);
    }
    hide Hides;
    NoneHiddenMeans(table);
    NoneHiddenMeans(loaded);
    hide NoneHidden;
  }

  lemma HidesAlike(a: seq<SymEntry>, b: seq<SymEntry>, n: SymEntry)
    requires forall x :: x in a <==> x in b
    ensures Hides(a, n) <==> Hides(b, n)
  {}

  /** A symbol that the table holds as the last of its start. */
  ghost predicate IsLast(table: seq<SymEntry>, n: SymEntry) {
    exists i :: 0 <= i < |table| && table[i] == n && LastOfStart(table, i)
  }

  lemma NoneHiddenMeans(table: seq<SymEntry>)
    ensures NoneHidden(table) <==> forall n :: n in table && (IsLast(table, n) || n.size == 0) ==> !Hides(table, n)
  {
    hide Hides;
    hide LastOfStart;
    forall i | 0 <= i < |table|
      ensures table[i] in table && (LastOfStart(table, i) ==> IsLast(table, table[i]))
    {}
  }

  lemma SameLast(loaded: seq<SymEntry>)
    ensures forall n :: IsLast(SortByRva(loaded), n) <==> IsLast(loaded, n)
  {
    forall n: SymEntry
      ensures IsLast(SortByRva(loaded), n) <==> IsLast(loaded, n)
    {
      StableSort.SortIsStable(loaded, Rva, n.rva);
      LastIsLastAt(SortByRva(loaded), n);
      LastIsLastAt(loaded, n);
    }
  }

  lemma {:induction false} LastIsLastAt(table: seq<SymEntry>, n: SymEntry)
    ensures var same := StableSort.At(table, Rva, n.rva); IsLast(table, n) <==> same != [] && same[|same| - 1] == n
  {
    if table != [] {
      var init, e := table[..|table| - 1], table[|table| - 1];
      LastIsLastAt(init, n);
      StableSort.AtSnoc(init, e, Rva, n.rva);
      assert table == init + [e];
      LastSnoc(init, e, n);
    }
  }

  lemma LastSnoc(init: seq<SymEntry>, e: SymEntry, n: SymEntry)
    ensures IsLast(init + [e], n) <==> if e.rva == n.rva then e == n else IsLast(init, n)
  {
    var table := init + [e];
    if IsLast(init, n) && e.rva != n.rva {
      var i :| 0 <= i < |init| && init[i] == n && LastOfStart(init, i);
      assert table[i] == n && LastOfStart(table, i);
    }
    if IsLast(table, n) {
      var i :| 0 <= i < |table| && table[i] == n && LastOfStart(table, i);
      if i < |init| {
        assert table[|init|].rva != n.rva;
        assert forall j :: i < j < |init| ==> table[j] == init[j];
        assert init[i] == n && LastOfStart(init, i);
      }
    }
    if e == n {
      assert table[|init|] == n && LastOfStart(table, |init|);
    }
  }

  /** Unless the hiding symbol is empty and shares its start, the hidden one is missed for certain. */
  lemma HiddenIsMissed(strings: seq<string>, loaded: seq<SymEntry>, n: SymEntry, r: Option<Chain>)
    requires IsLast(loaded, n) && Hides(loaded, n)
    requires n.size > 0 || forall x :: x in loaded && x.rva == n.rva ==> x == n
    requires Answers(strings, SortByRva(loaded), n.rva + n.size, r)
    ensures r == None && Covered(loaded, n.rva + n.size)
  {
    hide ChainOf;
    hide SortByRva;
    hide Sorted;
    SortIsRight(loaded);
    SameLast(loaded);
    var table := SortByRva(loaded);
    HidesAlike(loaded, table, n);
    forall i | Picks(table, i, n.rva + n.size)
      ensures table[i] == n
    {
      PickedAtEnd(table, n, i);
    }
    assert n in table;
  }

  lemma PickedAtEnd(table: seq<SymEntry>, n: SymEntry, i: nat)
    requires Sorted(table) && IsLast(table, n) && Hides(table, n) && Picks(table, i, n.rva + n.size)
    requires n.size > 0 || forall x :: x in table && x.rva == n.rva ==> x == n
    ensures table[i] == n
  {
    var last :| 0 <= last < |table| && table[last] == n && LastOfStart(table, last);
    assert table[i] in table;
    forall j | last < j < |table|
      ensures table[j].rva > n.rva + n.size
    {
      assert table[j] in table;
    }
    assert i <= last && table[last].rva <= n.rva + n.size;
  }

  /** Symbols of positive size whose ranges do not meet. */
  ghost predicate Disjoint(table: seq<SymEntry>) {
    && (forall x :: x in table ==> x.size > 0)
    && forall x, y :: x in table && y in table && x != y ==> x.rva + x.size <= y.rva || y.rva + y.size <= x.rva
  }

  /** On disjoint symbols the binary search is the linear scan: it answers exactly when some symbol contains the
      address, and with that symbol's chain. */
  lemma LookupIsScan(strings: seq<string>, loaded: seq<SymEntry>, rva: nat, r: Option<Chain>)
    requires Disjoint(loaded) && Answers(strings, SortByRva(loaded), rva, r)
    ensures NoneHidden(loaded) && (r.Some? <==> Covered(loaded, rva))
    ensures forall e :: e in loaded && Contains(e, rva) ==> r == Some(ChainOf(strings, e, rva))
  {
    hide ChainOf;
    hide SortByRva;
    SortIsRight(loaded);
    var table := SortByRva(loaded);
    forall i | Picks(table, i, rva)
      ensures table[i] in loaded && forall e :: e in loaded && Contains(e, rva) ==> e == table[i]
    {
      PickedIsOnly(loaded, table, i, rva);
    }
    hide Sorted;
    hide Picks;
    hide Contains;
    NoneHiddenApart(loaded);
    hide Disjoint;
    hide NoneHidden;
  }

  lemma PickedIsOnly(loaded: seq<SymEntry>, table: seq<SymEntry>, i: int, rva: nat)
    requires Disjoint(loaded) && Sorted(table) && (forall x :: x in table <==> x in loaded) && Picks(table, i, rva)
    ensures table[i] in loaded && forall e :: e in loaded && Contains(e, rva) ==> e == table[i]
  {
    assert table[i] in loaded;
    forall e | e in loaded && Contains(e, rva)
      ensures e == table[i]
    {
      var k :| 0 <= k < |table| && table[k] == e;
      assert e.rva <= table[i].rva;
    }
  }

  lemma NoneHiddenApart(loaded: seq<SymEntry>)
    requires Disjoint(loaded)
    ensures NoneHidden(loaded)
  {
    forall n | n in loaded
      ensures !Hides(loaded, n)
    {
      forall e | e in loaded && Contains(e, n.rva + n.size)
        ensures !(forall x :: x in loaded ==> !(n.rva < x.rva <= n.rva + n.size))
      {
        assert e != n && n.rva < e.rva;
      }
    }
    hide Hides;
  }

  /** A table with a hidden symbol: an inner symbol that ends early hides the rest of the outer one. */
  lemma OverlapHides(strings: seq<string>, r: Option<Chain>)
    requires var table := [SymEntry(0, 100, 0, []), SymEntry(10, 10, 1, [])]; Answers(strings, SortByRva(table), 20, r)
    ensures var table := [SymEntry(0, 100, 0, []), SymEntry(10, 10, 1, [])];
            r == None && Covered(table, 20) && !NoneHidden(table)
  {
    var outer, inner := SymEntry(0, 100, 0, []), SymEntry(10, 10, 1, []);
    var table := [outer, inner];
    assert outer in table && inner in table && Contains(outer, inner.rva + inner.size);
    assert table[1] == inner && LastOfStart(table, 1) && Hides(table, inner);
    HiddenIsMissed(strings, table, inner, r);
  }

  /** A table whose symbols overlap and hide nothing: of two that start alike, the later loaded reaches further. */
  lemma TiesAreFound(strings: seq<string>)
    ensures FindsAll(strings, SortByRva([SymEntry(0, 10, 0, []), SymEntry(0, 20, 1, [])]))
    ensures !FindsAll(strings, SortByRva([SymEntry(0, 20, 1, []), SymEntry(0, 10, 0, [])]))
  {
    hide FindsAll;
    hide SortByRva;
    var short, long := SymEntry(0, 10, 0, []), SymEntry(0, 20, 1, []);
    var a, b := [short, long], [long, short];
    FindsAllIff(strings, a);
    FindsAllIff(strings, b);
    assert !LastOfStart(a, 0) && !Hides(a, long);
    assert long in b && Contains(long, 10) && LastOfStart(b, 1) && Hides(b, b[1]);
  }

  // ---------------------------------------------------------------- resolving

  datatype Lib = Lib(name: string, debugName: string)

  function WithMapping(chain: Chain, lib: nat): (r: Chain)
    ensures |r| == |chain| && forall k :: 0 <= k < |chain| ==> r[k] == chain[k].(mapping := lib)
  {
    if chain == [] then [] else [chain[0].(mapping := lib)] + WithMapping(chain[1..], lib)
  }

  function FallbackName(libs: seq<Lib>, lib: nat, addr: nat): string {
    (if lib < |libs| && libs[lib].name != "" then libs[lib].name else "??") + "+0x" + Hex(addr)
  }

  /** Unresolved addresses of one library are told apart, and shown under its name when it has one. */
  lemma FallbackTells(libs: seq<Lib>, lib: nat, a: nat, b: nat)
    ensures FallbackName(libs, lib, a) == FallbackName(libs, lib, b) <==> a == b
    ensures lib < |libs| && libs[lib].name != "" ==> libs[lib].name + "+0x" <= FallbackName(libs, lib, a)
    ensures lib >= |libs| || libs[lib].name == "" ==> "??+0x" <= FallbackName(libs, lib, a)
  {
    hide Hex;
    var prefix := (if lib < |libs| && libs[lib].name != "" then libs[lib].name else "??") + "+0x";
    if FallbackName(libs, lib, a) == FallbackName(libs, lib, b) {
      assert (prefix + Hex(a))[|prefix|..] == Hex(a) && (prefix + Hex(b))[|prefix|..] == Hex(b);
      HexInjective(a, b);
    }
  }

  /** What resolving an address in a library gives: the containing symbol's chain under that library's mapping, or one
      frame named after the library and the address. */
  ghost predicate Resolves(strings: seq<string>, tables: map<string, seq<SymEntry>>, libs: seq<Lib>, lib: nat,
                           addr: nat, chain: Chain)
  {
    var table := if lib < |libs| && libs[lib].debugName in tables then tables[libs[lib].debugName] else [];
    exists r :: Answers(strings, table, addr, r) &&
                chain == if r.Some? then WithMapping(r.value, lib)
                         else [ResolvedFrame(FallbackName(libs, lib, addr), "", 0, lib, addr)]
  }

  /** `resolve`, once the frame's raw address and library index are read off the thread's tables. */
  method Resolve(strings: seq<string>, tables: map<string, seq<SymEntry>>, libs: seq<Lib>, lib: nat, rawAddress: int)
    returns (chain: Chain)
    requires forall d :: d in tables ==> Sorted(tables[d])
    ensures var addr := if rawAddress > 0 then rawAddress else 0;
            && Resolves(strings, tables, libs, lib, addr, chain)
            && chain != [] && forall k :: 0 <= k < |chain| ==> chain[k].mapping == lib && chain[k].address == addr
  {
    hide ChainOf;
    hide Hex;
    var addr := if rawAddress > 0 then rawAddress else 0;
    var table := if lib < |libs| && libs[lib].debugName in tables then tables[libs[lib].debugName] else [];
    var found := Lookup(strings, table, addr);
    if found.Some? {
      return WithMapping(found.value, lib);
    }
    return [ResolvedFrame(FallbackName(libs, lib, addr), "", 0, lib, addr)];
  }
}
