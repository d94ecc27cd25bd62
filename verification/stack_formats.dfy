/** What the folded and Speedscope converters share: how a pprof location shows
    as a frame, and the string pool. */
module StackFormats {
  import opened Wrappers
  import opened Int64
  import opened Text
  import P = Pprof

  datatype Frame = Frame(name: string, file: Option<string>, line: Option<int>, col: Option<int>)

  function Bare(name: string): Frame {
    Frame(name, None, None, None)
  }

  function Positive(n: int): Option<int> {
    if n > 0 then Some(n) else None
  }

  /** The frame of a location's first line, or a placeholder for what does not resolve. */
  function FrameForLocation(p: P.Profile, locId: nat): Frame {
    var locs, funcs := P.LocationMap(p.locations), P.FunctionMap(p.functions);
    if locId !in locs then Bare("location:" + Decimal(locId))
    else
      var loc := locs[locId];
      if loc.lines == [] then Bare("0x" + Hex(loc.address))
      else
        var line := loc.lines[0];
        if line.functionId !in funcs then Bare("function:" + Decimal(line.functionId))
        else
          var func := funcs[line.functionId];
          var name, file := P.StringAt(p.strings, func.name), P.StringAt(p.strings, func.filename);
          Frame(if name == "" then "(unknown)" else name, if file == "" then None else Some(file),
                if line.line > 0 then Some(line.line) else Positive(func.startLine), Positive(line.column))
  }

  /** Leaf-first location ids as a root-first stack. */
  function StackOf(p: P.Profile, ids: seq<nat>): (stack: seq<Frame>)
    ensures |stack| == |ids|
    ensures forall k :: 0 <= k < |ids| ==> stack[k] == FrameForLocation(p, ids[|ids| - 1 - k])
  {
    if ids == [] then [] else StackOf(p, ids[1..]) + [FrameForLocation(p, ids[0])]
  }

  predicate IsSpeedscopeUnit(unit: string) {
    unit == "none" || unit == "nanoseconds" || unit == "microseconds" || unit == "milliseconds" || unit == "seconds"
    || unit == "bytes"
  }

  function DurationNanos(value: int, unit: string): int {
    match unit
    case "nanoseconds" => value
    case "microseconds" => Saturate(value * 1000)
    case "milliseconds" => Saturate(value * 1_000_000)
    case "seconds" => Saturate(value * 1_000_000_000)
    case _ => 0
  }

  /** One length of time has one duration, whatever unit it is given in; other units have none. */
  lemma UnitsAgree(seconds: int)
    requires I64_MIN <= seconds * 1_000_000_000 <= I64_MAX
    ensures DurationNanos(seconds, "seconds") == DurationNanos(seconds * 1000, "milliseconds")
            == DurationNanos(seconds * 1_000_000, "microseconds")
            == DurationNanos(seconds * 1_000_000_000, "nanoseconds") == seconds * 1_000_000_000
    ensures DurationNanos(seconds, "bytes") == DurationNanos(seconds, "none") == 0
  {}

  /** A duration past the edge of an i64 stays at the edge. */
  lemma LongDurations(value: int, unit: string)
    requires I64_MIN <= value <= I64_MAX
    ensures I64_MIN <= DurationNanos(value, unit) <= I64_MAX
    ensures value * 1_000_000_000 > I64_MAX ==> DurationNanos(value, "seconds") == I64_MAX
    ensures value * 1_000_000 > I64_MAX ==> DurationNanos(value, "milliseconds") == I64_MAX
    ensures value * 1000 > I64_MAX ==> DurationNanos(value, "microseconds") == I64_MAX
  {}

  /** What does not resolve is told apart: by its address, or by the id that leads nowhere. */
  lemma PlaceholdersTell(p: P.Profile, a: nat, b: nat)
    requires a !in P.LocationMap(p.locations) && b !in P.LocationMap(p.locations)
    ensures FrameForLocation(p, a) == FrameForLocation(p, b) <==> a == b
  {
    hide P.LocationMap;
    if FrameForLocation(p, a) == FrameForLocation(p, b) {
      assert ("location:" + Decimal(a))[9..] == Decimal(a) && ("location:" + Decimal(b))[9..] == Decimal(b);
      DecimalInjective(a, b);
    }
  }

  /** What does not resolve says so: by the location's id, by its address when it has no line, or by the id of the
      function its first line leads to. */
  lemma PlaceholdersSay(p: P.Profile, id: nat)
    ensures var locs, funcs, shown := P.LocationMap(p.locations), P.FunctionMap(p.functions), FrameForLocation(p, id);
            && (id !in locs ==> "location:" <= shown.name && shown.name[9..] == Decimal(id))
            && (id in locs && locs[id].lines == [] ==>
                  "0x" <= shown.name && shown.name[2..] == Hex(locs[id].address))
            && (id in locs && locs[id].lines != [] && locs[id].lines[0].functionId !in funcs ==>
                  "function:" <= shown.name && shown.name[9..] == Decimal(locs[id].lines[0].functionId))
  {
    hide P.LocationMap;
    hide P.FunctionMap;
    hide Digits;
  }

  lemma AddressesTell(p: P.Profile, a: nat, b: nat)
    requires var locs := P.LocationMap(p.locations);
             a in locs && b in locs && locs[a].lines == [] && locs[b].lines == []
    ensures var locs := P.LocationMap(p.locations);
            FrameForLocation(p, a) == FrameForLocation(p, b) <==> locs[a].address == locs[b].address
  {
    hide P.LocationMap;
    var locs := P.LocationMap(p.locations);
    if FrameForLocation(p, a) == FrameForLocation(p, b) {
      assert ("0x" + Hex(locs[a].address))[2..] == Hex(locs[a].address);
      assert ("0x" + Hex(locs[b].address))[2..] == Hex(locs[b].address);
      HexInjective(locs[a].address, locs[b].address);
    }
  }

  /** A name or file that is empty, or whose index leads out of the string table, is shown as none. */
  lemma NothingToShow(p: P.Profile, id: nat)
    requires 1 <= id <= |p.locations| == |p.functions|
    requires forall i :: 0 <= i < |p.locations| ==> p.locations[i].id == i + 1 && p.functions[i].id == i + 1
    requires |p.locations[id - 1].lines| >= 1 && p.locations[id - 1].lines[0].functionId == id
    ensures var func, shown := p.functions[id - 1], FrameForLocation(p, id);
            && (!(0 <= func.name < |p.strings|) || p.strings[func.name] == "" ==> shown.name == "(unknown)")
            && (!(0 <= func.filename < |p.strings|) || p.strings[func.filename] == "" ==> shown.file == None)
  {
    hide FrameForLocation;
    DenseFrame(p, id);
  }

  /** What `frame_for_location` sees in dense tables: function and location `id` belong together. */
  lemma DenseFrame(p: P.Profile, id: nat)
    requires 1 <= id <= |p.locations| == |p.functions|
    requires forall i :: 0 <= i < |p.locations| ==> p.locations[i].id == i + 1 && p.functions[i].id == i + 1
    requires |p.locations[id - 1].lines| >= 1 && p.locations[id - 1].lines[0].functionId == id
    ensures var func, line := p.functions[id - 1], p.locations[id - 1].lines[0];
            var name, file := P.StringAt(p.strings, func.name), P.StringAt(p.strings, func.filename);
            FrameForLocation(p, id) ==
            Frame(if name == "" then "(unknown)" else name, if file == "" then None else Some(file),
                  if line.line > 0 then Some(line.line) else Positive(func.startLine), Positive(line.column))
  {
    hide P.LocationMap;
    hide P.FunctionMap;
    hide Decimal;
    hide Hex;
    P.DenseLocation(p.locations, id - 1);
    P.DenseFunction(p.functions, id - 1);
  }

  class StringPool {
    var strings: seq<string>
    var index: map<string, int>

    ghost predicate Valid()
      reads this
    {
      && (forall s :: s in index ==> 0 <= index[s] < |strings| && strings[index[s]] == s)
      && (forall i :: 0 <= i < |strings| ==> strings[i] in index && index[strings[i]] == i)
    }

    constructor ()
      ensures Valid() && strings == [""]
    {
      strings, index := [""], map["" := 0];
    }

    method Intern(s: string) returns (id: int)
      requires Valid()
      modifies this
      ensures Valid() && old(strings) <= strings
      ensures 0 <= id < |strings| && strings[id] == s
      ensures s in old(strings) ==> strings == old(strings)
    {
      if s in index {
        return index[s];
      }
      id := |strings|;
      strings := strings + [s];
      index := index[s := id];
    }
  }
}
