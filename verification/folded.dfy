/** Folded stack text: `root;child;leaf value` lines, one per distinct stack. */
module FoldedStacks {
  import opened Wrappers
  import opened Int64
  import opened Text
  import opened MapSums
  import opened OrderedKeys
  import opened StackFormats
  import P = Pprof

  // ---------------------------------------------------------------- text tools

  /** The Unicode White_Space property. */
  predicate IsWhitespace(c: char) {
    '\U{9}' <= c <= '\U{d}' || c == ' ' || c == '\U{85}' || c == '\U{a0}' || c == '\U{1680}'
    || '\U{2000}' <= c <= '\U{200a}'
    || c == '\U{2028}' || c == '\U{2029}' || c == '\U{202f}' || c == '\U{205f}' || c == '\U{3000}'
  }

  function TrimStart(s: string): string {
    if s != "" && IsWhitespace(s[0]) then TrimStart(s[1..]) else s
  }

  function TrimEnd(s: string): string {
    if s != "" && IsWhitespace(s[|s| - 1]) then TrimEnd(s[..|s| - 1]) else s
  }

  function Trim(s: string): string {
    TrimEnd(TrimStart(s))
  }

  predicate Trimmed(s: string) {
    s != "" && !IsWhitespace(s[0]) && !IsWhitespace(s[|s| - 1])
  }

  /** The last whitespace of a text. */
  function LastSpace(s: string): (r: Option<nat>)
    ensures r.Some? ==> r.value < |s| && IsWhitespace(s[r.value])
    ensures r.Some? ==> forall i :: r.value < i < |s| ==> !IsWhitespace(s[i])
    ensures r.None? ==> forall i :: 0 <= i < |s| ==> !IsWhitespace(s[i])
  {
    if s == "" then None
    else if IsWhitespace(s[|s| - 1]) then Some(|s| - 1)
    else LastSpace(s[..|s| - 1])
  }

  /** The pieces between separators; there is always at least one. */
  function Split(s: string, c: char): (pieces: seq<string>)
    ensures pieces != []
  {
    if s == "" then [""]
    else
      var init, last := Split(s[..|s| - 1], c), s[|s| - 1];
      if last == c then init + [""] else init[..|init| - 1] + [init[|init| - 1] + [last]]
  }

  function Join(pieces: seq<string>, c: char): string {
    if pieces == [] then "" else if |pieces| == 1 then pieces[0]
    else Join(pieces[..|pieces| - 1], c) + [c] + pieces[|pieces| - 1]
  }

  /** Pieces with `x` added to the last one. */
  function Extend(pieces: seq<string>, x: string): seq<string>
    requires pieces != []
  {
    pieces[..|pieces| - 1] + [pieces[|pieces| - 1] + x]
  }

  lemma ExtendTwice(pieces: seq<string>, x: string, y: string)
    requires pieces != []
    ensures Extend(pieces, x) != [] && Extend(Extend(pieces, x), y) == Extend(pieces, x + y)
            && Extend(pieces, "") == pieces
  {
    var init, last := pieces[..|pieces| - 1], pieces[|pieces| - 1];
    assert (init + [last + x])[..|init|] == init;
    assert last + x + y == last + (x + y) && last + "" == last;
  }

  lemma SplitSnoc(s: string, z: char, c: char)
    ensures Split(s + [z], c) == if z == c then Split(s, c) + [""] else Extend(Split(s, c), [z])
  {
    assert (s + [z])[..|s|] == s;
  }

  lemma {:induction false} SplitMore(s: string, x: string, c: char)
    requires Free(x, c)
    ensures Split(s + x, c) == Extend(Split(s, c), x)
  {
    hide Split;
    hide Extend;
    if x == "" {
      assert s + x == s;
      ExtendTwice(Split(s, c), "", "");
    } else {
      var y, z := x[..|x| - 1], x[|x| - 1];
      SplitMore(s, y, c);
      assert s + x == (s + y) + [z] && y + [z] == x;
      SplitSnoc(s + y, z, c);
      ExtendTwice(Split(s, c), y, [z]);
    }
  }

  lemma SplitNothing(c: char)
    ensures Split("", c) == [""]
  {}

  lemma ExtendLast(init: seq<string>, x: string)
    ensures Extend(init + [""], x) == init + [x]
  {
    assert (init + [""])[..|init|] == init && "" + x == x;
  }

  /** Splitting undoes joining, when no piece holds the separator. */
  lemma {:induction false} SplitJoin(pieces: seq<string>, c: char)
    requires pieces != [] && forall k :: 0 <= k < |pieces| ==> Free(pieces[k], c)
    ensures Split(Join(pieces, c), c) == pieces
  {
    hide Split;
    hide Extend;
    hide Free;
    var init, last := pieces[..|pieces| - 1], pieces[|pieces| - 1];
    ExtendLast(init, last);
    if |pieces| == 1 {
      SplitNothing(c);
      SplitMore("", last, c);
      assert "" + last == last && [] + [""] == [""];
    } else {
      var joined := Join(init, c);
      SplitJoin(init, c);
      SplitSnoc(joined, c, c);
      SplitMore(joined + [c], last, c);
      assert init + [last] == pieces;
    }
  }

  lemma TrimmedStays(s: string)
    requires Trimmed(s)
    ensures Trim(s) == s
  {}

  predicate Blank(s: string) {
    forall i :: 0 <= i < |s| ==> IsWhitespace(s[i])
  }

  lemma {:induction false} TrimStartAround(a: string, s: string)
    requires Blank(a) && (s != "" ==> !IsWhitespace(s[0]))
    ensures TrimStart(a + s) == s
  {
    if a == "" {
      assert a + s == s;
    } else {
      assert (a + s)[1..] == a[1..] + s;
      TrimStartAround(a[1..], s);
    }
  }

  lemma {:induction false} TrimEndAround(s: string, b: string)
    requires Blank(b) && (s != "" ==> !IsWhitespace(s[|s| - 1]))
    ensures TrimEnd(s + b) == s
  {
    if b == "" {
      assert s + b == s;
    } else {
      assert (s + b)[..|s + b| - 1] == s + b[..|b| - 1] && (s + b)[|s + b| - 1] == b[|b| - 1];
      TrimEndAround(s, b[..|b| - 1]);
    }
  }

  /** Trimming takes away the whitespace on both sides, and nothing else. */
  lemma TrimAround(a: string, s: string, b: string)
    requires Blank(a) && Blank(b) && (s == "" || Trimmed(s))
    ensures Trim(a + s + b) == s
  {
    hide IsWhitespace;
    if s == "" {
      assert a + s + b == (a + b) + "";
      TrimStartAround(a + b, "");
    } else {
      assert a + s + b == a + (s + b);
      TrimStartAround(a, s + b);
      TrimEndAround(s, b);
    }
  }

  /** The whitespace below 128, written out. */
  lemma AsciiSpaces(c: char)
    requires c < '\U{80}'
    ensures IsWhitespace(c) <==> c == ' ' || c == '\t' || c == '\n' || c == '\r' || c == '\U{b}' || c == '\U{c}'
  {}

  lemma {:induction false} JoinAdd(a: seq<string>, b: seq<string>, c: char)
    requires a != [] && b != []
    ensures Join(a + b, c) == Join(a, c) + [c] + Join(b, c)
  {
    var init, last := b[..|b| - 1], b[|b| - 1];
    assert (a + b)[..|a + b| - 1] == a + init && (a + b)[|a + b| - 1] == last;
    if init == [] {
      assert a + init == a;
    } else {
      JoinAdd(a, init, c);
      assert Join(a, c) + [c] + Join(init, c) + [c] + last == Join(a, c) + [c] + (Join(init, c) + [c] + last);
    }
  }

  /** Joining puts back what splitting took apart. */
  lemma {:induction false} JoinSplit(s: string, c: char)
    ensures Join(Split(s, c), c) == s
  {
    if s != "" {
      var init, last := s[..|s| - 1], s[|s| - 1];
      var pieces := Split(init, c);
      JoinSplit(init, c);
      assert s == init + [last];
      if last == c {
        assert (pieces + [""])[..|pieces|] == pieces;
        assert Join(pieces + [""], c) == init + [c] + "";
      } else {
        hide Split;
        var front, p := pieces[..|pieces| - 1], pieces[|pieces| - 1];
        assert pieces == front + [p] && (front + [p + [last]])[..|front|] == front;
        if front != [] {
          assert Join(front, c) + [c] + (p + [last]) == (Join(front, c) + [c] + p) + [last];
        }
      }
    }
  }

  // -------------------------------------------------------------------- export

  /** `replace(';', ":").replace('\\n', " ")`. */
  function Sanitize(s: string): (r: string)
    ensures |r| == |s| && Free(r, ';') && Free(r, '\n')
    ensures forall i :: 0 <= i < |s| ==> r[i] == (if s[i] == ';' then ':' else if s[i] == '\n' then ' ' else s[i])
    ensures Free(s, ';') && Free(s, '\n') ==> r == s
  {
    if s == "" then ""
    else
      var c := s[|s| - 1];
      Sanitize(s[..|s| - 1]) + [if c == ';' then ':' else if c == '\n' then ' ' else c]
  }

  /** The sanitized names of a stack, root first. */
  function Names(stack: seq<Frame>): (names: seq<string>)
    ensures |names| == |stack| && forall k :: 0 <= k < |stack| ==> names[k] == Sanitize(stack[k].name)
  {
    if stack == [] then [] else Names(stack[..|stack| - 1]) + [Sanitize(stack[|stack| - 1].name)]
  }

  /** The line a sample is counted under. */
  function KeyOf(p: P.Profile, s: P.Sample): string {
    Join(Names(StackOf(p, s.locationIds)), ';')
  }

  /** The summed value of every stack text. */
  function FoldedMap(p: P.Profile, idx: nat, samples: seq<P.Sample>): map<string, int> {
    if samples == [] then map[]
    else
      var before, s := FoldedMap(p, idx, samples[..|samples| - 1]), samples[|samples| - 1];
      if P.ValueAt(s, idx) <= 0 || s.locationIds == [] then before
      else AddAt(before, KeyOf(p, s), P.ValueAt(s, idx))
  }

  function LineOf(key: string, value: int): string {
    key + " " + DecimalInt(value)
  }

  function Render(keys: seq<string>, m: map<string, int>): string
    requires forall k :: k in keys ==> k in m
  {
    if keys == [] then ""
    else
      var k := keys[|keys| - 1];
      Render(keys[..|keys| - 1], m) + LineOf(k, m[k]) + "\n"
  }

  /** The text of a map: its lines in ascending order of key. */
  ghost predicate Renders(text: string, m: map<string, int>) {
    exists keys :: Lists(keys, m) && text == Render(keys, m)
  }

  ghost predicate Lists(keys: seq<string>, m: map<string, int>) {
    Ascending(keys) && forall k :: k in keys <==> k in m
  }

  /** There is one such text. */
  lemma RenderUnique(a: string, b: string, m: map<string, int>)
    requires Renders(a, m) && Renders(b, m)
    ensures a == b
  {
    hide Ascending;
    var ks :| Lists(ks, m) && a == Render(ks, m);
    var ls :| Lists(ls, m) && b == Render(ls, m);
    AscendingUnique(ks, ls);
  }

  method PprofToFolded(p: P.Profile, valueIndex: Option<nat>) returns (r: Result<string, string>)
    ensures match P.SelectAxis(p, valueIndex, IsSpeedscopeUnit)
            case Err(_) => r.Err?
            case Ok(axis) => r.Ok? && Renders(r.value, FoldedMap(p, axis.idx, p.samples))
  {
    hide P.ValueAt;
    hide StackOf;
    hide Names;
    hide Join;
    hide P.FirstTimeAxis;
    hide IsSpeedscopeUnit;
    hide Ascending;
    var selected := P.SelectAxis(p, valueIndex, IsSpeedscopeUnit);
    if selected.Err? {
      return Err(selected.error);
    }
    var axis := selected.value;
    var folded: map<string, int> := map[];
    for i := 0 to |p.samples|
      invariant folded == FoldedMap(p, axis.idx, p.samples[..i])
    {
      var s := p.samples[i];
      assert p.samples[..i + 1][..i] == p.samples[..i];
      var value := P.ValueAt(s, axis.idx);
      if value <= 0 {
        continue;
      }
      var stack := Names(StackOf(p, s.locationIds));
      if stack == [] {
        continue;
      }
      folded := AddAt(folded, Join(stack, ';'), value);
    }
    assert p.samples[..|p.samples|] == p.samples;
    var keys := SortedKeys(folded);
    var out := "";
    for i := 0 to |keys|
      invariant out == Render(keys[..i], folded)
    {
      assert keys[..i + 1][..i] == keys[..i] && keys[i] in keys;
      out := out + LineOf(keys[i], folded[keys[i]]) + "\n";
    }
    assert keys[..|keys|] == keys && Lists(keys, folded);
    r := Ok(out);
  }

  // -------------------------------------------------------------------- import

  /** What parsing a text as a 64-bit float gives. */
  datatype Parsed = Invalid | NotFinite | Finite(value: real)

  type FloatParser = string -> Parsed

  /** A float parser reads every whole number up to 2^53 as that number. */
  ghost predicate ReadsWhole(float: FloatParser) {
    forall n: nat :: n <= FLOAT_EXACT ==> float(Decimal(n)) == Finite(n as real)
  }

  /** The value column: an error, or the rounded value. */
  function ParsedValue(text: string, float: FloatParser): Result<int, string> {
    match float(text)
    case Invalid => Err("invalid value")
    case NotFinite => Err("value must be finite")
    case Finite(v) =>
      if v < 0.0 then Err("value must be non-negative")
      else
        var n := (v + 0.5).Floor;
        if n > I64_MAX + 1 then Err("value is too large") else Ok(if n > I64_MAX then I64_MAX else n)
  }

  /** The trimmed pieces, unless one is empty. */
  function TrimmedPieces(raw: seq<string>): Result<seq<string>, string> {
    if raw == [] then Ok([])
    else
      var before, last := TrimmedPieces(raw[..|raw| - 1]), Trim(raw[|raw| - 1]);
      if before.Err? then before else if last == "" then Err("empty frame in stack") else Ok(before.value + [last])
  }

  /** A line of folded text: nothing, a stack and its value, or an error. */
  function ParsedLine(line: string, float: FloatParser): Result<Option<(seq<string>, int)>, string> {
    var trimmed := Trim(line);
    if trimmed == "" || trimmed[0] == '#' then Ok(None)
    else
      var at := LastSpace(trimmed);
      if at.None? then Err("missing value column")
      else
        var stack := Trim(trimmed[..at.value]);
        if stack == "" then Err("empty stack")
        else
          var value := ParsedValue(Trim(trimmed[at.value..]), float);
          if value.Err? then Err(value.error)
          else if value.value == 0 then Ok(None)
          else
            var frames := TrimmedPieces(Split(stack, ';'));
            if frames.Err? then Err(frames.error) else Ok(Some((frames.value, value.value)))
  }

  /** The lines of a text; a carriage return before a line's end is whitespace, which every line is trimmed of. */
  function Lines(text: string): seq<string> {
    var pieces := Split(text, '\n');
    if pieces[|pieces| - 1] == "" then pieces[..|pieces| - 1] else pieces
  }

  /** The stacks of the lines, up to the first error. */
  function ParsedLines(lines: seq<string>, float: FloatParser): Result<seq<(seq<string>, int)>, string> {
    if lines == [] then Ok([])
    else
      var before := ParsedLines(lines[..|lines| - 1], float);
      if before.Err? then before
      else
        var last := ParsedLine(lines[|lines| - 1], float);
        if last.Err? then Err(last.error)
        else if last.value.None? then before
        else Ok(before.value + [last.value.value])
  }

  /** Function and location `i + 1` stand for name `i`. */
  ghost predicate TablesValid(strings: seq<string>, functions: seq<P.Function>, locations: seq<P.Location>,
                              names: seq<string>)
  {
    && |functions| == |locations| == |names|
    && forall i :: 0 <= i < |names| ==>
         && locations[i] == P.Location(i + 1, 1, 0, [P.Line(i + 1, 0, 0)])
         && functions[i].id == i + 1 && functions[i].startLine == 0
         && 0 <= functions[i].name < |strings| && strings[functions[i].name] == names[i]
         && 0 <= functions[i].filename < |strings| && strings[functions[i].filename] == ""
  }

  ghost predicate IdsValid(ids: map<string, nat>, names: seq<string>) {
    forall n :: n in ids ==> 1 <= ids[n] <= |names| && names[ids[n] - 1] == n
  }

  /** Leaf-first location ids that stand for root-first frames. */
  ghost predicate Stands(names: seq<string>, ids: seq<nat>, frames: seq<string>) {
    |ids| == |frames| && forall j :: 0 <= j < |ids| ==>
      1 <= ids[j] <= |names| && names[ids[j] - 1] == frames[|frames| - 1 - j]
  }

  ghost predicate SamplesMatch(names: seq<string>, samples: seq<P.Sample>, entries: seq<(seq<string>, int)>) {
    && |samples| == |entries|
    && forall k :: 0 <= k < |samples| ==>
      samples[k].values == [1, entries[k].1] && Stands(names, samples[k].locationIds, entries[k].0)
  }

  lemma TablesKept(strings: seq<string>, strings': seq<string>, functions: seq<P.Function>, locations: seq<P.Location>,
                   names: seq<string>)
    requires TablesValid(strings, functions, locations, names) && strings <= strings'
    ensures TablesValid(strings', functions, locations, names)
  {}

  lemma SamplesKept(names: seq<string>, names': seq<string>, samples: seq<P.Sample>, entries: seq<(seq<string>, int)>)
    requires SamplesMatch(names, samples, entries) && names <= names'
    ensures SamplesMatch(names', samples, entries)
  {}

  lemma SampleNext(names: seq<string>, samples: seq<P.Sample>, entries: seq<(seq<string>, int)>, s: P.Sample,
                   e: (seq<string>, int))
    requires SamplesMatch(names, samples, entries) && s.values == [1, e.1] && Stands(names, s.locationIds, e.0)
    ensures SamplesMatch(names, samples + [s], entries + [e])
  {
    hide Stands;
  }

  lemma StandsNext(names: seq<string>, names': seq<string>, ids: seq<nat>, frames: seq<string>, id: nat, frame: string)
    requires Stands(names, ids, frames) && names <= names' && 1 <= id <= |names'| && names'[id - 1] == frame
    ensures Stands(names', [id] + ids, frames + [frame])
  {}

  method TrimPieces(raw: seq<string>) returns (r: Result<seq<string>, string>)
    ensures r == TrimmedPieces(raw)
  {
    hide Trim;
    var frames: seq<string> := [];
    for i := 0 to |raw|
      invariant TrimmedPieces(raw[..i]) == Ok(frames)
    {
      PiecesStep(raw, i);
      var frame := Trim(raw[i]);
      if frame == "" {
        PiecesFail(raw, i + 1);
        return Err("empty frame in stack");
      }
      frames := frames + [frame];
    }
    assert raw[..|raw|] == raw;
    r := Ok(frames);
  }

  lemma PiecesStep(raw: seq<string>, i: nat)
    requires i < |raw|
    ensures var before, last := TrimmedPieces(raw[..i]), Trim(raw[i]);
            TrimmedPieces(raw[..i + 1]) ==
            if before.Err? then before else if last == "" then Err("empty frame in stack")
            else Ok(before.value + [last])
  {
    assert raw[..i + 1][..i] == raw[..i];
  }

  lemma {:induction false} PiecesFail(raw: seq<string>, i: nat)
    requires i <= |raw| && TrimmedPieces(raw[..i]).Err?
    ensures TrimmedPieces(raw) == TrimmedPieces(raw[..i])
    decreases |raw| - i
  {
    if i < |raw| {
      PiecesStep(raw, i);
      PiecesFail(raw, i + 1);
    } else {
      assert raw[..i] == raw;
    }
  }

  lemma LinesStep(lines: seq<string>, i: nat, float: FloatParser)
    requires i < |lines|
    ensures var before, last := ParsedLines(lines[..i], float), ParsedLine(lines[i], float);
            ParsedLines(lines[..i + 1], float) ==
            if before.Err? then before else if last.Err? then Err(last.error)
            else if last.value.None? then before
            else Ok(before.value + [last.value.value])
  {
    assert lines[..i + 1][..i] == lines[..i];
  }

  lemma {:induction false} LinesFail(lines: seq<string>, i: nat, float: FloatParser)
    requires i <= |lines| && ParsedLines(lines[..i], float).Err?
    ensures ParsedLines(lines, float) == ParsedLines(lines[..i], float)
    decreases |lines| - i
  {
    if i < |lines| {
      LinesStep(lines, i, float);
      LinesFail(lines, i + 1, float);
    } else {
      assert lines[..i] == lines;
    }
  }

  /** `parse_folded_line`. */
  method ParseFoldedLine(line: string, float: FloatParser) returns (r: Result<Option<(seq<string>, int)>, string>)
    ensures r == ParsedLine(line, float)
  {
    hide Trim;
    hide Split;
    hide TrimmedPieces;
    hide ParsedValue;
    var trimmed := Trim(line);
    if trimmed == "" || trimmed[0] == '#' {
      return Ok(None);
    }
    var at := LastSpace(trimmed);
    if at.None? {
      return Err("missing value column");
    }
    var stack := Trim(trimmed[..at.value]);
    if stack == "" {
      return Err("empty stack");
    }
    var value := ParsedValue(Trim(trimmed[at.value..]), float);
    if value.Err? {
      return Err(value.error);
    }
    if value.value == 0 {
      return Ok(None);
    }
    var frames := TrimPieces(Split(stack, ';'));
    if frames.Err? {
      return Err(frames.error);
    }
    return Ok(Some((frames.value, value.value)));
  }

  function SumValues(entries: seq<(seq<string>, int)>): int {
    if entries == [] then 0 else SumValues(entries[..|entries| - 1]) + entries[|entries| - 1].1
  }

  lemma SumValuesNext(entries: seq<(seq<string>, int)>, e: (seq<string>, int))
    ensures SumValues(entries + [e]) == SumValues(entries) + e.1
  {
    assert (entries + [e])[..|entries|] == entries;
  }

  ghost predicate Columns(strings: seq<string>, types: seq<P.ValueType>, ty0: string, unit0: string, ty1: string,
                          unit1: string)
  {
    && |types| == 2
    && 0 <= types[0].ty < |strings| && strings[types[0].ty] == ty0
    && 0 <= types[0].unit < |strings| && strings[types[0].unit] == unit0
    && 0 <= types[1].ty < |strings| && strings[types[1].ty] == ty1
    && 0 <= types[1].unit < |strings| && strings[types[1].unit] == unit1
  }

  /** Axis 0 counts samples, axis 1 is the folded value. */
  ghost predicate TypesSpell(strings: seq<string>, types: seq<P.ValueType>, sampleType: string, unit: string) {
    Columns(strings, types, "samples", "count", sampleType, unit)
  }

  method InternColumns(pool: StringPool, ty0: string, unit0: string, ty1: string, unit1: string, empty: string,
                       mapping: string)
    returns (types: seq<P.ValueType>, emptyStr: int)
    requires pool.Valid()
    modifies pool
    ensures pool.Valid() && Columns(pool.strings, types, ty0, unit0, ty1, unit1)
    ensures 0 <= emptyStr < |pool.strings| && pool.strings[emptyStr] == empty
  {
    hide StringPool.Valid;
    var t0 := pool.Intern(ty0);
    var u0 := pool.Intern(unit0);
    var t1 := pool.Intern(ty1);
    var u1 := pool.Intern(unit1);
    types := [P.ValueType(t0, u0), P.ValueType(t1, u1)];
    emptyStr := pool.Intern(empty);
    var _ := pool.Intern(mapping);
  }

  class Importer {
    var pool: StringPool
    var sampleTypes: seq<P.ValueType>
    var emptyStr: int
    var frameIds: map<string, nat>
    var functions: seq<P.Function>
    var locations: seq<P.Location>
    ghost var names: seq<string>

    ghost predicate Valid()
      reads this, pool
    {
      && pool.Valid() && 0 <= emptyStr < |pool.strings| && pool.strings[emptyStr] == ""
      && TablesValid(pool.strings, functions, locations, names) && IdsValid(frameIds, names)
    }

    constructor (sampleType: string, unit: string, mappingFilename: string)
      ensures Valid() && fresh(pool) && names == [] && TypesSpell(pool.strings, sampleTypes, sampleType, unit)
    {
      hide StringPool.Valid;
      hide TablesValid;
      hide IdsValid;
      pool := new StringPool();
      sampleTypes, emptyStr, frameIds, functions, locations, names := [], 0, map[], [], [], [];
      new;
      var types, e := InternColumns(pool, "samples", "count", sampleType, unit, "", mappingFilename);
      sampleTypes, emptyStr := types, e;
      EmptyTables(pool.strings);
    }

    /** The function and location of a frame name, new or known. */
    method InternFrame(frame: string) returns (id: nat)
      requires Valid()
      modifies this`frameIds, this`functions, this`locations, this`names, pool
      ensures Valid() && old(pool.strings) <= pool.strings && old(names) <= names && 1 <= id <= |names|
              && names[id - 1] == frame
    {
      hide TablesValid;
      hide IdsValid;
      SameSizes(pool.strings, functions, locations, names, frameIds, frame);
      if frame in frameIds {
        return frameIds[frame];
      }
      id := |functions| + 1;
      ghost var before := pool.strings;
      var name := pool.Intern(frame);
      TablesKept(before, pool.strings, functions, locations, names);
      frameIds := frameIds[frame := id];
      var fn := P.Function(id, name, name, emptyStr, 0);
      TablesNext(pool.strings, functions, locations, names, frameIds - {frame}, fn, frame);
      IdsNext(old(frameIds), names, frame, id);
      functions := functions + [fn];
      locations := locations + [P.Location(id, 1, 0, [P.Line(id, 0, 0)])];
      names := names + [frame];
    }

    /** The location ids of a stack, leaf first. */
    method InternFrames(frames: seq<string>) returns (ids: seq<nat>)
      requires Valid()
      modifies this`frameIds, this`functions, this`locations, this`names, pool
      ensures Valid() && old(pool.strings) <= pool.strings && old(names) <= names && Stands(names, ids, frames)
    {
      hide TablesValid;
      hide IdsValid;
      ids := [];
      for k := 0 to |frames|
        invariant Valid() && old(pool.strings) <= pool.strings && old(names) <= names && Stands(names, ids, frames[..k])
      {
        assert frames[..k + 1] == frames[..k] + [frames[k]];
        ghost var before := names;
        var id := InternFrame(frames[k]);
        StandsNext(before, names, ids, frames[..k], id, frames[k]);
        ids := [id] + ids;
      }
      assert frames[..|frames|] == frames;
    }
  }

  lemma EmptyTables(strings: seq<string>)
    ensures TablesValid(strings, [], [], []) && IdsValid(map[], [])
  {}

  lemma SameSizes(strings: seq<string>, functions: seq<P.Function>, locations: seq<P.Location>, names: seq<string>,
                  ids: map<string, nat>, n: string)
    requires TablesValid(strings, functions, locations, names) && IdsValid(ids, names)
    ensures |functions| == |locations| == |names| && (n in ids ==> 1 <= ids[n] <= |names| && names[ids[n] - 1] == n)
  {}

  lemma TablesNext(strings: seq<string>, functions: seq<P.Function>, locations: seq<P.Location>, names: seq<string>,
                   ids: map<string, nat>, fn: P.Function, n: string)
    requires TablesValid(strings, functions, locations, names) && fn.id == |functions| + 1 && fn.startLine == 0
    requires 0 <= fn.name < |strings| && strings[fn.name] == n && 0 <= fn.filename < |strings|
             && strings[fn.filename] == ""
    ensures TablesValid(strings, functions + [fn], locations + [P.Location(fn.id, 1, 0, [P.Line(fn.id, 0, 0)])],
                        names + [n])
  {}

  lemma IdsNext(ids: map<string, nat>, names: seq<string>, n: string, id: nat)
    requires IdsValid(ids, names) && id == |names| + 1
    ensures IdsValid(ids[n := id], names + [n])
  {}

  /** A profile of the given stacks: one sample each, whose locations stand for its frames. */
  ghost predicate Imports(p: P.Profile, entries: seq<(seq<string>, int)>) {
    exists names :: ImportsBy(p, entries, names)
  }

  ghost predicate ImportsBy(p: P.Profile, entries: seq<(seq<string>, int)>, names: seq<string>) {
    TablesValid(p.strings, p.functions, p.locations, names) && SamplesMatch(names, p.samples, entries)
  }

  method FoldedToPprof(input: string, sampleType: string, unit: string, mappingFilename: string, float: FloatParser)
    returns (r: Result<P.Profile, string>)
    ensures match ParsedLines(Lines(input), float)
            case Err(_) => r.Err?
            case Ok(entries) =>
              r.Ok? && Imports(r.value, entries)
              && TypesSpell(r.value.strings, r.value.sampleTypes, sampleType, unit)
              && r.value.durationNanos == DurationNanos(SumValues(entries), unit)
  {
    hide TablesValid;
    hide IdsValid;
    hide SamplesMatch;
    hide ParsedLine;
    hide ParsedLines;
    hide Stands;
    hide Lines;
    hide TypesSpell;
    hide DurationNanos;
    hide SumValues;
    var lines := Lines(input);
    var importer := new Importer(sampleType, unit, mappingFilename);
    var samples: seq<P.Sample> := [];
    var total := 0;
    ghost var entries: seq<(seq<string>, int)> := [];
    NothingParsed(lines, float, importer.names);
    for i := 0 to |lines|
      invariant importer.Valid() && fresh(importer) && fresh(importer.pool)
      invariant TypesSpell(importer.pool.strings, importer.sampleTypes, sampleType, unit) && total == SumValues(entries)
      invariant ParsedLines(lines[..i], float) == Ok(entries) && SamplesMatch(importer.names, samples, entries)
    {
      LinesStep(lines, i, float);
      var parsed := ParseFoldedLine(lines[i], float);
      if parsed.Err? {
        LinesFail(lines, i + 1, float);
        return Err(parsed.error);
      }
      if parsed.value.None? {
        continue;
      }
      var frames, value := parsed.value.value.0, parsed.value.value.1;
      ghost var before, strings := importer.names, importer.pool.strings;
      var ids := importer.InternFrames(frames);
      TypesKept(strings, importer.pool.strings, importer.sampleTypes, sampleType, unit);
      SamplesKept(before, importer.names, samples, entries);
      SampleNext(importer.names, samples, entries, P.Sample(ids, [1, value]), (frames, value));
      samples := samples + [P.Sample(ids, [1, value])];
      SumValuesNext(entries, (frames, value));
      total := total + value;
      entries := entries + [(frames, value)];
    }
    assert lines[..|lines|] == lines;
    r := Ok(P.Profile(importer.sampleTypes, samples, importer.locations, importer.functions, importer.pool.strings, 0,
                      DurationNanos(total, unit)));
    assert ImportsBy(r.value, entries, importer.names);
  }

  lemma {:induction false} SumValuesAdd(a: seq<(seq<string>, int)>, b: seq<(seq<string>, int)>)
    ensures SumValues(a + b) == SumValues(a) + SumValues(b)
    ensures |b| == 1 ==> SumValues(b) == b[0].1
  {
    if b == [] {
      assert a + b == a;
    } else {
      SumValuesAdd(a, b[..|b| - 1]);
      assert (a + b)[..|a + b| - 1] == a + b[..|b| - 1];
    }
  }

  /** The parsed stacks come in the order of their lines; a line that does not parse spoils the text. */
  lemma {:induction false} ParsedLinesAdd(a: seq<string>, b: seq<string>, float: FloatParser)
    ensures ParsedLines(a + b, float) ==
            if ParsedLines(a, float).Err? then ParsedLines(a, float)
            else if ParsedLines(b, float).Err? then ParsedLines(b, float)
            else Ok(ParsedLines(a, float).value + ParsedLines(b, float).value)
  {
    hide ParsedLine;
    if b == [] {
      assert a + b == a;
      if ParsedLines(a, float).Ok? {
        assert ParsedLines(a, float).value + [] == ParsedLines(a, float).value;
      }
    } else {
      var init, last := b[..|b| - 1], ParsedLine(b[|b| - 1], float);
      ParsedLinesAdd(a, init, float);
      assert (a + b)[..|a + b| - 1] == a + init;
      if ParsedLines(a + init, float).Ok? && last.Ok? && last.value.Some? {
        var xs, ys := ParsedLines(a, float).value, ParsedLines(init, float).value;
        assert xs + ys + [last.value.value] == xs + (ys + [last.value.value]);
      }
    }
  }

  lemma OneParsedLine(line: string, float: FloatParser)
    ensures ParsedLine(line, float) == Ok(None) ==> ParsedLines([line], float) == Ok([])
    ensures ParsedLine(line, float).Ok? && ParsedLine(line, float).value.Some? ==>
              ParsedLines([line], float) == Ok([ParsedLine(line, float).value.value])
    ensures ParsedLine(line, float).Err? ==> ParsedLines([line], float).Err?
  {
    hide ParsedLine;
    assert [line][..0] == [];
    var last := ParsedLine(line, float);
    if last.Ok? && last.value.Some? {
      assert [] + [last.value.value] == [last.value.value];
    }
  }

  lemma TypesKept(strings: seq<string>, strings': seq<string>, types: seq<P.ValueType>, sampleType: string,
                  unit: string)
    requires TypesSpell(strings, types, sampleType, unit) && strings <= strings'
    ensures TypesSpell(strings', types, sampleType, unit)
  {}

  lemma NothingParsed(lines: seq<string>, float: FloatParser, names: seq<string>)
    ensures ParsedLines(lines[..0], float) == Ok([]) && SamplesMatch(names, [], []) && SumValues([]) == 0
  {}

  // ------------------------------------------------------------- the round trip

  predicate AllTrimmed(names: seq<string>) {
    names != [] && forall k :: 0 <= k < |names| ==> Trimmed(names[k])
  }

  /** A stack that survives as text: non-empty trimmed names, and a root that does not start a comment. */
  predicate Survives(names: seq<string>) {
    AllTrimmed(names) && !IsComment(names[0])
  }

  predicate IsComment(name: string) {
    name != "" && name[0] == '#'
  }

  predicate Clean(names: seq<string>) {
    forall k :: 0 <= k < |names| ==> Free(names[k], ';') && Free(names[k], '\n')
  }

  ghost predicate IsStack(key: string) {
    exists names :: Survives(names) && Clean(names) && key == Join(names, ';')
  }

  ghost predicate Counted(s: P.Sample, idx: nat) {
    P.ValueAt(s, idx) > 0 && s.locationIds != []
  }

  /** Every exported stack survives. */
  ghost predicate AllSurvive(p: P.Profile, idx: nat, samples: seq<P.Sample>) {
    forall i :: 0 <= i < |samples| && Counted(samples[i], idx) ==> Survives(Names(StackOf(p, samples[i].locationIds)))
  }

  ghost predicate WithinExact(m: map<string, int>) {
    forall k :: k in m ==> m[k] <= FLOAT_EXACT
  }

  /** Positive sums under keys that fit on a line: what every export writes. */
  ghost predicate PlainMap(m: map<string, int>) {
    forall k :: k in m ==> Free(k, '\n') && 1 <= m[k]
  }

  ghost predicate GoodMap(m: map<string, int>) {
    forall k :: k in m ==> IsStack(k) && 1 <= m[k]
  }

  lemma GoodMapNext(m: map<string, int>, k: string, v: int)
    requires GoodMap(m) && IsStack(k) && v >= 1
    ensures GoodMap(AddAt(m, k, v))
  {
    hide IsStack;
  }

  lemma CleanNames(stack: seq<Frame>)
    ensures Clean(Names(stack))
  {}

  lemma GoodIsPlain(m: map<string, int>)
    requires GoodMap(m)
    ensures PlainMap(m)
  {
    forall k | k in m
      ensures Free(k, '\n')
    {
      var names :| Survives(names) && Clean(names) && k == Join(names, ';');
      JoinFree(names);
    }
  }

  lemma {:induction false} FoldedMapPlain(p: P.Profile, idx: nat, samples: seq<P.Sample>)
    ensures PlainMap(FoldedMap(p, idx, samples))
    ensures forall i :: 0 <= i < |samples| && Counted(samples[i], idx) ==>
              KeyOf(p, samples[i]) in FoldedMap(p, idx, samples)
  {
    hide KeyOf;
    hide PlainMap;
    hide FoldedMap;
    hide Counted;
    NothingFolded(p, idx);
    if samples != [] {
      var init, s := samples[..|samples| - 1], samples[|samples| - 1];
      FoldedMapPlain(p, idx, init);
      assert forall i :: 0 <= i < |init| ==> init[i] == samples[i];
      FoldedStep(p, idx, samples);
      if Counted(s, idx) {
        PlainNext(p, FoldedMap(p, idx, init), s, idx);
      }
    }
  }

  lemma FoldedStep(p: P.Profile, idx: nat, samples: seq<P.Sample>)
    requires samples != []
    ensures var before, s := FoldedMap(p, idx, samples[..|samples| - 1]), samples[|samples| - 1];
            FoldedMap(p, idx, samples) ==
            if Counted(s, idx) then AddAt(before, KeyOf(p, s), P.ValueAt(s, idx)) else before
  {
    hide Names;
    hide StackOf;
    hide Join;
    hide P.ValueAt;
  }

  lemma NothingFolded(p: P.Profile, idx: nat)
    ensures FoldedMap(p, idx, []) == map[] && PlainMap(map[])
  {}

  lemma PlainNext(p: P.Profile, m: map<string, int>, s: P.Sample, idx: nat)
    requires PlainMap(m) && Counted(s, idx)
    ensures PlainMap(AddAt(m, KeyOf(p, s), P.ValueAt(s, idx)))
  {
    hide Names;
    hide Join;
    hide Free;
    CleanNames(StackOf(p, s.locationIds));
    JoinFree(Names(StackOf(p, s.locationIds)));
  }

  /** What the samples counted under a line add up to. */
  ghost function SumUnder(p: P.Profile, idx: nat, samples: seq<P.Sample>, key: string): int {
    if samples == [] then 0
    else (if Counted(samples[0], idx) && KeyOf(p, samples[0]) == key then P.ValueAt(samples[0], idx) else 0)
         + SumUnder(p, idx, samples[1..], key)
  }

  lemma {:induction false} SumUnderSnoc(p: P.Profile, idx: nat, samples: seq<P.Sample>, key: string)
    requires samples != []
    ensures var init, s := samples[..|samples| - 1], samples[|samples| - 1];
            SumUnder(p, idx, samples, key) ==
            SumUnder(p, idx, init, key) + if Counted(s, idx) && KeyOf(p, s) == key then P.ValueAt(s, idx) else 0
  {
    hide Counted;
    hide KeyOf;
    hide P.ValueAt;
    if |samples| > 1 {
      SumUnderSnoc(p, idx, samples[1..], key);
      assert samples[..|samples| - 1][1..] == samples[1..][..|samples| - 2];
    }
  }

  /** Line by line: the exported lines are those of the counted samples, each with the sum of the samples under it. */
  lemma {:induction false} FoldedSums(p: P.Profile, idx: nat, samples: seq<P.Sample>, key: string)
    ensures key in FoldedMap(p, idx, samples) <==> exists s :: s in samples && Counted(s, idx) && KeyOf(p, s) == key
    ensures key in FoldedMap(p, idx, samples) ==> FoldedMap(p, idx, samples)[key] == SumUnder(p, idx, samples, key)
    ensures key !in FoldedMap(p, idx, samples) ==> SumUnder(p, idx, samples, key) == 0
  {
    hide FoldedMap;
    hide Counted;
    hide KeyOf;
    hide P.ValueAt;
    NothingFolded(p, idx);
    if samples != [] {
      var init, last := samples[..|samples| - 1], samples[|samples| - 1];
      FoldedSums(p, idx, init, key);
      FoldedStep(p, idx, samples);
      SumUnderSnoc(p, idx, samples, key);
      assert samples == init + [last];
      assert last in samples;
    }
  }

  /** The keys show whether every stack survived. */
  lemma KeysTell(p: P.Profile, idx: nat, samples: seq<P.Sample>)
    requires GoodMap(FoldedMap(p, idx, samples))
    ensures AllSurvive(p, idx, samples)
  {
    hide FoldedMap;
    hide Names;
    hide StackOf;
    hide Join;
    hide Split;
    hide Survives;
    FoldedMapPlain(p, idx, samples);
    forall i | 0 <= i < |samples| && Counted(samples[i], idx)
      ensures Survives(Names(StackOf(p, samples[i].locationIds)))
    {
      var names := Names(StackOf(p, samples[i].locationIds));
      CleanNames(StackOf(p, samples[i].locationIds));
      StackParts(Join(names, ';'));
      SplitJoin(names, ';');
    }
  }

  lemma {:induction false} FoldedMapGood(p: P.Profile, idx: nat, samples: seq<P.Sample>)
    requires AllSurvive(p, idx, samples)
    ensures GoodMap(FoldedMap(p, idx, samples))
  {
    if samples != [] {
      var init, s := samples[..|samples| - 1], samples[|samples| - 1];
      assert AllSurvive(p, idx, init) by {
        assert forall i :: 0 <= i < |init| ==> init[i] == samples[i];
      }
      FoldedMapGood(p, idx, init);
      if Counted(s, idx) {
        hide Names;
        hide StackOf;
        hide Survives;
        hide Clean;
        var names := Names(StackOf(p, s.locationIds));
        CleanNames(StackOf(p, s.locationIds));
        assert IsStack(Join(names, ';'));
        hide IsStack;
        hide GoodMap;
        GoodMapNext(FoldedMap(p, idx, init), Join(names, ';'), P.ValueAt(s, idx));
      }
    }
  }

  lemma {:induction false} JoinShape(names: seq<string>)
    requires AllTrimmed(names)
    ensures Trimmed(Join(names, ';')) && (IsComment(Join(names, ';')) <==> IsComment(names[0]))
  {
    if |names| > 1 {
      var init, last := names[..|names| - 1], names[|names| - 1];
      JoinShape(init);
      var joined := Join(init, ';');
      assert Join(names, ';') == joined + [';'] + last;
    }
  }

  lemma {:induction false} JoinFree(names: seq<string>)
    requires names != [] && Clean(names)
    ensures Free(Join(names, ';'), '\n')
  {
    if |names| > 1 {
      JoinFree(names[..|names| - 1]);
    }
  }

  lemma DigitsAreNotSpace(v: nat)
    ensures Decimal(v) != "" && Free(Decimal(v), '\n')
    ensures forall i :: 0 <= i < |Decimal(v)| ==> !IsWhitespace(Decimal(v)[i])
  {
    DecimalIsDigits(v);
    var d := Decimal(v);
    forall i | 0 <= i < |d|
      ensures IsDigit(d[i])
    {
      assert d[i] in d;
    }
  }

  lemma {:induction false} TrimmedKept(names: seq<string>)
    requires forall k :: 0 <= k < |names| ==> Trimmed(names[k])
    ensures TrimmedPieces(names) == Ok(names)
  {
    if names != [] {
      TrimmedKept(names[..|names| - 1]);
      TrimmedStays(names[|names| - 1]);
      assert names == names[..|names| - 1] + [names[|names| - 1]];
    }
  }

  lemma SpaceTrimmed(d: string)
    requires Trimmed(d)
    ensures Trim(" " + d) == d
  {
    assert (" " + d)[1..] == d;
    TrimmedStays(d);
  }

  /** Where a written line splits. */
  lemma LineSplits(key: string, d: string)
    requires Trimmed(key) && d != "" && forall i :: 0 <= i < |d| ==> !IsWhitespace(d[i])
    ensures var line := key + " " + d;
            && Trimmed(line) && line[0] == key[0] && LastSpace(line) == Some(|key|)
            && line[..|key|] == key && line[|key|..] == " " + d
  {
    var line := key + " " + d;
    forall i | |key| < i < |line|
      ensures !IsWhitespace(line[i])
    {
      assert line[i] == d[i - |key| - 1];
    }
    assert line[|key|] == ' ';
    assert line[|line| - 1] == d[|d| - 1];
  }

  lemma WholeValue(v: nat, float: FloatParser)
    requires ReadsWhole(float) && v <= FLOAT_EXACT
    ensures ParsedValue(Decimal(v), float) == Ok(v)
  {
    hide Decimal;
    assert float(Decimal(v)) == Finite(v as real);
    assert (v as real + 0.5).Floor == v;
  }

  /** What the value column of a written line reads back as. */
  function ReadBack(v: int, float: FloatParser): Result<int, string> {
    ParsedValue(DecimalInt(v), float)
  }

  function LineMeans(names: seq<string>, value: Result<int, string>): Result<Option<(seq<string>, int)>, string> {
    if value.Err? then Err(value.error) else if value.value == 0 then Ok(None) else Ok(Some((names, value.value)))
  }

  /** A written line parses back to its stack, with the value its column reads back as. */
  lemma LineParses(names: seq<string>, v: nat, float: FloatParser)
    requires Survives(names) && Clean(names)
    ensures ParsedLine(LineOf(Join(names, ';'), v), float) == LineMeans(names, ReadBack(v, float))
  {
    hide Decimal;
    hide Join;
    hide Split;
    hide Trim;
    hide TrimmedPieces;
    hide ParsedValue;
    hide IsWhitespace;
    hide LastSpace;
    var key, d := Join(names, ';'), Decimal(v);
    JoinShape(names);
    DigitsAreNotSpace(v);
    LineSplits(key, d);
    TrimmedStays(key + " " + d);
    TrimmedStays(key);
    SpaceTrimmed(d);
    SplitJoin(names, ';');
    TrimmedKept(names);
    assert LineOf(key, v) == key + " " + d;
  }

  function AllLines(keys: seq<string>, m: map<string, int>): seq<string>
    requires forall k :: k in keys ==> k in m
  {
    if keys == [] then [] else AllLines(keys[..|keys| - 1], m) + [LineOf(keys[|keys| - 1], m[keys[|keys| - 1]])]
  }

  function Entries(keys: seq<string>, m: map<string, int>): seq<(seq<string>, int)>
    requires forall k :: k in keys ==> k in m
  {
    if keys == [] then []
    else Entries(keys[..|keys| - 1], m) + [(Split(keys[|keys| - 1], ';'), m[keys[|keys| - 1]])]
  }

  lemma KeyText(key: string, v: int)
    requires Free(key, '\n') && v >= 1
    ensures Free(LineOf(key, v), '\n')
  {
    hide Decimal;
    DigitsAreNotSpace(v);
  }

  /** The text splits into the lines it was made of. */
  lemma {:induction false} RenderedLines(keys: seq<string>, m: map<string, int>)
    requires (forall k :: k in keys ==> k in m) && PlainMap(m)
    ensures Split(Render(keys, m), '\n') == AllLines(keys, m) + [""]
  {
    if keys == [] {
      SplitNothing('\n');
    } else {
      hide Split;
      hide Extend;
      hide LineOf;
      hide Free;
      var init, key := keys[..|keys| - 1], keys[|keys| - 1];
      RenderedLines(init, m);
      assert key in keys;
      var before, line := Render(init, m), LineOf(key, m[key]);
      KeyText(key, m[key]);
      SplitMore(before, line, '\n');
      SplitSnoc(before + line, '\n', '\n');
      ExtendLast(AllLines(init, m), line);
      assert Render(keys, m) == (before + line) + ['\n'];
    }
  }

  lemma LinesOfRender(keys: seq<string>, m: map<string, int>)
    requires (forall k :: k in keys ==> k in m) && PlainMap(m)
    ensures Lines(Render(keys, m)) == AllLines(keys, m)
  {
    hide Split;
    hide PlainMap;
    RenderedLines(keys, m);
    assert (AllLines(keys, m) + [""])[..|AllLines(keys, m)|] == AllLines(keys, m);
  }

  lemma KeyParses(key: string, v: nat, float: FloatParser)
    requires IsStack(key)
    ensures ParsedLine(LineOf(key, v), float) == LineMeans(Split(key, ';'), ReadBack(v, float))
  {
    hide LineOf;
    hide ParsedLine;
    hide ReadBack;
    hide Split;
    var names :| Survives(names) && Clean(names) && key == Join(names, ';');
    LineParses(names, v, float);
    SplitJoin(names, ';');
  }

  /** The sums as they read back, without those that read back as zero. */
  function Reread(m: map<string, int>, float: FloatParser): map<string, int> {
    map k | k in m && ReadBack(m[k], float).Ok? && ReadBack(m[k], float).value != 0 :: ReadBack(m[k], float).value
  }

  ghost predicate AllRead(m: map<string, int>, float: FloatParser) {
    forall k :: k in m ==> ReadBack(m[k], float).Ok?
  }

  ghost predicate ValuesSurvive(m: map<string, int>, float: FloatParser) {
    forall k :: k in m ==> ReadBack(m[k], float) == Ok(m[k])
  }

  lemma ReadBackPositive(v: int, float: FloatParser)
    ensures ReadBack(v, float).Ok? ==> ReadBack(v, float).value >= 0
  {
    hide DecimalInt;
  }

  lemma RereadGood(m: map<string, int>, float: FloatParser)
    requires GoodMap(m)
    ensures GoodMap(Reread(m, float))
  {
    hide ReadBack;
    hide IsStack;
    forall k | k in Reread(m, float)
      ensures Reread(m, float)[k] >= 1
    {
      ReadBackPositive(m[k], float);
    }
  }

  lemma RereadSame(m: map<string, int>, float: FloatParser)
    requires PlainMap(m)
    ensures Reread(m, float) == m <==> ValuesSurvive(m, float)
  {
    hide ReadBack;
    var r := Reread(m, float);
    if ValuesSurvive(m, float) {
      assert forall k :: k in r <==> k in m;
    }
    forall k | k in m && r == m
      ensures ReadBack(m[k], float) == Ok(m[k])
    {
      assert k in r;
    }
  }

  function Kept(keys: seq<string>, r: map<string, int>): (kept: seq<string>)
    ensures forall k :: k in kept <==> k in keys && k in r
  {
    if keys == [] then []
    else
      assert keys == keys[..|keys| - 1] + [keys[|keys| - 1]];
      Kept(keys[..|keys| - 1], r) + if keys[|keys| - 1] in r then [keys[|keys| - 1]] else []
  }

  lemma {:induction false} KeptAscending(keys: seq<string>, r: map<string, int>)
    requires Ascending(keys)
    ensures Ascending(Kept(keys, r))
  {
    hide Less;
    if keys != [] {
      var init, last := keys[..|keys| - 1], keys[|keys| - 1];
      KeptAscending(init, r);
      forall i | 0 <= i < |Kept(init, r)|
        ensures Less(Kept(init, r)[i], last)
      {
        assert Kept(init, r)[i] in init;
      }
    }
  }

  lemma {:induction false} LinesParse(keys: seq<string>, m: map<string, int>, float: FloatParser)
    requires (forall k :: k in keys ==> k in m) && GoodMap(m)
    ensures var r := Reread(m, float);
            if forall k :: k in keys ==> ReadBack(m[k], float).Ok?
            then ParsedLines(AllLines(keys, m), float) == Ok(Entries(Kept(keys, r), r))
            else ParsedLines(AllLines(keys, m), float).Err?
  {
    hide LineOf;
    hide ParsedLine;
    hide ReadBack;
    hide Split;
    hide IsStack;
    if keys != [] {
      var init, key := keys[..|keys| - 1], keys[|keys| - 1];
      LinesParse(init, m, float);
      assert key in keys && keys == init + [key];
      KeyParses(key, m[key], float);
      var lines, kept := AllLines(keys, m), Kept(init, Reread(m, float));
      assert lines[..|lines| - 1] == AllLines(init, m);
      assert (kept + [key])[..|kept|] == kept && kept + [] == kept;
    }
  }

  /** What the imported tables show for a stack: its names. */
  lemma StandsShow(p: P.Profile, names: seq<string>, ids: seq<nat>, frames: seq<string>)
    requires TablesValid(p.strings, p.functions, p.locations, names) && Stands(names, ids, frames)
    requires Clean(frames) && forall k :: 0 <= k < |frames| ==> frames[k] != ""
    ensures Names(StackOf(p, ids)) == frames
  {
    hide FrameForLocation;
    hide TablesValid;
    hide Names;
    hide StackOf;
    hide Clean;
    forall k | 0 <= k < |frames|
      ensures Names(StackOf(p, ids))[k] == frames[k]
    {
      NameShown(p, names, ids[|ids| - 1 - k]);
      CleanAt(frames, k);
    }
  }

  lemma CleanAt(names: seq<string>, k: nat)
    requires Clean(names) && k < |names|
    ensures Sanitize(names[k]) == names[k]
  {}

  lemma NameShown(p: P.Profile, names: seq<string>, id: nat)
    requires TablesValid(p.strings, p.functions, p.locations, names) && 1 <= id <= |names| && names[id - 1] != ""
    ensures FrameForLocation(p, id).name == names[id - 1]
  {
    hide FrameForLocation;
    DenseFrame(p, id);
  }

  lemma StackParts(key: string)
    requires IsStack(key)
    ensures var names := Split(key, ';'); Survives(names) && Clean(names) && Join(names, ';') == key
  {
    hide Split;
    var names :| Survives(names) && Clean(names) && key == Join(names, ';');
    SplitJoin(names, ';');
  }

  lemma {:induction false} EntriesAt(keys: seq<string>, m: map<string, int>, i: nat)
    requires (forall k :: k in keys ==> k in m) && i < |keys|
    ensures |Entries(keys, m)| == |keys| && Entries(keys, m)[i] == (Split(keys[i], ';'), m[keys[i]])
  {
    hide Split;
    var init := keys[..|keys| - 1];
    if i < |init| {
      EntriesAt(init, m, i);
    } else if init != [] {
      EntriesAt(init, m, 0);
    }
  }

  /** A sample imported from a key's line exports as that key. */
  lemma SampleExports(p: P.Profile, names: seq<string>, keys: seq<string>, m: map<string, int>, i: nat)
    requires (forall k :: k in keys ==> k in m) && GoodMap(m) && i < |keys|
    requires TablesValid(p.strings, p.functions, p.locations, names) && SamplesMatch(names, p.samples, Entries(keys, m))
    ensures i < |p.samples| && P.ValueAt(p.samples[i], 1) == m[keys[i]] >= 1 && p.samples[i].locationIds != []
    ensures KeyOf(p, p.samples[i]) == keys[i]
  {
    hide TablesValid;
    hide Split;
    hide Join;
    hide IsStack;
    hide StackOf;
    hide Names;
    assert keys[i] in keys;
    EntriesAt(keys, m, i);
    StackParts(keys[i]);
    StandsShow(p, names, p.samples[i].locationIds, Split(keys[i], ';'));
  }

  /** A map holds exactly the given keys, with the values they have in `m`. */
  ghost predicate Holds(a: map<string, int>, keys: seq<string>, m: map<string, int>) {
    (forall k :: k in a <==> k in keys) && forall k :: k in keys ==> k in m && a[k] == m[k]
  }

  lemma HoldsNext(a: map<string, int>, keys: seq<string>, m: map<string, int>, k: string)
    requires Holds(a, keys, m) && k !in keys && k in m
    ensures Holds(AddAt(a, k, m[k]), keys + [k], m)
  {}

  lemma FoldedNext(p: P.Profile, idx: nat, samples: seq<P.Sample>, n: nat)
    requires n < |samples| && P.ValueAt(samples[n], idx) > 0 && samples[n].locationIds != []
    ensures FoldedMap(p, idx, samples[..n + 1]) ==
            AddAt(FoldedMap(p, idx, samples[..n]), KeyOf(p, samples[n]), P.ValueAt(samples[n], idx))
  {
    assert samples[..n + 1][..n] == samples[..n];
  }

  /** Importing and exporting again gives the same map. */
  lemma {:induction false} ReExported(p: P.Profile, names: seq<string>, keys: seq<string>, m: map<string, int>, n: nat)
    requires (forall k :: k in keys ==> k in m) && GoodMap(m) && Ascending(keys) && n <= |keys| == |p.samples|
    requires TablesValid(p.strings, p.functions, p.locations, names) && SamplesMatch(names, p.samples, Entries(keys, m))
    ensures Holds(FoldedMap(p, 1, p.samples[..n]), keys[..n], m)
  {
    hide TablesValid;
    hide SamplesMatch;
    hide Names;
    hide StackOf;
    hide Join;
    hide GoodMap;
    hide Ascending;
    if n > 0 {
      hide FoldedMap;
      hide Holds;
      ReExported(p, names, keys, m, n - 1);
      SampleExports(p, names, keys, m, n - 1);
      FoldedNext(p, 1, p.samples, n - 1);
      assert keys[..n] == keys[..n - 1] + [keys[n - 1]];
      NewKey(keys, n - 1);
      assert keys[n - 1] in keys;
      HoldsNext(FoldedMap(p, 1, p.samples[..n - 1]), keys[..n - 1], m, keys[n - 1]);
    }
  }

  lemma NewKey(keys: seq<string>, i: nat)
    requires Ascending(keys) && i < |keys|
    ensures keys[i] !in keys[..i]
  {
    hide Less;
    LessIrreflexive(keys[i]);
    assert forall j :: 0 <= j < i ==> Less(keys[..i][j], keys[i]);
  }

  /** One imported sample for every distinct stack of names, holding the stack's summed value. */
  ghost predicate OnePerStack(p: P.Profile, m: map<string, int>) {
    exists keys :: Lists(keys, m) && Imports(p, Entries(keys, m))
  }

  lemma SameMap(a: map<string, int>, m: map<string, int>, keys: seq<string>)
    requires Lists(keys, m) && Holds(a, keys, m)
    ensures a == m
  {
    hide Ascending;
    assert forall k :: k in a <==> k in m;
  }

  lemma ImportMeans(text: string, m: map<string, int>, float: FloatParser) returns (keys: seq<string>)
    requires Renders(text, m) && GoodMap(m)
    ensures if AllRead(m, float)
            then Lists(keys, Reread(m, float)) && ParsedLines(Lines(text), float) == Ok(Entries(keys, Reread(m, float)))
            else ParsedLines(Lines(text), float).Err?
  {
    hide GoodMap;
    hide ReadBack;
    hide ParsedLines;
    hide Lines;
    hide Ascending;
    var all :| Lists(all, m) && text == Render(all, m);
    GoodIsPlain(m);
    LinesOfRender(all, m);
    LinesParse(all, m, float);
    KeptAscending(all, Reread(m, float));
    keys := Kept(all, Reread(m, float));
  }

  lemma FixedPoint(p: P.Profile, keys: seq<string>, m: map<string, int>)
    requires Lists(keys, m) && GoodMap(m) && Imports(p, Entries(keys, m))
    ensures FoldedMap(p, 1, p.samples) == m
  {
    hide GoodMap;
    hide TablesValid;
    hide Ascending;
    hide FoldedMap;
    hide Entries;
    var names :| ImportsBy(p, Entries(keys, m), names);
    assert |p.samples| == |keys| by {
      if keys != [] {
        EntriesAt(keys, m, 0);
      } else {
        NoEntries(m);
      }
    }
    ReExported(p, names, keys, m, |keys|);
    assert keys[..|keys|] == keys && p.samples[..|keys|] == p.samples;
    SameMap(FoldedMap(p, 1, p.samples), m, keys);
  }

  lemma NoEntries(m: map<string, int>)
    ensures Entries([], m) == []
  {}

  // ------------------------------------------------- only surviving stacks import

  lemma {:induction false} TrimStartParts(s: string)
    ensures var t := TrimStart(s); |t| <= |s| && t == s[|s| - |t|..] && (t != "" ==> !IsWhitespace(t[0]))
  {
    if s != "" && IsWhitespace(s[0]) {
      TrimStartParts(s[1..]);
    }
  }

  lemma {:induction false} TrimEndParts(s: string)
    ensures var t := TrimEnd(s); |t| <= |s| && t == s[..|t|] && (t != "" ==> !IsWhitespace(t[|t| - 1]))
  {
    if s != "" && IsWhitespace(s[|s| - 1]) {
      TrimEndParts(s[..|s| - 1]);
    }
  }

  /** What trimming leaves is trimmed, keeps the text's first character if that is no space, and adds none. */
  lemma TrimParts(s: string)
    ensures Trim(s) != "" ==> Trimmed(Trim(s))
    ensures Trim(s) != "" && s != "" && !IsWhitespace(s[0]) ==> Trim(s)[0] == s[0]
    ensures forall c: char :: Free(s, c) ==> Free(Trim(s), c)
  {
    hide IsWhitespace;
    TrimStartParts(s);
    TrimEndParts(TrimStart(s));
  }

  /** The pieces hold no separator and nothing new, and the first starts as the text does. */
  lemma {:induction false} SplitParts(s: string, c: char)
    ensures forall k :: 0 <= k < |Split(s, c)| ==> Free(Split(s, c)[k], c)
    ensures Split(s, c)[0] != "" ==> s != "" && Split(s, c)[0][0] == s[0]
  {
    if s != "" {
      SplitParts(s[..|s| - 1], c);
    }
  }

  lemma {:induction false} SplitAddsNothing(s: string, c: char, d: char)
    requires Free(s, d)
    ensures forall k :: 0 <= k < |Split(s, c)| ==> Free(Split(s, c)[k], d)
  {
    if s != "" {
      SplitAddsNothing(s[..|s| - 1], c, d);
    }
  }

  lemma {:induction false} TrimmedPiecesAre(raw: seq<string>)
    ensures TrimmedPieces(raw).Ok? <==> forall k :: 0 <= k < |raw| ==> Trim(raw[k]) != ""
    ensures TrimmedPieces(raw).Ok? ==>
              var r := TrimmedPieces(raw).value;
              |r| == |raw| && forall k :: 0 <= k < |raw| ==> r[k] == Trim(raw[k]) && r[k] != ""
  {
    hide Trim;
    if raw != [] {
      TrimmedPiecesAre(raw[..|raw| - 1]);
    }
  }

  lemma PiecesSurvive(stack: string)
    requires stack != "" && !IsWhitespace(stack[0]) && stack[0] != '#' && Free(stack, '\n')
    requires TrimmedPieces(Split(stack, ';')).Ok?
    ensures var frames := TrimmedPieces(Split(stack, ';')).value; Survives(frames) && Clean(frames)
  {
    hide Trim;
    hide IsWhitespace;
    hide Free;
    hide Split;
    hide TrimmedPieces;
    var raw, frames := Split(stack, ';'), TrimmedPieces(Split(stack, ';')).value;
    TrimmedPiecesAre(raw);
    SplitParts(stack, ';');
    SplitAddsNothing(stack, ';', '\n');
    forall k | 0 <= k < |raw|
      ensures Trimmed(frames[k]) && Free(frames[k], ';') && Free(frames[k], '\n')
    {
      TrimParts(raw[k]);
    }
    TrimParts(raw[0]);
    assert Trim("") == "" by { EmptyTrim(); }
  }

  lemma EmptyTrim()
    ensures Trim("") == ""
  {}

  /** Whatever the line, the stack it parses to survives. */
  lemma ParsedSurvives(line: string, float: FloatParser)
    requires Free(line, '\n') && ParsedLine(line, float).Ok? && ParsedLine(line, float).value.Some?
    ensures var frames := ParsedLine(line, float).value.value.0; Survives(frames) && Clean(frames)
  {
    hide Trim;
    hide IsWhitespace;
    hide Split;
    hide TrimmedPieces;
    hide ParsedValue;
    hide Survives;
    hide Clean;
    var trimmed := Trim(line);
    TrimParts(line);
    var at := LastSpace(trimmed).value;
    TrimParts(trimmed[..at]);
    PiecesSurvive(Trim(trimmed[..at]));
  }

  lemma LinesAreFree(text: string)
    ensures forall k :: 0 <= k < |Lines(text)| ==> Free(Lines(text)[k], '\n')
  {
    hide Split;
    SplitParts(text, '\n');
  }

  lemma {:induction false} AllParsedSurvive(lines: seq<string>, float: FloatParser)
    requires (forall k :: 0 <= k < |lines| ==> Free(lines[k], '\n')) && ParsedLines(lines, float).Ok?
    ensures forall e :: e in ParsedLines(lines, float).value ==> Survives(e.0) && Clean(e.0)
  {
    hide ParsedLine;
    hide Survives;
    hide Clean;
    if lines != [] {
      AllParsedSurvive(lines[..|lines| - 1], float);
      if ParsedLine(lines[|lines| - 1], float).value.Some? {
        ParsedSurvives(lines[|lines| - 1], float);
      }
    }
  }

  /** Every stack of an imported profile survives, whatever the text was. */
  lemma ImportsSurvive(text: string, float: FloatParser, p: P.Profile)
    requires ParsedLines(Lines(text), float).Ok? && Imports(p, ParsedLines(Lines(text), float).value)
    ensures AllSurvive(p, 1, p.samples)
  {
    hide ParsedLines;
    hide Lines;
    hide TablesValid;
    hide Stands;
    hide Names;
    hide StackOf;
    LinesAreFree(text);
    var entries := ParsedLines(Lines(text), float).value;
    AllParsedSurvive(Lines(text), float);
    var names :| ImportsBy(p, entries, names);
    forall i | 0 <= i < |p.samples|
      ensures Survives(Names(StackOf(p, p.samples[i].locationIds)))
    {
      assert entries[i] in entries;
      StandsShow(p, names, p.samples[i].locationIds, entries[i].0);
    }
  }

  /** The four shapes of a line. First: whitespace only. */
  lemma BlankLine(line: string, float: FloatParser)
    requires Blank(line)
    ensures ParsedLine(line, float) == Ok(None)
  {
    TrimAround(line, "", "");
    assert line + "" + "" == line;
  }

  /** Second: a comment. */
  lemma CommentLine(a: string, s: string, float: FloatParser)
    requires Blank(a) && IsComment(s)
    ensures ParsedLine(a + s, float) == Ok(None)
  {
    TrimStartAround(a, s);
    TrimEndParts(s);
  }

  /** Third: a single column, an error. */
  lemma OneColumn(a: string, s: string, b: string, float: FloatParser)
    requires Blank(a) && Blank(b) && s != "" && !IsComment(s) && forall i :: 0 <= i < |s| ==> !IsWhitespace(s[i])
    ensures ParsedLine(a + s + b, float).Err?
  {
    hide Blank;
    hide Trim;
    hide IsWhitespace;
    TrimAround(a, s, b);
  }

  /** Fourth: a stack and its value, with any whitespace around and between. The stack's pieces are trimmed, none may
      be empty unless the value is zero, and a value of zero drops the line. */
  lemma TwoColumns(a: string, stack: string, gap: string, d: string, b: string, float: FloatParser)
    requires Blank(a) && Blank(gap) && Blank(b) && gap != "" && Trimmed(stack) && !IsComment(stack)
    requires d != "" && forall i :: 0 <= i < |d| ==> !IsWhitespace(d[i])
    ensures var line, value := a + (stack + gap + d) + b, ParsedValue(d, float);
            var pieces := TrimmedPieces(Split(stack, ';'));
            ParsedLine(line, float) ==
            if value.Err? then Err(value.error) else if value.value == 0 then Ok(None)
            else if pieces.Err? then Err(pieces.error) else Ok(Some((pieces.value, value.value)))
  {
    hide Trim;
    hide IsWhitespace;
    hide LastSpace;
    hide Split;
    hide TrimmedPieces;
    hide ParsedValue;
    var s, at := stack + gap + d, |stack| + |gap| - 1;
    ColumnsSplit(stack, gap, d);
    TrimAround(a, s, b);
    assert s[..at] == "" + stack + gap[..|gap| - 1] && s[at..] == gap[|gap| - 1..] + d + "";
    TrimAround("", stack, gap[..|gap| - 1]);
    TrimAround(gap[|gap| - 1..], d, "");
  }

  lemma ColumnsSplit(stack: string, gap: string, d: string)
    requires Blank(gap) && gap != "" && Trimmed(stack)
    requires d != "" && forall i :: 0 <= i < |d| ==> !IsWhitespace(d[i])
    ensures var s := stack + gap + d; Trimmed(s) && s[0] == stack[0] && LastSpace(s) == Some(|stack| + |gap| - 1)
  {
    hide IsWhitespace;
    hide LastSpace;
    var s, at := stack + gap + d, |stack| + |gap| - 1;
    assert s[at] == gap[|gap| - 1] && s[|s| - 1] == d[|d| - 1];
    forall i | at < i < |s|
      ensures !IsWhitespace(s[i])
    {
      assert s[i] == d[i - |stack| - |gap|];
    }
  }

  /** The value column: a finite number that is not negative, rounded to the nearest whole number, ties upward; one
      that rounds to more than 2^63 is refused, and 2^63 itself becomes the largest i64. */
  lemma ValueReads(text: string, float: FloatParser)
    ensures ParsedValue(text, float).Ok? <==>
            float(text).Finite? && 0.0 <= float(text).value < 9_223_372_036_854_775_808.5
    ensures ParsedValue(text, float).Ok? ==>
              var n, v := ParsedValue(text, float).value, float(text).value;
              0 <= n <= 9_223_372_036_854_775_807 && n as real - 0.5 <= v
              && (v < n as real + 0.5 || n == 9_223_372_036_854_775_807)
  {}

  /** The lines of a text: joined again they are the text, with or without a last line's end. */
  lemma LinesAre(text: string)
    ensures var lines := Lines(text);
            Join(lines + [""], '\n') == text || (lines != [] && lines[|lines| - 1] != "" && Join(lines, '\n') == text)
    ensures forall k :: 0 <= k < |Lines(text)| ==> Free(Lines(text)[k], '\n')
  {
    hide Split;
    hide Join;
    var pieces := Split(text, '\n');
    JoinSplit(text, '\n');
    LinesAreFree(text);
    assert pieces == pieces[..|pieces| - 1] + [pieces[|pieces| - 1]];
  }

  lemma {:induction false} RenderAdd(a: seq<string>, b: seq<string>, m: map<string, int>)
    requires forall k :: k in a + b ==> k in m
    ensures (forall k :: k in a ==> k in m) && (forall k :: k in b ==> k in m)
    ensures Render(a + b, m) == Render(a, m) + Render(b, m)
  {
    hide LineOf;
    assert (forall k :: k in a ==> k in a + b) && forall k :: k in b ==> k in a + b;
    if b == [] {
      assert a + b == a;
    } else {
      var init, k := b[..|b| - 1], b[|b| - 1];
      assert (a + b)[..|a + b| - 1] == a + init && k in b;
      RenderAdd(a, init, m);
      var line := LineOf(k, m[k]);
      assert Render(a, m) + Render(init, m) + line + "\n" == Render(a, m) + (Render(init, m) + line + "\n");
    }
  }

  // ----------------------------------------------------- the text tells the sums

  lemma LineTells(k: string, v: int, l: string, w: int)
    requires v >= 1 && w >= 1 && LineOf(k, v) == LineOf(l, w)
    ensures k == l && v == w
  {
    hide Decimal;
    DigitsAreNotSpace(v);
    DigitsAreNotSpace(w);
    var d, e := Decimal(v), Decimal(w);
    var line := k + " " + d;
    assert line == l + " " + e;
    assert line[|k|] == ' ' && line[|l|] == ' ' && IsWhitespace(' ');
    forall i | |k| < i < |line|
      ensures !IsWhitespace(line[i])
    {
      assert line[i] == d[i - |k| - 1];
    }
    forall i | |l| < i < |line|
      ensures !IsWhitespace(line[i])
    {
      assert line[i] == e[i - |l| - 1];
    }
    assert k == line[..|k|] && l == line[..|l|];
    assert d == line[|k| + 1..] && e == (l + " " + e)[|l| + 1..];
    DecimalInjective(v, w);
  }

  lemma {:induction false} LinesTell(ks: seq<string>, m: map<string, int>, ls: seq<string>, n: map<string, int>)
    requires (forall k :: k in ks ==> k in m) && (forall l :: l in ls ==> l in n) && PlainMap(m) && PlainMap(n)
    requires AllLines(ks, m) == AllLines(ls, n)
    ensures ks == ls && forall k :: k in ks ==> m[k] == n[k]
  {
    hide LineOf;
    hide Free;
    var a, b := AllLines(ks, m), AllLines(ls, n);
    if ks != [] && ls != [] {
      assert ks[|ks| - 1] in ks && ls[|ls| - 1] in ls;
      assert a[|a| - 1] == b[|b| - 1] && a[..|a| - 1] == b[..|b| - 1];
      LineTells(ks[|ks| - 1], m[ks[|ks| - 1]], ls[|ls| - 1], n[ls[|ls| - 1]]);
      LinesTell(ks[..|ks| - 1], m, ls[..|ls| - 1], n);
      assert ks == ks[..|ks| - 1] + [ks[|ks| - 1]] && ls == ls[..|ls| - 1] + [ls[|ls| - 1]];
    }
  }

  /** Different sums are written differently. */
  lemma RenderTells(text: string, m: map<string, int>, n: map<string, int>)
    requires Renders(text, m) && Renders(text, n) && PlainMap(m) && PlainMap(n)
    ensures m == n
  {
    hide Ascending;
    hide Lines;
    hide PlainMap;
    var ks :| Lists(ks, m) && text == Render(ks, m);
    var ls :| Lists(ls, n) && text == Render(ls, n);
    LinesOfRender(ks, m);
    LinesOfRender(ls, n);
    LinesTell(ks, m, ls, n);
    assert forall k :: k in m <==> k in n;
  }

  // ---------------------------------------------------------------- the round trip

  /** Export, import, export again. The second text is the first exactly when every exported stack survives as text and
      every sum reads back as itself. When the stacks survive, the import fails exactly on a sum that does not read back
      at all, holds one sample per distinct stack with the sum as it reads back, and exports as those sums. */
  ghost predicate FoldedTrip(p: P.Profile, idx: nat, float: FloatParser, first: string,
                             imported: Result<P.Profile, string>, second: Result<string, string>)
  {
    var m := FoldedMap(p, idx, p.samples);
    && Renders(first, m)
    && (imported.Ok? && second == Ok(first) <==> AllSurvive(p, idx, p.samples) && ValuesSurvive(m, float))
    && (AllSurvive(p, idx, p.samples) ==>
          (imported.Ok? <==> AllRead(m, float))
          && (imported.Ok? ==> TripSums(imported.value, second, Reread(m, float))))
  }

  ghost predicate TripSums(p: P.Profile, second: Result<string, string>, sums: map<string, int>) {
    OnePerStack(p, sums) && second.Ok? && Renders(second.value, sums)
  }

  lemma SumsKept(p: P.Profile, idx: nat, float: FloatParser, first: string, imported: P.Profile, second: string)
    requires AllSurvive(p, idx, p.samples) && Renders(first, FoldedMap(p, idx, p.samples))
    requires ParsedLines(Lines(first), float).Ok? && Imports(imported, ParsedLines(Lines(first), float).value)
    requires Renders(second, FoldedMap(imported, 1, imported.samples))
    ensures AllRead(FoldedMap(p, idx, p.samples), float)
    ensures FoldedMap(imported, 1, imported.samples) == Reread(FoldedMap(p, idx, p.samples), float)
    ensures TripSums(imported, Ok(second), Reread(FoldedMap(p, idx, p.samples), float))
  {
    hide AllSurvive;
    hide GoodMap;
    hide Renders;
    hide Lists;
    hide ParsedLines;
    hide Lines;
    hide FoldedMap;
    hide Reread;
    hide AllRead;
    hide Imports;
    var m := FoldedMap(p, idx, p.samples);
    FoldedMapGood(p, idx, p.samples);
    var keys := ImportMeans(first, m, float);
    RereadGood(m, float);
    FixedPoint(imported, keys, Reread(m, float));
    assert OnePerStack(imported, Reread(m, float));
  }

  lemma TripHolds(p: P.Profile, idx: nat, float: FloatParser, first: string, imported: P.Profile, second: string)
    requires Renders(first, FoldedMap(p, idx, p.samples))
    requires ParsedLines(Lines(first), float).Ok? && Imports(imported, ParsedLines(Lines(first), float).value)
    requires Renders(second, FoldedMap(imported, 1, imported.samples))
    ensures FoldedTrip(p, idx, float, first, Ok(imported), Ok(second))
  {
    hide AllSurvive;
    hide GoodMap;
    hide Renders;
    hide ParsedLines;
    hide Lines;
    hide FoldedMap;
    hide Reread;
    hide AllRead;
    hide ValuesSurvive;
    hide Imports;
    hide PlainMap;
    hide TripSums;
    var m, n := FoldedMap(p, idx, p.samples), FoldedMap(imported, 1, imported.samples);
    FoldedMapPlain(p, idx, p.samples);
    FoldedMapPlain(imported, 1, imported.samples);
    RereadSame(m, float);
    if AllSurvive(p, idx, p.samples) {
      SumsKept(p, idx, float, first, imported, second);
      if ValuesSurvive(m, float) {
        RenderUnique(first, second, m);
      }
    }
    if second == first {
      RenderTells(first, m, n);
      ImportsSurvive(first, float, imported);
      FoldedMapGood(imported, 1, imported.samples);
      KeysTell(p, idx, p.samples);
    }
  }

  lemma TripFails(p: P.Profile, idx: nat, float: FloatParser, first: string, error: string)
    requires Renders(first, FoldedMap(p, idx, p.samples)) && ParsedLines(Lines(first), float).Err?
    ensures FoldedTrip(p, idx, float, first, Err(error), Err(error))
  {
    hide GoodMap;
    hide Renders;
    hide ParsedLines;
    hide Lines;
    hide FoldedMap;
    hide ReadBack;
    hide AllSurvive;
    if AllSurvive(p, idx, p.samples) {
      FoldedMapGood(p, idx, p.samples);
      var _ := ImportMeans(first, FoldedMap(p, idx, p.samples), float);
    }
  }

  method FoldedRoundTrip(p: P.Profile, valueIndex: Option<nat>, sampleType: string, unit: string,
                         mappingFilename: string, float: FloatParser)
    returns (first: Result<string, string>, imported: Result<P.Profile, string>, second: Result<string, string>)
    ensures match P.SelectAxis(p, valueIndex, IsSpeedscopeUnit)
            case Err(_) => first.Err?
            case Ok(axis) => first.Ok? && FoldedTrip(p, axis.idx, float, first.value, imported, second)
  {
    hide FoldedTrip;
    hide Renders;
    hide ParsedLines;
    hide Lines;
    hide FoldedMap;
    hide IsSpeedscopeUnit;
    hide P.FirstTimeAxis;
    hide TypesSpell;
    hide DurationNanos;
    hide Imports;
    imported, second := Err("not imported"), Err("not imported");
    first := PprofToFolded(p, valueIndex);
    if first.Err? {
      return;
    }
    ghost var idx := P.SelectAxis(p, valueIndex, IsSpeedscopeUnit).value.idx;
    imported := FoldedToPprof(first.value, sampleType, unit, mappingFilename, float);
    if imported.Err? {
      TripFails(p, idx, float, first.value, imported.error);
      second := Err(imported.error);
      return;
    }
    second := PprofToFolded(imported.value, Some(1));
    TwoAxes(imported.value, sampleType, unit);
    TripHolds(p, idx, float, first.value, imported.value, second.value);
  }

  /** When no sum passes 2^53, the values survive: the trip succeeds exactly when the stacks survive. */
  lemma ExactTrip(p: P.Profile, idx: nat, float: FloatParser, first: string, imported: Result<P.Profile, string>,
                  second: Result<string, string>)
    requires FoldedTrip(p, idx, float, first, imported, second)
    requires ReadsWhole(float) && WithinExact(FoldedMap(p, idx, p.samples))
    ensures imported.Ok? && second == Ok(first) <==> AllSurvive(p, idx, p.samples)
  {
    hide AllSurvive;
    hide Renders;
    hide FoldedMap;
    hide TripSums;
    hide ReadsWhole;
    hide Free;
    var m := FoldedMap(p, idx, p.samples);
    FoldedMapPlain(p, idx, p.samples);
    forall k | k in m
      ensures ReadBack(m[k], float) == Ok(m[k])
    {
      WholeValue(m[k], float);
    }
  }

  lemma TwoAxes(p: P.Profile, sampleType: string, unit: string)
    requires TypesSpell(p.strings, p.sampleTypes, sampleType, unit)
    ensures P.SelectAxis(p, Some(1), IsSpeedscopeUnit).Ok? && P.SelectAxis(p, Some(1), IsSpeedscopeUnit).value.idx == 1
  {}

  /** A root that starts a comment does not survive: its line imports as nothing. */
  lemma CommentsVanish(names: seq<string>, v: nat, float: FloatParser)
    requires AllTrimmed(names) && IsComment(names[0])
    ensures ParsedLine(LineOf(Join(names, ';'), v), float) == Ok(None)
  {
    hide Decimal;
    hide IsWhitespace;
    hide Join;
    var key, d := Join(names, ';'), Decimal(v);
    JoinShape(names);
    DigitsAreNotSpace(v);
    LineSplits(key, d);
    TrimmedStays(key + " " + d);
  }

  /** A profile of one sample, whose only frame is named `name`. */
  function OneFrame(name: string): P.Profile {
    P.Profile([P.ValueType(1, 2)], [P.Sample([1], [1])], [P.Location(1, 1, 0, [P.Line(1, 0, 0)])],
              [P.Function(1, 3, 3, 0, 0)], ["", "cpu", "nanoseconds", name], 0, 0)
  }

  lemma OneFrameFolds(name: string)
    requires name != "" && Free(name, ';') && Free(name, '\n')
    ensures FoldedMap(OneFrame(name), 0, OneFrame(name).samples) == map[name := 1]
    ensures Names(StackOf(OneFrame(name), [1])) == [name]
  {
    hide FrameForLocation;
    hide FoldedMap;
    hide Join;
    hide Names;
    hide StackOf;
    hide Sanitize;
    hide Free;
    var p := OneFrame(name);
    DenseFrame(p, 1);
    OneName(p, 1);
    JoinOne(name);
    FoldedStep(p, 0, p.samples);
    NothingFolded(p, 0);
    assert p.samples[..0] == [];
  }

  lemma OneName(p: P.Profile, id: nat)
    ensures Names(StackOf(p, [id])) == [Sanitize(FrameForLocation(p, id).name)]
  {
    hide FrameForLocation;
    hide Sanitize;
    assert |StackOf(p, [id])| == 1;
  }

  lemma JoinOne(name: string)
    ensures Join([name], ';') == name
  {}

  lemma OneLine(name: string, text: string)
    requires Renders(text, map[name := 1])
    ensures text == LineOf(name, 1) + "\n"
  {
    hide Less;
    hide LineOf;
    var m := map[name := 1];
    var keys :| Lists(keys, m) && text == Render(keys, m);
    AscendingUnique(keys, [name]);
    assert Render([name], m) == Render([], m) + LineOf(name, 1) + "\n";
  }

  lemma OneLost(name: string)
    requires IsComment(name) && Free(name, ';') && Free(name, '\n')
    ensures !AllSurvive(OneFrame(name), 0, OneFrame(name).samples)
  {
    hide FoldedMap;
    hide StackOf;
    hide Names;
    OneFrameFolds(name);
    assert Counted(OneFrame(name).samples[0], 0);
  }

  /** Such a run: a function whose name starts with '#' exports as a comment, and the second text is not the first. */
  lemma HashRootLost(name: string, float: FloatParser, first: string, imported: Result<P.Profile, string>,
                     second: Result<string, string>)
    requires IsComment(name) && Free(name, ';') && Free(name, '\n')
    requires FoldedTrip(OneFrame(name), 0, float, first, imported, second)
    ensures first == name + " 1\n" && !(imported.Ok? && second == Ok(first))
  {
    hide FoldedMap;
    hide AllSurvive;
    hide OneFrame;
    hide Renders;
    hide Free;
    OneFrameFolds(name);
    OneLost(name);
    OneLine(name, first);
    assert LineOf(name, 1) == name + " " + "1";
  }
}
