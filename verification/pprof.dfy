/** Decoded pprof profiles: the part every converter reads and writes. */
module Pprof {
  import opened Wrappers
  import opened Text

  datatype ValueType = ValueType(ty: int, unit: int)
  datatype Line = Line(functionId: nat, line: int, column: int)
  datatype Location = Location(id: nat, mappingId: nat, address: nat, lines: seq<Line>)
  datatype Function = Function(id: nat, name: int, systemName: int, filename: int, startLine: int)
  datatype Sample = Sample(locationIds: seq<nat>, values: seq<int>)

  datatype Profile = Profile(
    sampleTypes: seq<ValueType>,
    samples: seq<Sample>,
    locations: seq<Location>,
    functions: seq<Function>,
    strings: seq<string>,
    timeNanos: int,
    durationNanos: int)

  function StringAt(strings: seq<string>, idx: int): string {
    if 0 <= idx < |strings| then strings[idx] else ""
  }

  /** `map(|l| (l.id, l)).collect()`: later entries win. */
  function LocationMap(locations: seq<Location>): map<nat, Location> {
    if locations == [] then map[]
    else
      var l := locations[|locations| - 1];
      LocationMap(locations[..|locations| - 1])[l.id := l]
  }

  function FunctionMap(functions: seq<Function>): map<nat, Function> {
    if functions == [] then map[]
    else
      var f := functions[|functions| - 1];
      FunctionMap(functions[..|functions| - 1])[f.id := f]
  }

  /** The last entry with an id is the one looked up, and only ids of entries are known. */
  lemma {:induction false} LastLocation(xs: seq<Location>, i: nat)
    requires i < |xs| && forall j :: i < j < |xs| ==> xs[j].id != xs[i].id
    ensures xs[i].id in LocationMap(xs) && LocationMap(xs)[xs[i].id] == xs[i]
  {
    if i < |xs| - 1 {
      LastLocation(xs[..|xs| - 1], i);
    }
  }

  lemma {:induction false} KnownLocation(xs: seq<Location>, id: nat) returns (i: nat)
    requires id in LocationMap(xs)
    ensures i < |xs| && xs[i].id == id
  {
    i := |xs| - 1;
    if xs[i].id != id {
      i := KnownLocation(xs[..|xs| - 1], id);
    }
  }

  lemma {:induction false} LastFunction(xs: seq<Function>, i: nat)
    requires i < |xs| && forall j :: i < j < |xs| ==> xs[j].id != xs[i].id
    ensures xs[i].id in FunctionMap(xs) && FunctionMap(xs)[xs[i].id] == xs[i]
  {
    if i < |xs| - 1 {
      LastFunction(xs[..|xs| - 1], i);
    }
  }

  lemma {:induction false} KnownFunction(xs: seq<Function>, id: nat) returns (i: nat)
    requires id in FunctionMap(xs)
    ensures i < |xs| && xs[i].id == id
  {
    i := |xs| - 1;
    if xs[i].id != id {
      i := KnownFunction(xs[..|xs| - 1], id);
    }
  }

  /** With ids 1, 2, 3, ... in order, an id looks up its own entry. */
  lemma {:induction false} DenseLocation(locations: seq<Location>, i: nat)
    requires i < |locations| && forall k :: 0 <= k < |locations| ==> locations[k].id == k + 1
    ensures i + 1 in LocationMap(locations) && LocationMap(locations)[i + 1] == locations[i]
  {
    if i < |locations| - 1 {
      DenseLocation(locations[..|locations| - 1], i);
    }
  }

  lemma {:induction false} DenseFunction(functions: seq<Function>, i: nat)
    requires i < |functions| && forall k :: 0 <= k < |functions| ==> functions[k].id == k + 1
    ensures i + 1 in FunctionMap(functions) && FunctionMap(functions)[i + 1] == functions[i]
  {
    if i < |functions| - 1 {
      DenseFunction(functions[..|functions| - 1], i);
    }
  }

  predicate IsTimeUnit(unit: string) {
    unit == "nanoseconds" || unit == "microseconds" || unit == "milliseconds" || unit == "seconds"
  }

  datatype Axis = Axis(idx: nat, unit: string)

  /** The explicit axis, or the first cpu/wall axis whose unit is acceptable. */
  function SelectAxis(p: Profile, explicit: Option<nat>, accepts: string -> bool): Result<Axis, string> {
    if explicit.Some? then
      if explicit.value < |p.sampleTypes|
      then Ok(Axis(explicit.value, StringAt(p.strings, p.sampleTypes[explicit.value].unit)))
      else Err("value index out of range")
    else FirstTimeAxis(p, accepts, 0)
  }

  function FirstTimeAxis(p: Profile, accepts: string -> bool, i: nat): Result<Axis, string>
    decreases |p.sampleTypes| - i
  {
    if i >= |p.sampleTypes| then Err("no CPU/wall time sample_type found")
    else
      var ty, unit := StringAt(p.strings, p.sampleTypes[i].ty), StringAt(p.strings, p.sampleTypes[i].unit);
      if (ty == "cpu" || ty == "wall") && accepts(unit) then Ok(Axis(i, unit)) else FirstTimeAxis(p, accepts, i + 1)
  }

  /** A column that may be chosen by default. */
  predicate IsCandidate(p: Profile, accepts: string -> bool, i: nat)
    requires i < |p.sampleTypes|
  {
    && StringAt(p.strings, p.sampleTypes[i].ty) in {"cpu", "wall"}
    && accepts(StringAt(p.strings, p.sampleTypes[i].unit))
  }

  /** The first candidate from column `i` on. */
  lemma {:induction false} FirstTimeAxisIs(p: Profile, accepts: string -> bool, i: nat)
    ensures var r := FirstTimeAxis(p, accepts, i);
            && (r.Ok? ==> i <= r.value.idx < |p.sampleTypes| && IsCandidate(p, accepts, r.value.idx)
                          && r.value.unit == StringAt(p.strings, p.sampleTypes[r.value.idx].unit)
                          && forall j :: i <= j < r.value.idx ==> !IsCandidate(p, accepts, j))
            && (r.Err? ==> forall j :: i <= j < |p.sampleTypes| ==> !IsCandidate(p, accepts, j))
    decreases |p.sampleTypes| - i
  {
    if i < |p.sampleTypes| {
      FirstTimeAxisIs(p, accepts, i + 1);
    }
  }

  /** The default axis is the first column of cpu or wall time in an accepted unit; there is none exactly when no column
      is one. A column named explicitly is taken whatever it holds. */
  lemma SelectAxisIs(p: Profile, accepts: string -> bool, k: nat)
    ensures var r := SelectAxis(p, None, accepts);
            && (r.Ok? <==> exists i :: 0 <= i < |p.sampleTypes| && IsCandidate(p, accepts, i))
            && (r.Ok? ==> r.value.idx < |p.sampleTypes| && IsCandidate(p, accepts, r.value.idx)
                          && r.value.unit == StringAt(p.strings, p.sampleTypes[r.value.idx].unit)
                          && forall j :: 0 <= j < r.value.idx ==> !IsCandidate(p, accepts, j))
    ensures var r := SelectAxis(p, Some(k), accepts);
            && (r.Ok? <==> k < |p.sampleTypes|)
            && (r.Ok? ==> r.value == Axis(k, StringAt(p.strings, p.sampleTypes[k].unit)))
  {
    hide FirstTimeAxis;
    hide IsCandidate;
    FirstTimeAxisIs(p, accepts, 0);
  }

  function ValueAt(s: Sample, idx: nat): int {
    if idx < |s.values| then s.values[idx] else 0
  }
}
