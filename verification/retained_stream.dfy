/** Replaying a retained stream: which allocations are still live when it ends. */
module RetainedStream {
  import opened Wrappers
  import opened RecordCodec
  import opened MapSums
  import Text

  type Frames = seq<string>

  datatype LiveAlloc = LiveAlloc(frames: Frames, count: int, bytes: int)
  datatype SampleAgg = SampleAgg(count: int, bytes: int)

  predicate StartsWith(s: string, prefix: string) {
    prefix <= s
  }

  /** Allocator and hook frames, which are not the user's. */
  predicate IsInternalFrame(name: string) {
    var n := Text.TrimUnderscores(name);
    || n == "malloc" || n == "calloc" || n == "realloc"
    || StartsWith(n, "moonbit_malloc")
    || StartsWith(n, "moonbit_realloc")
    || StartsWith(n, "moonbit_make_")
    || StartsWith(n, "mi_")
    || StartsWith(n, "moon_pprof_")
    || n == "mpprof_init" || n == "mpprof_fini"
  }

  /** The frames from the first one that is not internal. */
  function UserFrames(frames: Frames): Frames {
    if frames != [] && IsInternalFrame(frames[0]) then UserFrames(frames[1..]) else frames
  }

  /** The internal frames at the leaf are dropped, and nothing else. */
  lemma {:induction false} UserFramesAre(fs: Frames) returns (k: nat)
    ensures k <= |fs| && UserFrames(fs) == fs[k..] && forall i :: 0 <= i < k ==> IsInternalFrame(fs[i])
    ensures k < |fs| ==> !IsInternalFrame(fs[k])
  {
    hide IsInternalFrame;
    if fs != [] && IsInternalFrame(fs[0]) {
      k := UserFramesAre(fs[1..]);
      assert fs[1..][k..] == fs[k + 1..];
      assert forall i :: 0 < i <= k ==> fs[i] == fs[1..][i - 1];
      k := k + 1;
    } else {
      k := 0;
    }
  }

  /** Which frames are internal: the allocator's and the hook's, behind any number of underscores. */
  lemma {:induction false} InternalIff(us: string, n: string)
    requires (forall i :: 0 <= i < |us| ==> us[i] == '_') && (n != "" ==> n[0] != '_')
    ensures IsInternalFrame(us + n) <==>
              || n in {"malloc", "calloc", "realloc", "mpprof_init", "mpprof_fini"}
              || "moonbit_malloc" <= n || "moonbit_realloc" <= n || "moonbit_make_" <= n || "mi_" <= n
              || "moon_pprof_" <= n
  {
    if us == "" {
      assert us + n == n;
    } else {
      InternalIff(us[1..], n);
      assert (us + n)[1..] == us[1..] + n;
    }
  }

  /** The size read as a signed number: the only one in range with the same bits. */
  lemma AsI64Is(n: U64)
    ensures -0x8000_0000_0000_0000 <= AsI64(n) < 0x8000_0000_0000_0000
    ensures (n - AsI64(n)) % 0x1_0000_0000_0000_0000 == 0
  {}

  /** `size as i64`. */
  function AsI64(n: U64): int {
    if n < 0x8000_0000_0000_0000 then n else n - 0x1_0000_0000_0000_0000
  }

  /** How a stream is read: the sampling scale, and what a name's bytes decode to (`<bad utf8>` included). */
  datatype Reading = Reading(scale: nat, utf8: seq<Byte> -> string)

  function Decoded(rd: Reading, names: seq<Name>): (frames: Frames)
    ensures |frames| == |names| && forall i :: 0 <= i < |names| ==> frames[i] == rd.utf8(names[i])
  {
    seq(|names|, i requires 0 <= i < |names| => rd.utf8(names[i]))
  }

  type Live = map<U64, LiveAlloc>

  function LiveEntry(rd: Reading, size: U64, names: seq<Name>): LiveAlloc {
    LiveAlloc(UserFrames(Decoded(rd, names)), rd.scale, AsI64(size) * rd.scale)
  }

  /** One record's effect on the live map. */
  function Apply(rd: Reading, live: Live, r: Record): Live {
    match r
    case Alloc(ptr, size, names) =>
      var entry := LiveEntry(rd, size, names);
      if ptr == 0 || entry.frames == [] then live else live[ptr := entry]
    case Free(ptr) => live - {ptr}
  }

  function Replay(rd: Reading, rs: seq<Record>): Live {
    if rs == [] then map[] else Apply(rd, Replay(rd, rs[..|rs| - 1]), rs[|rs| - 1])
  }

  /** A record that decides whether an address is live: its release, or an allocation there that a sample can show. */
  predicate Touches(rd: Reading, r: Record, p: U64) {
    r.ptr == p && (r.Free? || (p != 0 && LiveEntry(rd, r.size, r.frames).frames != []))
  }

  ghost predicate LastTouch(rd: Reading, rs: seq<Record>, p: U64, i: int) {
    0 <= i < |rs| && Touches(rd, rs[i], p) && forall j :: i < j < |rs| ==> !Touches(rd, rs[j], p)
  }

  /** An address is live exactly when the last record that touches it is an allocation, and as that one says. */
  lemma {:induction false} LastTouchDecides(rd: Reading, rs: seq<Record>, p: U64)
    ensures p in Replay(rd, rs) <==> exists i :: LastTouch(rd, rs, p, i) && rs[i].Alloc?
    ensures forall i :: LastTouch(rd, rs, p, i) && rs[i].Alloc? ==>
              p in Replay(rd, rs) && Replay(rd, rs)[p] == LiveEntry(rd, rs[i].size, rs[i].frames)
  {
    hide LiveEntry;
    if rs != [] {
      var init, n := rs[..|rs| - 1], |rs| - 1;
      LastTouchDecides(rd, init, p);
      if Touches(rd, rs[n], p) {
        assert LastTouch(rd, rs, p, n);
      } else {
        hide Touches;
        forall i
          ensures LastTouch(rd, rs, p, i) <==> LastTouch(rd, init, p, i)
        {}
      }
    }
  }

  /** No sample shows an empty stack, or one with an internal frame at its leaf. */
  ghost predicate UserStack(frames: Frames) {
    frames != [] && !IsInternalFrame(frames[0])
  }

  lemma EntryIsUser(rd: Reading, size: U64, names: seq<Name>)
    ensures LiveEntry(rd, size, names).frames == [] || UserStack(LiveEntry(rd, size, names).frames)
  {
    hide IsInternalFrame;
    hide UserFrames;
    var _ := UserFramesAre(Decoded(rd, names));
  }

  lemma {:induction false} LiveIsUser(rd: Reading, rs: seq<Record>)
    ensures forall p :: p in Replay(rd, rs) ==> UserStack(Replay(rd, rs)[p].frames)
  {
    hide UserStack;
    hide LiveEntry;
    if rs != [] {
      LiveIsUser(rd, rs[..|rs| - 1]);
      var r := rs[|rs| - 1];
      if r.Alloc? {
        EntryIsUser(rd, r.size, r.frames);
      }
    }
  }

  // ------------------------------------------------------------ aggregation

  function Counts(live: Live, frames: Frames): map<U64, int> {
    map p | p in live && live[p].frames == frames :: live[p].count
  }

  function Bytes(live: Live, frames: Frames): map<U64, int> {
    map p | p in live && live[p].frames == frames :: live[p].bytes
  }

  function Stacks(live: Live): set<Frames> {
    set p | p in live :: live[p].frames
  }

  ghost function SumFor(live: Live, f: Frames): SampleAgg {
    SampleAgg(Total(Counts(live, f)), Total(Bytes(live, f)))
  }

  /** One sample per distinct stack, with the summed counts and bytes of its live allocations. */
  ghost predicate Aggregates(live: Live, samples: map<Frames, SampleAgg>) {
    samples.Keys == Stacks(live) && forall f :: f in samples ==> samples[f] == SumFor(live, f)
  }

  /** Adding one allocation to its stack's sample. */
  function AddSample(samples: map<Frames, SampleAgg>, a: LiveAlloc): map<Frames, SampleAgg> {
    var entry := if a.frames in samples then samples[a.frames] else SampleAgg(0, 0);
    samples[a.frames := SampleAgg(entry.count + a.count, entry.bytes + a.bytes)]
  }

  lemma StacksStep(live: Live, p: U64, a: LiveAlloc)
    requires p !in live
    ensures Stacks(live[p := a]) == Stacks(live) + {a.frames}
  {
    var live' := live[p := a];
    assert live'[p].frames == a.frames;
    forall q | q in live
      ensures live[q].frames in Stacks(live')
    {
      assert live'[q].frames == live[q].frames;
    }
  }

  lemma SumStep(live: Live, p: U64, a: LiveAlloc, f: Frames)
    requires p !in live
    ensures SumFor(live[p := a], f) ==
            if f == a.frames then SampleAgg(SumFor(live, f).count + a.count, SumFor(live, f).bytes + a.bytes)
            else SumFor(live, f)
  {
    if f == a.frames {
      assert Counts(live[p := a], f) == Counts(live, f)[p := a.count];
      assert Bytes(live[p := a], f) == Bytes(live, f)[p := a.bytes];
      TotalInsert(Counts(live, f), p, a.count);
      TotalInsert(Bytes(live, f), p, a.bytes);
    } else {
      assert Counts(live[p := a], f) == Counts(live, f);
      assert Bytes(live[p := a], f) == Bytes(live, f);
    }
  }

  lemma SumOfNone(live: Live, f: Frames)
    requires f !in Stacks(live)
    ensures SumFor(live, f) == SampleAgg(0, 0)
  {
    forall p | p in live
      ensures live[p].frames != f
    {
      assert live[p].frames in Stacks(live);
    }
    assert Counts(live, f) == map[] && Bytes(live, f) == map[];
  }

  lemma AggregateStep(live: Live, samples: map<Frames, SampleAgg>, p: U64, a: LiveAlloc)
    requires Aggregates(live, samples) && p !in live
    ensures Aggregates(live[p := a], AddSample(samples, a))
  {
    StacksStep(live, p, a);
    if a.frames !in samples {
      SumOfNone(live, a.frames);
    }
    hide SumFor;
    hide Stacks;
    forall f | f in AddSample(samples, a)
      ensures AddSample(samples, a)[f] == SumFor(live[p := a], f)
    {
      SumStep(live, p, a, f);
    }
  }

  function AllBytes(live: Live): map<U64, int> {
    map p | p in live :: live[p].bytes
  }

  function SampleBytes(samples: map<Frames, SampleAgg>): map<Frames, int> {
    map f | f in samples :: samples[f].bytes
  }

  /** Samples are determined by the live map. */
  lemma AggregatesUnique(live: Live, s: map<Frames, SampleAgg>, s': map<Frames, SampleAgg>)
    requires Aggregates(live, s) && Aggregates(live, s')
    ensures s == s'
  {
    assert s.Keys == s'.Keys;
  }

  lemma BytesStep(samples: map<Frames, SampleAgg>, live: Live, p: U64, a: LiveAlloc)
    requires p !in live
    ensures Total(SampleBytes(AddSample(samples, a))) == Total(SampleBytes(samples)) + a.bytes
    ensures Total(AllBytes(live[p := a])) == Total(AllBytes(live)) + a.bytes
  {
    assert SampleBytes(AddSample(samples, a)) == AddAt(SampleBytes(samples), a.frames, a.bytes);
    TotalAddAt(SampleBytes(samples), a.frames, a.bytes);
    assert AllBytes(live[p := a]) == AllBytes(live)[p := a.bytes];
    TotalInsert(AllBytes(live), p, a.bytes);
  }

  ghost function Aggregate(live: Live): map<Frames, SampleAgg> {
    map f | f in Stacks(live) :: SumFor(live, f)
  }

  /** Grouping by stack conserves bytes. */
  lemma {:induction false} AggregationConserves(live: Live, samples: map<Frames, SampleAgg>)
    requires Aggregates(live, samples)
    ensures Total(SampleBytes(samples)) == Total(AllBytes(live))
    decreases |live|
  {
    AggregatesUnique(live, samples, Aggregate(live));
    if live == map[] {
      assert Stacks(live) == {};
      assert SampleBytes(samples) == map[];
    } else {
      var p :| p in live;
      var rest, a := live - {p}, live[p];
      assert live == rest[p := a];
      AggregationConserves(rest, Aggregate(rest));
      AggregateStep(rest, Aggregate(rest), p, a);
      AggregatesUnique(live, samples, AddSample(Aggregate(rest), a));
      BytesStep(Aggregate(rest), rest, p, a);
    }
  }

  // ------------------------------------------------------- the cursor parser

  function PrependNames(names: seq<Name>, r: Parsed<seq<Name>>): Parsed<seq<Name>> {
    if r.Parsed? then Parsed(names + r.value, r.rest) else r
  }

  function PrependRecords(done: seq<Record>, r: Result<seq<Record>, seq<Byte>>): Result<seq<Record>, seq<Byte>> {
    if r.Ok? then Ok(done + r.value) else r
  }

  lemma PrependNothing(r: Parsed<seq<Name>>)
    ensures PrependNames([], r) == r
  {
    if r.Parsed? {
      assert [] + r.value == r.value;
    }
  }

  lemma PrependMore(names: seq<Name>, name: Name, r: Parsed<seq<Name>>)
    ensures PrependNames(names, PrependNames([name], r)) == PrependNames(names + [name], r)
  {
    if r.Parsed? {
      assert names + ([name] + r.value) == names + [name] + r.value;
    }
  }

  /** One name at the cursor. */
  lemma FrameAt(buf: seq<Byte>, p: nat, n: nat)
    requires p <= |buf| && n > 0
    ensures var r := ParseFrames(buf[p..], n);
            if p + 2 > |buf| then r == Torn
            else
              var len := FromLittleEndian(buf[p..p + 2]);
              if p + 2 + len > |buf| then r == Torn
              else r == PrependNames([buf[p + 2..p + 2 + len]], ParseFrames(buf[p + 2 + len..], n - 1))
  {
    var s := buf[p..];
    if p + 2 <= |buf| {
      assert s[..2] == buf[p..p + 2];
      var len := FromLittleEndian(s[..2]);
      if p + 2 + len <= |buf| {
        assert s[2..2 + len] == buf[p + 2..p + 2 + len] && s[2 + len..] == buf[p + 2 + len..];
      }
    }
  }

  /** The frame loop: a cursor over length-prefixed names. */
  method ParseFrameNames(buf: seq<Byte>, start: nat, n: nat, rd: Reading)
    returns (frames: Frames, p: nat, ok: bool, ghost names: seq<Name>)
    requires start <= |buf|
    ensures start <= p <= |buf|
    ensures ok ==> ParseFrames(buf[start..], n) == Parsed(names, buf[p..]) && frames == Decoded(rd, names)
    ensures !ok ==> ParseFrames(buf[start..], n) == Torn
  {
    frames, p, ok, names := [], start, true, [];
    PrependNothing(ParseFrames(buf[start..], n));
    for i := 0 to n
      invariant start <= p <= |buf| && frames == Decoded(rd, names)
      invariant ParseFrames(buf[start..], n) == PrependNames(names, ParseFrames(buf[p..], n - i))
    {
      FrameAt(buf, p, n - i);
      if p + 2 > |buf| {
        ok := false;
        return;
      }
      var nameLen := FromLittleEndian(buf[p..p + 2]);
      p := p + 2;
      if p + nameLen > |buf| {
        ok := false;
        return;
      }
      var name := buf[p..p + nameLen];
      p := p + nameLen;
      frames := frames + [rd.utf8(name)];
      PrependMore(names, name, ParseFrames(buf[p..], n - i - 1));
      names := names + [name];
    }
    assert names + [] == names;
  }

  lemma PrependRecord(done: seq<Record>, r: Record, rest: Result<seq<Record>, seq<Byte>>)
    ensures PrependRecords(done, PrependRecords([r], rest)) == PrependRecords(done + [r], rest)
  {
    if rest.Ok? {
      assert done + ([r] + rest.value) == done + [r] + rest.value;
    }
  }

  lemma ReplaySnoc(rd: Reading, done: seq<Record>, r: Record)
    ensures Replay(rd, done + [r]) == Apply(rd, Replay(rd, done), r)
  {
    assert (done + [r])[..|done|] == done;
  }

  /** The record at the cursor, in the parser's own terms. */
  lemma RecordAt(buf: seq<Byte>, p: nat)
    requires p < |buf|
    ensures var r, all := ParseRecord(buf[p..]), ParseAll(buf[p..]);
            if buf[p] == TAG_ALLOC then
              if p + 18 > |buf| then all == Ok([])
              else
                match ParseFrames(buf[p + 18..], buf[p + 17])
                case Parsed(fs, rest) =>
                  all == PrependRecords([Alloc(ParseU64(buf[p + 1..p + 9]), ParseU64(buf[p + 9..p + 17]), fs)],
                                        ParseAll(rest))
                case other => all == Ok([])
            else if buf[p] == TAG_FREE then
              if p + 9 > |buf| then all == Ok([])
              else all == PrependRecords([Free(ParseU64(buf[p + 1..p + 9]))], ParseAll(buf[p + 9..]))
            else all == Err(buf[p..])
  {
    hide ParseU64;
    var s := buf[p..];
    if p + 9 <= |buf| {
      assert s[1..9] == buf[p + 1..p + 9] && s[9..] == buf[p + 9..];
    }
    if p + 18 <= |buf| {
      assert s[9..17] == buf[p + 9..p + 17] && s[18..] == buf[p + 18..];
      ParseFramesSuffix(s[18..], s[17]);
    }
  }

  datatype BadTag = BadTag(tag: Byte, offset: nat)

  /** What parsing a stream gives. It fails only on a byte that is no tag, and says where; otherwise it is the aggregate
      of the map that replaying every whole record leaves, a torn last record being dropped. */
  ghost predicate ParsedTo(buf: seq<Byte>, rd: Reading, r: Result<map<Frames, SampleAgg>, BadTag>) {
    match ParseAll(buf)
    case Ok(rs) => r.Ok? && Aggregates(Replay(rd, rs), r.value)
    case Err(bad) =>
      r.Err? && r.error.offset < |buf| && r.error.tag == buf[r.error.offset] && buf[r.error.offset..] == bad
  }

  lemma ParsedStacksAreUser(buf: seq<Byte>, rd: Reading, r: Result<map<Frames, SampleAgg>, BadTag>)
    requires ParsedTo(buf, rd, r) && r.Ok?
    ensures forall f :: f in r.value ==> UserStack(f)
  {
    hide UserStack;
    hide ParseAll;
    hide Replay;
    LiveIsUser(rd, ParseAll(buf).value);
  }

  /** The cursor parser. */
  method ParseRetainedRawStream(buf: seq<Byte>, sampleRate: nat, utf8: seq<Byte> -> string)
    returns (r: Result<map<Frames, SampleAgg>, BadTag>)
    ensures ParsedTo(buf, Reading(if sampleRate > 1 then sampleRate else 1, utf8), r)
  {
    hide ParseAll;
    hide ParseU64;
    hide ParseFrames;
    hide Replay;
    var rd := Reading(if sampleRate > 1 then sampleRate else 1, utf8);
    var live: Live := map[];
    var p := 0;
    ghost var done: seq<Record> := [];
    StartOfStream(rd, buf);
    while p < |buf|
      invariant p <= |buf| && live == Replay(rd, done)
      invariant ParseAll(buf) == PrependRecords(done, ParseAll(buf[p..]))
    {
      RecordAt(buf, p);
      var tag := buf[p];
      p := p + 1;
      if tag == TAG_ALLOC {
        if p + 17 > |buf| {
          break;
        }
        var ptr := ParseU64(buf[p..p + 8]);
        p := p + 8;
        var size := ParseU64(buf[p..p + 8]);
        p := p + 8;
        var nframes := buf[p];
        p := p + 1;
        var frames, next, ok, names := ParseFrameNames(buf, p, nframes, rd);
        if !ok {
          break;
        }
        p := next;
        ghost var record := Alloc(ptr, size, names);
        PrependRecord(done, record, ParseAll(buf[p..]));
        ReplaySnoc(rd, done, record);
        done := done + [record];
        if ptr == 0 {
          continue;
        }
        var userFrames := UserFrames(frames);
        if userFrames == [] {
          continue;
        }
        live := live[ptr := LiveAlloc(userFrames, rd.scale, AsI64(size) * rd.scale)];
      } else if tag == TAG_FREE {
        if p + 8 > |buf| {
          break;
        }
        var ptr := ParseU64(buf[p..p + 8]);
        p := p + 8;
        PrependRecord(done, Free(ptr), ParseAll(buf[p..]));
        ReplaySnoc(rd, done, Free(ptr));
        done := done + [Free(ptr)];
        live := live - {ptr};
      } else {
        return Err(BadTag(tag, p - 1));
      }
    }
    EndOfStream(buf, done, p);
    var samples := AggregateLive(live);
    return Ok(samples);
  }

  lemma StartOfStream(rd: Reading, buf: seq<Byte>)
    ensures Replay(rd, []) == map[] && buf[0..] == buf && ParseAll(buf) == PrependRecords([], ParseAll(buf[0..]))
  {
    assert buf[0..] == buf;
    if ParseAll(buf).Ok? {
      assert [] + ParseAll(buf).value == ParseAll(buf).value;
    }
  }

  lemma EndOfStream(buf: seq<Byte>, done: seq<Record>, p: nat)
    requires ParseAll(buf) == PrependRecords(done, Ok([]))
             || (p == |buf| && ParseAll(buf) == PrependRecords(done, ParseAll(buf[p..])))
    ensures ParseAll(buf) == Ok(done)
  {
    assert done + [] == done;
  }

  /** The final loop over the live allocations, in whatever order the hash map yields them. */
  method AggregateLive(live: Live) returns (samples: map<Frames, SampleAgg>)
    ensures Aggregates(live, samples)
  {
    samples := map[];
    var rest := live.Keys;
    assert live - live.Keys == map[] && Stacks(map[]) == {};
    assert Aggregates(live - rest, samples);
    hide Aggregates;
    hide AddSample;
    while rest != {}
      invariant rest <= live.Keys && Aggregates(live - rest, samples)
      decreases |rest|
    {
      var ptr :| ptr in rest;
      AggregateStep(live - rest, samples, ptr, live[ptr]);
      SeenOne(live, rest, ptr);
      samples := AddSample(samples, live[ptr]);
      rest := rest - {ptr};
    }
    assert live - {} == live;
  }

  lemma SeenOne(live: Live, rest: set<U64>, p: U64)
    requires p in rest && p in live
    ensures live - (rest - {p}) == (live - rest)[p := live[p]]
  {}
}
