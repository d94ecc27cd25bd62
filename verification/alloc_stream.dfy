/** The stream of allocation mode: untagged records, one per sampled
    allocation, grouped by stack and scaled by the sampling rate. */
module AllocStream {
  import opened RecordCodec
  import opened RetainedStream
  import opened MapSums

  datatype Sized = Sized(size: U64, frames: seq<Name>)

  predicate Fits(r: Sized) {
    |r.frames| < 256 && forall f :: f in r.frames ==> |f| < 0x1_0000
  }

  predicate AllFit(rs: seq<Sized>) {
    forall r :: r in rs ==> Fits(r)
  }

  function EncodeSized(r: Sized): (bs: seq<Byte>)
    requires Fits(r)
    ensures |bs| >= 9
  {
    LittleEndian(r.size, 8) + [|r.frames|] + EncodeFrames(r.frames)
  }

  function EncodeSizedAll(rs: seq<Sized>): seq<Byte>
    requires AllFit(rs)
  {
    if rs == [] then [] else EncodeSized(rs[0]) + EncodeSizedAll(rs[1..])
  }

  function ParseSized(s: seq<Byte>): Parsed<Sized> {
    if |s| < 9 then Torn
    else
      match ParseFrames(s[9..], s[8])
      case Parsed(fs, rest) => Parsed(Sized(ParseU64(s[..8]), fs), rest)
      case other => Torn
  }

  /** All whole records of a stream; a torn tail is dropped. */
  function ParseSizedAll(s: seq<Byte>): seq<Sized>
    decreases |s|
  {
    var p := ParseSized(s);
    if !p.Parsed? then []
    else
      assert |p.rest| < |s| by { ParseFramesSuffix(s[9..], s[8]); }
      [p.value] + ParseSizedAll(p.rest)
  }

  lemma SizedFields(size: seq<Byte>, n: Byte, frames: seq<Byte>, tail: seq<Byte>)
    requires |size| == 8
    ensures var s := size + [n] + frames + tail;
            |s| >= 9 && s[..8] == size && s[8] == n && s[9..] == frames + tail
  {}

  lemma SizedWhole(r: Sized, tail: seq<Byte>)
    requires Fits(r)
    ensures ParseSized(EncodeSized(r) + tail) == Parsed(r, tail)
  {
    Pow256Values();
    LittleEndianRoundTrip(r.size, 8);
    hide LittleEndian;
    hide FromLittleEndian;
    FramesWhole(r.frames, tail);
    SizedFields(LittleEndian(r.size, 8), |r.frames|, EncodeFrames(r.frames), tail);
    hide EncodeFrames;
    hide ParseFrames;
    assert ParseSized(EncodeSized(r) + tail).Parsed?;
  }

  lemma SizedTorn(r: Sized, k: nat)
    requires Fits(r) && k < |EncodeSized(r)|
    ensures ParseSized(EncodeSized(r)[..k]) == Torn
  {
    hide LittleEndian;
    var s := EncodeSized(r)[..k];
    if k >= 9 {
      var frames := EncodeFrames(r.frames);
      SizedFields(LittleEndian(r.size, 8), |r.frames|, frames, []);
      assert EncodeSized(r) == LittleEndian(r.size, 8) + [|r.frames|] + frames + [];
      assert s[9..] == frames[..k - 9];
      FramesTorn(r.frames, k - 9);
    }
  }

  /** The records that lie wholly inside the first `k` bytes. */
  function SizedInside(rs: seq<Sized>, k: nat): seq<Sized>
    requires AllFit(rs)
  {
    if rs == [] || |EncodeSized(rs[0])| > k then [] else [rs[0]] + SizedInside(rs[1..], k - |EncodeSized(rs[0])|)
  }

  /** Parsing any byte prefix of the stream returns exactly the records wholly inside it; there is no error to make. */
  lemma {:induction false} SizedPrefix(rs: seq<Sized>, k: nat)
    requires AllFit(rs) && k <= |EncodeSizedAll(rs)|
    ensures ParseSizedAll(EncodeSizedAll(rs)[..k]) == SizedInside(rs, k)
  {
    hide EncodeSized;
    hide Fits;
    if rs != [] {
      var head, rest := EncodeSized(rs[0]), EncodeSizedAll(rs[1..]);
      var s := EncodeSizedAll(rs)[..k];
      if k < |head| {
        assert s == head[..k];
        SizedTorn(rs[0], k);
      } else {
        assert s == head + rest[..k - |head|];
        SizedWhole(rs[0], rest[..k - |head|]);
        SizedPrefix(rs[1..], k - |head|);
      }
    }
  }

  /** `__moon_pprof_alloc_hook`: the record of allocation mode, in an 8192-byte buffer. */
  method BuildSizedRecord(buf: array<Byte>, size: U64, names: seq<Name>) returns (pos: nat, kept: nat)
    requires buf.Length == BUFFER_SIZE && |names| <= MAX_FRAMES
    modifies buf
    ensures pos <= BUFFER_SIZE && kept <= |names| && kept >= (if |names| < 32 then |names| else 32)
    ensures Fits(Sized(size, Capped(names[..kept])))
    ensures buf[..pos] == EncodeSized(Sized(size, Capped(names[..kept])))
  {
    hide LittleEndian;
    hide EncodeFrames;
    hide Capped;
    pos := Memcpy(buf, 0, LittleEndian(size, 8));
    var nframesPos := pos;
    pos := pos + 1;
    ghost var header := buf[..8];
    assert header == LittleEndian(size, 8);
    pos, kept := AppendFrames(buf, pos, names);
    ghost var framed := buf[..pos];
    assert framed[9..] == EncodeFrames(Capped(names[..kept])) && framed[..8] == header;
    buf[nframesPos] := kept;
    assert buf[..pos] == header + [kept] + framed[9..];
  }

  // ------------------------------------------------------------- aggregation

  /** One sample per distinct stack of user frames, over the records so far. */
  function SamplesFrom(rd: Reading, rs: seq<Sized>): map<Frames, SampleAgg> {
    if rs == [] then map[]
    else
      var before, r := SamplesFrom(rd, rs[..|rs| - 1]), rs[|rs| - 1];
      var entry := LiveEntry(rd, r.size, r.frames);
      if entry.frames == [] then before else AddSample(before, entry)
  }

  lemma SamplesSnoc(rd: Reading, rs: seq<Sized>, r: Sized)
    ensures SamplesFrom(rd, rs + [r]) ==
            var entry := LiveEntry(rd, r.size, r.frames);
            if entry.frames == [] then SamplesFrom(rd, rs) else AddSample(SamplesFrom(rd, rs), entry)
  {
    assert (rs + [r])[..|rs|] == rs;
  }

  /** How many records show a stack, and their bytes. */
  function CountOn(rd: Reading, rs: seq<Sized>, f: Frames): nat {
    if rs == [] then 0
    else CountOn(rd, rs[1..], f) + if LiveEntry(rd, rs[0].size, rs[0].frames).frames == f then 1 else 0
  }

  function BytesOn(rd: Reading, rs: seq<Sized>, f: Frames): int {
    if rs == [] then 0
    else BytesOn(rd, rs[1..], f) + if LiveEntry(rd, rs[0].size, rs[0].frames).frames == f then AsI64(rs[0].size) else 0
  }

  lemma {:induction false} OnSnoc(rd: Reading, rs: seq<Sized>, r: Sized, f: Frames)
    ensures var shows := LiveEntry(rd, r.size, r.frames).frames == f;
            && CountOn(rd, rs + [r], f) == CountOn(rd, rs, f) + (if shows then 1 else 0)
            && BytesOn(rd, rs + [r], f) == BytesOn(rd, rs, f) + if shows then AsI64(r.size) else 0
  {
    hide LiveEntry;
    hide AsI64;
    if rs == [] {
      assert rs + [r] == [r] && [r][1..] == [];
    } else {
      OnSnoc(rd, rs[1..], r, f);
      assert (rs + [r])[1..] == rs[1..] + [r];
    }
  }

  /** Stack by stack: there is a sample exactly for the stacks of user frames that some record shows, with the count and
      the bytes of those records, times the rate. */
  lemma {:induction false} SamplesByStack(rd: Reading, rs: seq<Sized>, f: Frames)
    ensures f in SamplesFrom(rd, rs) <==> f != [] && CountOn(rd, rs, f) > 0
    ensures f in SamplesFrom(rd, rs) ==>
              SamplesFrom(rd, rs)[f] == SampleAgg(rd.scale * CountOn(rd, rs, f), rd.scale * BytesOn(rd, rs, f))
    ensures f in SamplesFrom(rd, rs) ==> UserStack(f)
  {
    hide UserFrames;
    hide AsI64;
    hide UserStack;
    if rs != [] {
      var init, r := rs[..|rs| - 1], rs[|rs| - 1];
      SamplesByStack(rd, init, f);
      OnSnoc(rd, init, r, f);
      assert rs == init + [r];
      EntryIsUser(rd, r.size, r.frames);
      Scaled(rd.scale, BytesOn(rd, init, f), AsI64(r.size));
      Scaled(rd.scale, CountOn(rd, init, f), 0);
      NoneShown(rd, init, f);
    }
  }

  lemma {:induction false} NoneShown(rd: Reading, rs: seq<Sized>, f: Frames)
    ensures CountOn(rd, rs, f) == 0 ==> BytesOn(rd, rs, f) == 0
  {
    hide LiveEntry;
    if rs != [] {
      NoneShown(rd, rs[1..], f);
    }
  }

  /** The records with a user frame, and their bytes. */
  function Visible(rd: Reading, rs: seq<Sized>): nat {
    if rs == [] then 0
    else
      var r := rs[|rs| - 1];
      Visible(rd, rs[..|rs| - 1]) + if LiveEntry(rd, r.size, r.frames).frames == [] then 0 else 1
  }

  function VisibleBytes(rd: Reading, rs: seq<Sized>): int {
    if rs == [] then 0
    else
      VisibleBytes(rd, rs[..|rs| - 1]) +
      if LiveEntry(rd, rs[|rs| - 1].size, rs[|rs| - 1].frames).frames == [] then 0 else AsI64(rs[|rs| - 1].size)
  }

  function SampleCounts(samples: map<Frames, SampleAgg>): map<Frames, int> {
    map f | f in samples :: samples[f].count
  }

  lemma AddSampleTotals(samples: map<Frames, SampleAgg>, a: LiveAlloc)
    ensures Total(SampleCounts(AddSample(samples, a))) == Total(SampleCounts(samples)) + a.count
    ensures Total(SampleBytes(AddSample(samples, a))) == Total(SampleBytes(samples)) + a.bytes
  {
    TotalAddAt(SampleCounts(samples), a.frames, a.count);
    TotalAddAt(SampleBytes(samples), a.frames, a.bytes);
    hide Total;
    assert SampleCounts(AddSample(samples, a)) == AddAt(SampleCounts(samples), a.frames, a.count);
    assert SampleBytes(AddSample(samples, a)) == AddAt(SampleBytes(samples), a.frames, a.bytes);
  }

  lemma Scaled(scale: nat, a: int, b: int)
    ensures scale * (a + b) == scale * a + b * scale && scale * (a + 1) == scale * a + scale
            && scale * (a + 0) == scale * a
  {}

  /** Conservation: the samples' counts and bytes are those of the visible records, times the rate. */
  lemma {:induction false} SamplesConserve(rd: Reading, rs: seq<Sized>)
    ensures Total(SampleCounts(SamplesFrom(rd, rs))) == rd.scale * Visible(rd, rs)
    ensures Total(SampleBytes(SamplesFrom(rd, rs))) == rd.scale * VisibleBytes(rd, rs)
  {
    if rs == [] {
      assert SampleCounts(map[]) == map[] && SampleBytes(map[]) == map[];
    } else {
      hide Total;
      hide AddSample;
      hide AsI64;
      hide UserFrames;
      var init, r := rs[..|rs| - 1], rs[|rs| - 1];
      SamplesConserve(rd, init);
      var entry := LiveEntry(rd, r.size, r.frames);
      Scaled(rd.scale, VisibleBytes(rd, init), AsI64(r.size));
      Scaled(rd.scale, Visible(rd, init), 0);
      if entry.frames != [] {
        AddSampleTotals(SamplesFrom(rd, init), entry);
      }
    }
  }

  // ------------------------------------------------------- the cursor parser

  lemma SizedAt(buf: seq<Byte>, p: nat)
    requires p <= |buf|
    ensures if p + 9 > |buf| then ParseSizedAll(buf[p..]) == []
            else
              match ParseFrames(buf[p + 9..], buf[p + 8])
              case Parsed(fs, rest) =>
                ParseSizedAll(buf[p..]) == [Sized(ParseU64(buf[p..p + 8]), fs)] + ParseSizedAll(rest)
              case other => ParseSizedAll(buf[p..]) == []
  {
    hide ParseU64;
    var s := buf[p..];
    if p + 9 <= |buf| {
      assert s[..8] == buf[p..p + 8] && s[9..] == buf[p + 9..] && s[8] == buf[p + 8];
      ParseFramesSuffix(s[9..], s[8]);
    }
  }

  /** `parse_raw_stream`: never an error; the samples of every whole record. */
  method ParseRawStream(buf: seq<Byte>, sampleRate: nat, utf8: seq<Byte> -> string)
    returns (samples: map<Frames, SampleAgg>)
    ensures samples == SamplesFrom(Reading(if sampleRate > 1 then sampleRate else 1, utf8), ParseSizedAll(buf))
  {
    hide ParseSizedAll;
    hide ParseU64;
    hide ParseFrames;
    hide SamplesFrom;
    hide UserFrames;
    var rd := Reading(if sampleRate > 1 then sampleRate else 1, utf8);
    samples := map[];
    var p := 0;
    ghost var done: seq<Sized> := [];
    NothingSampled(rd, buf);
    while p + 9 <= |buf|
      invariant p <= |buf| && samples == SamplesFrom(rd, done)
      invariant ParseSizedAll(buf) == done + ParseSizedAll(buf[p..])
    {
      SizedAt(buf, p);
      var size := ParseU64(buf[p..p + 8]);
      var nframes := buf[p + 8];
      var frames, next, ok, names := ParseFrameNames(buf, p + 9, nframes, rd);
      if !ok {
        assert done + [] == done;
        return;
      }
      ghost var r := Sized(size, names);
      assert done + ([r] + ParseSizedAll(buf[next..])) == (done + [r]) + ParseSizedAll(buf[next..]);
      SamplesSnoc(rd, done, r);
      done := done + [r];
      p := next;
      var userFrames := UserFrames(frames);
      if userFrames == [] {
        continue;
      }
      samples := AddSample(samples, LiveAlloc(userFrames, rd.scale, AsI64(size) * rd.scale));
    }
    SizedAt(buf, p);
    assert done + [] == done;
  }

  lemma NothingSampled(rd: Reading, buf: seq<Byte>)
    ensures SamplesFrom(rd, []) == map[] && buf[0..] == buf && ParseSizedAll(buf) == [] + ParseSizedAll(buf[0..])
  {
    assert buf[0..] == buf;
    assert [] + ParseSizedAll(buf) == ParseSizedAll(buf);
  }
}
