/** The byte format of the native allocation hook: the record builder of the C
    hook, and the cursor parser that reads a stream that may end mid-record. */
module RecordCodec {
  import opened Wrappers
  import opened Sampling

  type Byte = b: int | 0 <= b < 256
  type U64 = n: int | 0 <= n < 0x1_0000_0000_0000_0000

  function Pow256(k: nat): (p: nat)
    ensures p > 0
  {
    if k == 0 then 1 else 256 * Pow256(k - 1)
  }

  function LittleEndian(n: nat, width: nat): (bs: seq<Byte>)
    ensures |bs| == width
  {
    if width == 0 then [] else [n % 256] + LittleEndian(n / 256, width - 1)
  }

  function FromLittleEndian(bs: seq<Byte>): nat {
    if bs == [] then 0 else bs[0] + 256 * FromLittleEndian(bs[1..])
  }

  lemma {:induction false} LittleEndianRoundTrip(n: nat, width: nat)
    requires n < Pow256(width)
    ensures FromLittleEndian(LittleEndian(n, width)) == n
  {
    if width > 0 {
      LittleEndianRoundTrip(n / 256, width - 1);
      assert LittleEndian(n, width)[1..] == LittleEndian(n / 256, width - 1);
    }
  }

  /** The low byte comes first. */
  lemma {:induction false} LittleEndianAt(n: nat, width: nat, i: nat)
    requires i < width
    ensures LittleEndian(n, width)[i] == n / Pow256(i) % 256
  {
    if i > 0 {
      LittleEndianAt(n / 256, width - 1, i - 1);
      DivideTwice(n, Pow256(i - 1));
    }
  }

  lemma DivideTwice(n: nat, d: nat)
    requires d > 0
    ensures n / 256 / d == n / (256 * d)
  {
    var q := n / (256 * d);
    var r := n - q * (256 * d);
    assert n == 256 * (q * d) + r && 0 <= r < 256 * d;
    assert n / 256 == q * d + r / 256 && r / 256 < d;
    DivIs(n / 256, d, q, r / 256);
  }

  lemma {:induction false} FromLittleEndianBound(bs: seq<Byte>)
    ensures FromLittleEndian(bs) < Pow256(|bs|)
  {
    if bs != [] {
      FromLittleEndianBound(bs[1..]);
    }
  }

  lemma Pow256Values()
    ensures Pow256(2) == 0x1_0000 && Pow256(8) == 0x1_0000_0000_0000_0000
  {
    assert Pow256(4) == 0x1_0000_0000;
  }

  const TAG_ALLOC: Byte := 65   // 'A'
  const TAG_FREE: Byte := 70    // 'F'

  type Name = seq<Byte>

  datatype Record = Alloc(ptr: U64, size: U64, frames: seq<Name>) | Free(ptr: U64)

  /** What the count byte and the u16 lengths can represent. */
  predicate Encodable(r: Record) {
    r.Alloc? ==> |r.frames| < 256 && forall f :: f in r.frames ==> |f| < 0x1_0000
  }

  predicate AllEncodable(rs: seq<Record>) {
    forall r :: r in rs ==> Encodable(r)
  }

  function EncodeFrames(fs: seq<Name>): seq<Byte> {
    if fs == [] then [] else LittleEndian(|fs[0]|, 2) + fs[0] + EncodeFrames(fs[1..])
  }

  function Encode(r: Record): (bs: seq<Byte>)
    requires Encodable(r)
    ensures |bs| > 0
  {
    match r
    case Alloc(ptr, size, frames) =>
      [TAG_ALLOC] + LittleEndian(ptr, 8) + LittleEndian(size, 8) + [|frames|] + EncodeFrames(frames)
    case Free(ptr) => [TAG_FREE] + LittleEndian(ptr, 8)
  }

  lemma TwoBytes(n: nat)
    requires n < 0x1_0000
    ensures LittleEndian(n, 2) == [n % 256, n / 256]
  {
    assert LittleEndian(n / 256, 1) == [n / 256 % 256] + LittleEndian(n / 256 / 256, 0);
  }

  /** Names follow each other, each behind the two bytes of its length, low byte first. */
  lemma {:induction false} FrameBytes(a: seq<Name>, f: Name, b: seq<Name>)
    requires |f| < 0x1_0000
    ensures EncodeFrames(a + [f] + b) == EncodeFrames(a) + [|f| % 256, |f| / 256] + f + EncodeFrames(b)
  {
    TwoBytes(|f|);
    hide LittleEndian;
    if a == [] {
      assert a + [f] + b == [f] + b && ([f] + b)[1..] == b;
    } else {
      FrameBytes(a[1..], f, b);
      assert (a + [f] + b)[1..] == a[1..] + [f] + b;
    }
  }

  /** The bytes of a record: its tag, the address and the size with their low bytes first, the number of names. */
  lemma RecordBytes(r: Record, i: nat)
    requires Encodable(r) && i < 8
    ensures r.Free? ==> |Encode(r)| == 9 && Encode(r)[0] == 'F' as int && Encode(r)[1 + i] == r.ptr / Pow256(i) % 256
    ensures r.Alloc? ==>
              |Encode(r)| >= 18 && Encode(r)[0] == 'A' as int && Encode(r)[1 + i] == r.ptr / Pow256(i) % 256
              && Encode(r)[9 + i] == r.size / Pow256(i) % 256 && Encode(r)[17] == |r.frames|
              && Encode(r)[18..] == EncodeFrames(r.frames)
  {
    LittleEndianAt(r.ptr, 8, i);
    hide Pow256;
    if r.Alloc? {
      LittleEndianAt(r.size, 8, i);
      hide LittleEndian;
      hide EncodeFrames;
      AllocParts([TAG_ALLOC], LittleEndian(r.ptr, 8), LittleEndian(r.size, 8), |r.frames|, EncodeFrames(r.frames));
    }
  }

  lemma AllocParts(tag: seq<Byte>, ptr: seq<Byte>, size: seq<Byte>, n: Byte, frames: seq<Byte>)
    requires |tag| == 1 && |ptr| == |size| == 8
    ensures var s := tag + ptr + size + [n] + frames;
            |s| >= 18 && s[..1] == tag && s[1..9] == ptr && s[9..17] == size && s[17] == n && s[18..] == frames
  {}

  function EncodeAll(rs: seq<Record>): seq<Byte>
    requires AllEncodable(rs)
  {
    if rs == [] then [] else Encode(rs[0]) + EncodeAll(rs[1..])
  }

  // ----------------------------------------------------------- the parser

  datatype Parsed<T> = Parsed(value: T, rest: seq<Byte>) | Torn | UnknownTag

  /** `n` length-prefixed names. */
  function ParseFrames(s: seq<Byte>, n: nat): Parsed<seq<Name>> {
    if n == 0 then Parsed([], s)
    else if |s| < 2 then Torn
    else
      var len := FromLittleEndian(s[..2]);
      if |s| < 2 + len then Torn
      else
        match ParseFrames(s[2 + len..], n - 1)
        case Parsed(fs, rest) => Parsed([s[2..2 + len]] + fs, rest)
        case other => other
  }

  function ParseU64(s: seq<Byte>): U64
    requires |s| == 8
  {
    FromLittleEndianBound(s);
    Pow256Values();
    FromLittleEndian(s)
  }

  function ParseRecord(s: seq<Byte>): Parsed<Record>
    requires s != []
  {
    if s[0] == TAG_ALLOC then
      if |s| < 18 then Torn
      else
        match ParseFrames(s[18..], s[17])
        case Parsed(fs, rest) => Parsed(Alloc(ParseU64(s[1..9]), ParseU64(s[9..17]), fs), rest)
        case other => Torn
    else if s[0] == TAG_FREE then
      if |s| < 9 then Torn else Parsed(Free(ParseU64(s[1..9])), s[9..])
    else UnknownTag
  }

  lemma {:induction false} ParseFramesSuffix(s: seq<Byte>, n: nat)
    ensures var p := ParseFrames(s, n);
            p.Parsed? ==> |p.rest| <= |s| && p.rest == s[|s| - |p.rest|..] && |p.value| == n
    ensures !ParseFrames(s, n).UnknownTag?
  {
    if n > 0 && |s| >= 2 {
      var len := FromLittleEndian(s[..2]);
      if |s| >= 2 + len {
        ParseFramesSuffix(s[2 + len..], n - 1);
      }
    }
  }

  /** All whole records of a stream; a torn tail is dropped. The error is the rest of the stream from a byte that is
      no tag. */
  function ParseAll(s: seq<Byte>): Result<seq<Record>, seq<Byte>>
    decreases |s|
  {
    if s == [] then Ok([])
    else
      match ParseRecord(s)
      case Torn => Ok([])
      case UnknownTag => Err(s)
      case Parsed(r, rest) =>
        assert |rest| < |s| by { if |s| >= 18 { ParseFramesSuffix(s[18..], s[17]); } }
        match ParseAll(rest)
        case Ok(rs) => Ok([r] + rs)
        case Err(bad) => Err(bad)
  }

  // -------------------------------------------------------- codec theorem

  lemma NamePrefix(f: Name, tail: seq<Byte>)
    requires |f| < 0x1_0000
    ensures var s := LittleEndian(|f|, 2) + f + tail;
            FromLittleEndian(s[..2]) == |f| && s[2..2 + |f|] == f && s[2 + |f|..] == tail
  {
    Pow256Values();
    LittleEndianRoundTrip(|f|, 2);
    hide LittleEndian;
    hide FromLittleEndian;
    hide Pow256;
    var s := LittleEndian(|f|, 2) + f + tail;
    assert s[..2] == LittleEndian(|f|, 2);
  }

  lemma {:induction false} FramesWhole(fs: seq<Name>, tail: seq<Byte>)
    requires forall f :: f in fs ==> |f| < 0x1_0000
    ensures ParseFrames(EncodeFrames(fs) + tail, |fs|) == Parsed(fs, tail)
  {
    hide LittleEndian;
    hide FromLittleEndian;
    if fs == [] {
      assert EncodeFrames(fs) + tail == tail;
    } else {
      var rest := EncodeFrames(fs[1..]) + tail;
      assert EncodeFrames(fs) + tail == LittleEndian(|fs[0]|, 2) + fs[0] + rest;
      NamePrefix(fs[0], rest);
      FramesWhole(fs[1..], tail);
      assert [fs[0]] + fs[1..] == fs;
    }
  }

  lemma {:induction false} FramesTorn(fs: seq<Name>, k: nat)
    requires forall f :: f in fs ==> |f| < 0x1_0000
    requires k < |EncodeFrames(fs)|
    ensures ParseFrames(EncodeFrames(fs)[..k], |fs|) == Torn
  {
    var head, rest := LittleEndian(|fs[0]|, 2) + fs[0], EncodeFrames(fs[1..]);
    var s := EncodeFrames(fs)[..k];
    if k >= |head| {
      assert s == head + rest[..k - |head|];
      NamePrefix(fs[0], rest[..k - |head|]);
      FramesTorn(fs[1..], k - |head|);
    } else if k >= 2 {
      NamePrefix(fs[0], []);
      assert s[..2] == (head + [])[..2];
    }
  }

  lemma AllocFields(ptr: seq<Byte>, size: seq<Byte>, n: Byte, frames: seq<Byte>, tail: seq<Byte>)
    requires |ptr| == |size| == 8
    ensures var s := [TAG_ALLOC] + ptr + size + [n] + frames + tail;
            |s| >= 18 && s[1..9] == ptr && s[9..17] == size && s[17] == n && s[18..] == frames + tail
  {}

  /** One whole record at the head of a stream is read back, with the rest of the stream. */
  lemma RecordWhole(r: Record, tail: seq<Byte>)
    requires Encodable(r)
    ensures ParseRecord(Encode(r) + tail) == Parsed(r, tail)
  {
    Pow256Values();
    LittleEndianRoundTrip(r.ptr, 8);
    hide LittleEndian;
    hide FromLittleEndian;
    if r.Alloc? {
      LittleEndianRoundTrip(r.size, 8);
      FramesWhole(r.frames, tail);
      AllocFields(LittleEndian(r.ptr, 8), LittleEndian(r.size, 8), |r.frames|, EncodeFrames(r.frames), tail);
      hide EncodeFrames;
      hide ParseFrames;
      assert ParseRecord(Encode(r) + tail).Parsed?;
    } else {
      var s := [TAG_FREE] + LittleEndian(r.ptr, 8) + tail;
      assert s[1..9] == LittleEndian(r.ptr, 8);
      assert s[9..] == tail;
    }
  }

  /** A record cut short is torn, never an error and never another record. */
  lemma RecordTorn(r: Record, k: nat)
    requires Encodable(r) && 0 < k < |Encode(r)|
    ensures ParseRecord(Encode(r)[..k]) == Torn
  {
    var s := Encode(r)[..k];
    if r.Alloc? && k >= 18 {
      var frames := EncodeFrames(r.frames);
      assert Encode(r)[17] == |r.frames|;
      assert Encode(r)[18..] == frames;
      assert s[18..] == frames[..k - 18];
      FramesTorn(r.frames, k - 18);
    }
  }

  /** The records that lie wholly inside the first `k` bytes. */
  function WhollyInside(rs: seq<Record>, k: nat): seq<Record>
    requires AllEncodable(rs)
  {
    if rs == [] || |Encode(rs[0])| > k then [] else [rs[0]] + WhollyInside(rs[1..], k - |Encode(rs[0])|)
  }

  /** They are the longest run of records from the start whose bytes fit. */
  lemma {:induction false} WhollyInsideIsLongest(rs: seq<Record>, k: nat) returns (n: nat)
    requires AllEncodable(rs)
    ensures n <= |rs| && WhollyInside(rs, k) == rs[..n] && |EncodeAll(rs[..n])| <= k
    ensures n < |rs| ==> k < |EncodeAll(rs[..n + 1])|
  {
    hide Encode;
    hide Encodable;
    if rs == [] || |Encode(rs[0])| > k {
      n := 0;
      assert rs != [] ==> rs[..1][1..] == [];
    } else {
      n := WhollyInsideIsLongest(rs[1..], k - |Encode(rs[0])|);
      n := n + 1;
      assert rs[..n][1..] == rs[1..][..n - 1];
      assert n < |rs| ==> rs[..n + 1][1..] == rs[1..][..n];
    }
  }

  /** Parsing any byte prefix of a record stream returns exactly the records wholly inside it, and no error. */
  lemma {:induction false} ParsePrefix(rs: seq<Record>, k: nat)
    requires AllEncodable(rs)
    requires k <= |EncodeAll(rs)|
    ensures ParseAll(EncodeAll(rs)[..k]) == Ok(WhollyInside(rs, k))
  {
    if rs != [] && k > 0 {
      var head, rest := Encode(rs[0]), EncodeAll(rs[1..]);
      var s := EncodeAll(rs)[..k];
      if k < |head| {
        assert s == head[..k];
        RecordTorn(rs[0], k);
      } else {
        assert s == head + rest[..k - |head|];
        RecordWhole(rs[0], rest[..k - |head|]);
        ParsePrefix(rs[1..], k - |head|);
      }
    }
  }

  lemma {:induction false} AllWhollyInside(rs: seq<Record>)
    requires AllEncodable(rs)
    ensures WhollyInside(rs, |EncodeAll(rs)|) == rs
  {
    if rs != [] {
      AllWhollyInside(rs[1..]);
    }
  }

  /** The whole stream is read back, and so is a stream with a torn record after it. */
  lemma ParseAppend(rs: seq<Record>, r: Record, k: nat)
    requires AllEncodable(rs)
    requires Encodable(r) && k < |Encode(r)|
    ensures ParseAll(EncodeAll(rs) + Encode(r)[..k]) == Ok(rs)
  {
    EncodeAllAppend(rs, [r]);
    assert EncodeAll([r]) == Encode(r);
    var n := |EncodeAll(rs)| + k;
    assert EncodeAll(rs + [r])[..n] == EncodeAll(rs) + Encode(r)[..k];
    ParsePrefix(rs + [r], n);
    InsideAppend(rs, r, n);
  }

  lemma {:induction false} EncodeAllAppend(a: seq<Record>, b: seq<Record>)
    requires AllEncodable(a) && AllEncodable(b)
    ensures AllEncodable(a + b) && EncodeAll(a + b) == EncodeAll(a) + EncodeAll(b)
  {
    hide Encodable;
    hide Encode;
    if a == [] {
      assert a + b == b;
    } else {
      assert (a + b)[1..] == a[1..] + b;
      EncodeAllAppend(a[1..], b);
    }
  }

  lemma {:induction false} InsideAppend(rs: seq<Record>, r: Record, n: nat)
    requires AllEncodable(rs) && Encodable(r) && AllEncodable(rs + [r])
    requires |EncodeAll(rs)| <= n < |EncodeAll(rs)| + |Encode(r)|
    ensures WhollyInside(rs + [r], n) == rs
  {
    hide Encodable;
    hide Encode;
    if rs != [] {
      assert (rs + [r])[1..] == rs[1..] + [r];
      InsideAppend(rs[1..], r, n - |Encode(rs[0])|);
    }
  }

  // ----------------------------------------------- the C hook's record builder

  const BUFFER_SIZE := 8192
  const NAME_CAP := 250
  const MAX_FRAMES := 64          // backtrace(bt, 64)

  /** strnlen(name, 250) bytes of a symbol name. */
  function Cap(name: Name): Name {
    if |name| <= NAME_CAP then name else name[..NAME_CAP]
  }

  /** A leading part of the name, at most 250 bytes and no shorter than it must be. */
  lemma CapIs(name: Name)
    ensures Cap(name) <= name && |Cap(name)| == if |name| < 250 then |name| else 250
  {}

  function Capped(names: seq<Name>): (fs: seq<Name>)
    ensures |fs| == |names| && forall i :: 0 <= i < |names| ==> fs[i] == Cap(names[i])
    ensures forall f :: f in fs ==> |f| <= NAME_CAP
  {
    seq(|names|, i requires 0 <= i < |names| => Cap(names[i]))
  }

  lemma {:induction false} EncodeFramesSnoc(fs: seq<Name>, f: Name)
    ensures EncodeFrames(fs + [f]) == EncodeFrames(fs) + LittleEndian(|f|, 2) + f
  {
    if fs == [] {
      assert EncodeFrames([f]) == LittleEndian(|f|, 2) + f + EncodeFrames([]);
      assert [] + [f] == [f];
    } else {
      assert (fs + [f])[1..] == fs[1..] + [f];
      EncodeFramesSnoc(fs[1..], f);
    }
  }

  lemma NothingKept(names: seq<Name>)
    ensures EncodeFrames(Capped(names[..0])) == []
  {}

  lemma KeepOne(names: seq<Name>, kept: nat)
    requires kept < |names|
    ensures EncodeFrames(Capped(names[..kept + 1])) ==
            EncodeFrames(Capped(names[..kept])) + LittleEndian(|Cap(names[kept])|, 2) + Cap(names[kept])
  {
    assert Capped(names[..kept + 1]) == Capped(names[..kept]) + [Cap(names[kept])];
    EncodeFramesSnoc(Capped(names[..kept]), Cap(names[kept]));
  }

  method Memcpy(buf: array<Byte>, pos: nat, src: seq<Byte>) returns (end: nat)
    requires pos + |src| <= buf.Length
    modifies buf
    ensures end == pos + |src|
    ensures buf[..end] == old(buf[..pos]) + src
    ensures buf[end..] == old(buf[pos + |src|..])
  {
    for i := 0 to |src|
      invariant buf[..pos + i] == old(buf[..pos]) + src[..i]
      invariant buf[pos + |src|..] == old(buf[pos + |src|..])
    {
      buf[pos + i] := src[i];
      assert src[..i + 1] == src[..i] + [src[i]];
    }
    end := pos + |src|;
    assert src[..|src|] == src;
  }

  /** One length-prefixed name, capped. */
  method AppendFrame(buf: array<Byte>, start: nat, name: Name) returns (pos: nat)
    requires start + 2 + NAME_CAP <= buf.Length
    modifies buf
    ensures pos == start + 2 + |Cap(name)| && pos <= start + 252
    ensures buf[..pos] == old(buf[..start]) + LittleEndian(|Cap(name)|, 2) + Cap(name)
  {
    hide LittleEndian;
    var nameLen := if |name| <= NAME_CAP then |name| else NAME_CAP;
    pos := Memcpy(buf, start, LittleEndian(nameLen, 2));
    pos := Memcpy(buf, pos, name[..nameLen]);
  }

  /** The frame loop both hooks share: appends names while another capped name is sure to fit. The kept names are
      a leaf-side prefix that stops only when the backtrace or the buffer is exhausted. */
  method AppendFrames(buf: array<Byte>, start: nat, names: seq<Name>) returns (pos: nat, kept: nat)
    requires buf.Length == BUFFER_SIZE && start <= 18 && |names| <= MAX_FRAMES
    modifies buf
    ensures start <= pos <= BUFFER_SIZE && kept <= |names|
    ensures buf[..pos] == old(buf[..start]) + EncodeFrames(Capped(names[..kept]))
    ensures kept == |names| || pos + 2 + NAME_CAP > BUFFER_SIZE
    ensures kept >= if |names| < 32 then |names| else 32
  {
    hide EncodeFrames;
    hide Capped;
    hide LittleEndian;
    pos, kept := start, 0;
    NothingKept(names);
    while kept < |names|
      invariant start <= pos <= BUFFER_SIZE && kept <= |names|
      invariant pos <= start + 252 * kept
      invariant buf[..pos] == old(buf[..start]) + EncodeFrames(Capped(names[..kept]))
    {
      if pos + 2 + NAME_CAP > BUFFER_SIZE {
        break;
      }
      KeepOne(names, kept);
      pos := AppendFrame(buf, pos, names[kept]);
      kept := kept + 1;
    }
  }

  /** `__moon_pprof_alloc_ptr_hook`: the record is built in an 8192-byte buffer, the count byte filled in last. What
      the buffer then holds is a codec record with at least min(n, 32) of the n frames. */
  method BuildAllocRecord(buf: array<Byte>, ptr: U64, size: U64, names: seq<Name>) returns (pos: nat, kept: nat)
    requires buf.Length == BUFFER_SIZE && |names| <= MAX_FRAMES
    modifies buf
    ensures pos <= BUFFER_SIZE && kept <= |names| && kept >= (if |names| < 32 then |names| else 32)
    ensures kept == |names| || pos + 2 + NAME_CAP > BUFFER_SIZE
    ensures Encodable(Alloc(ptr, size, Capped(names[..kept])))
    ensures buf[..pos] == Encode(Alloc(ptr, size, Capped(names[..kept])))
  {
    hide LittleEndian;
    hide EncodeFrames;
    hide Capped;
    buf[0] := TAG_ALLOC;
    pos := 1;
    pos := Memcpy(buf, pos, LittleEndian(ptr, 8));
    pos := Memcpy(buf, pos, LittleEndian(size, 8));
    var nframesPos := pos;
    pos := pos + 1;
    ghost var header := buf[..17];
    assert header == [TAG_ALLOC] + LittleEndian(ptr, 8) + LittleEndian(size, 8);
    pos, kept := AppendFrames(buf, pos, names);
    ghost var framed := buf[..pos];
    assert framed[18..] == EncodeFrames(Capped(names[..kept])) && framed[..17] == header;
    buf[nframesPos] := kept;
    assert buf[..pos] == header + [kept] + framed[18..];
  }

  method BuildFreeRecord(buf: array<Byte>, ptr: U64) returns (pos: nat)
    requires buf.Length == 9
    modifies buf
    ensures pos == 9 && buf[..pos] == Encode(Free(ptr))
  {
    buf[0] := TAG_FREE;
    pos := Memcpy(buf, 1, LittleEndian(ptr, 8));
  }
}
