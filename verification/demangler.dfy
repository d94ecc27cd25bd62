/** The greedy backward demangler, against a forward mangler. Strings stand for
    the bytes of a symbol. */
module Demangler {
  import opened Wrappers
  import opened Text

  const MAX_SEGMENTS := 50
  const MAX_SEGMENT_LEN := 64

  predicate IsUpper(c: char) {
    'A' <= c <= 'Z'
  }

  predicate IsLetter(c: char) {
    'A' <= c <= 'Z' || 'a' <= c <= 'z'
  }

  predicate IsIdentChar(c: char) {
    c == '_' || IsLetter(c) || IsDigit(c)
  }

  /** The bytes of an identifier. */
  lemma IdentCharsAre(c: char)
    ensures var n := c as int;
            && (IsUpper(c) <==> 65 <= n < 91) && (IsDigit(c) <==> 48 <= n < 58)
            && (IsLetter(c) <==> 65 <= n < 91 || 97 <= n < 123)
            && (IsIdentChar(c) <==> IsLetter(c) || IsDigit(c) || n == 95)
  {}

  predicate IsIdent(s: string) {
    s != [] && !IsDigit(s[0]) && forall i :: 0 <= i < |s| ==> IsIdentChar(s[i])
  }

  // ------------------------------------------------------- one segment's end

  predicate EndsWith(s: string, t: string) {
    |t| <= |s| && s[|s| - |t|..] == t
  }

  /** `s` ends in an identifier of length `n` that follows its own length in decimal. */
  predicate EndsInSegment(s: string, n: nat) {
    1 <= n <= MAX_SEGMENT_LEN && n < |s| && IsIdent(s[|s| - n..]) && EndsWith(s[..|s| - n], Decimal(n))
  }

  /** The longest segment of at most `max` that `s` ends in; 0 when there is none. */
  function LongestUpTo(s: string, max: nat): (r: nat)
    ensures r <= max && (r > 0 ==> EndsInSegment(s, r))
    ensures forall n: nat :: n <= max && EndsInSegment(s, n) ==> n <= r
  {
    if max == 0 then 0 else if EndsInSegment(s, max) then max else LongestUpTo(s, max - 1)
  }

  function Longest(s: string): (r: nat)
    ensures r > 0 ==> EndsInSegment(s, r)
    ensures forall n: nat :: EndsInSegment(s, n) ==> n <= r
  {
    LongestUpTo(s, MAX_SEGMENT_LEN)
  }

  /** Formats a segment length into a stack buffer. */
  method Itoa(n: nat, buf: array<char>) returns (text: string)
    requires n <= MAX_SEGMENT_LEN && buf.Length == 3
    modifies buf
    ensures text == Decimal(n)
  {
    if n < 10 {
      buf[0] := '0' + n as char;
      text := buf[..1];
    } else {
      buf[0] := '0' + (n / 10) as char;
      buf[1] := '0' + (n % 10) as char;
      assert Decimal(n) == Digits(n / 10, 10) + [Digit(n % 10)] == [Digit(n / 10)] + [Digit(n % 10)];
      text := buf[..2];
    }
  }

  /** Tries every suffix of the digit run that ends at `dEnd`, leftmost first: whether the text there ends with `n` in
      decimal. */
  method MatchDigits(bytes: string, dEnd: nat, n: nat) returns (r: Option<nat>)
    requires dEnd <= |bytes| && 1 <= n <= MAX_SEGMENT_LEN
    ensures r == if EndsWith(bytes[..dEnd], Decimal(n)) then Some(dEnd - |Decimal(n)|) else None
  {
    hide Decimal;
    hide EndsWith;
    var dStart := dEnd;
    while dStart > 0 && IsDigit(bytes[dStart - 1])
      invariant 0 <= dStart <= dEnd
      invariant forall k :: dStart <= k < dEnd ==> IsDigit(bytes[k])
    {
      dStart := dStart - 1;
    }
    var buf := new char[3];
    var target := Itoa(n, buf);
    DecimalIsDigits(n);
    DecimalLength(n);
    for ds := dStart to dEnd
      invariant forall k :: dStart <= k < ds ==> bytes[k..dEnd] != target
    {
      if bytes[ds..dEnd] == target {
        EndsWithSlice(bytes, ds, dEnd, target);
        return Some(ds);
      }
    }
    SuffixInRun(bytes, dStart, dEnd, target);
    r := None;
  }

  lemma SegmentAt(bytes: string, i: nat, n: nat)
    requires 1 <= n <= MAX_SEGMENT_LEN && n < i <= |bytes|
    ensures EndsInSegment(bytes[..i], n) <==> IsIdent(bytes[i - n..i]) && EndsWith(bytes[..i - n], Decimal(n))
  {
    assert bytes[..i][i - n..] == bytes[i - n..i];
    assert bytes[..i][..i - n] == bytes[..i - n];
  }

  lemma LongestStep(s: string, n: nat)
    requires n > 0
    ensures LongestUpTo(s, n) == if EndsInSegment(s, n) then n else LongestUpTo(s, n - 1)
  {}

  /** `find_segment_end`: the longest segment the text before `i` ends in. */
  method FindSegmentEnd(bytes: string, i: nat) returns (r: Option<(nat, nat)>)
    requires 1 <= i <= |bytes|
    ensures var n := Longest(bytes[..i]);
            r == if n == 0 then None else Some((i - n, i - n - |Decimal(n)|))
    ensures r.Some? ==> r.value.1 < r.value.0 < i
  {
    hide Decimal;
    hide IsIdent;
    hide LongestUpTo;
    hide Longest;
    hide EndsInSegment;
    hide EndsWith;
    var n := if i - 1 < MAX_SEGMENT_LEN then i - 1 else MAX_SEGMENT_LEN;
    LongestCapped(bytes[..i], n);
    while n > 0
      invariant 0 <= n <= MAX_SEGMENT_LEN && n < i
      invariant Longest(bytes[..i]) == LongestUpTo(bytes[..i], n)
    {
      LongestStep(bytes[..i], n);
      SegmentAt(bytes, i, n);
      if IsIdent(bytes[i - n..i]) {
        var ds := MatchDigits(bytes, i - n, n);
        if ds.Some? {
          DecimalLength(n);
          return Some((i - n, ds.value));
        }
      }
      n := n - 1;
    }
    NoneUpToZero(bytes[..i]);
    r := None;
  }

  lemma NoneUpToZero(s: string)
    ensures LongestUpTo(s, 0) == 0
  {}

  lemma EndsWithSlice(bytes: string, ds: nat, dEnd: nat, t: string)
    requires ds <= dEnd <= |bytes| && bytes[ds..dEnd] == t
    ensures EndsWith(bytes[..dEnd], t)
  {
    assert bytes[..dEnd][ds..] == bytes[ds..dEnd];
  }

  /** A run of digits at the end of the text starts within the digit run. */
  lemma SuffixInRun(bytes: string, dStart: nat, dEnd: nat, t: string)
    requires dStart <= dEnd <= |bytes| && t != [] && forall c :: c in t ==> IsDigit(c)
    requires dStart > 0 ==> !IsDigit(bytes[dStart - 1])
    ensures EndsWith(bytes[..dEnd], t) ==> dStart <= dEnd - |t| < dEnd && bytes[dEnd - |t|..dEnd] == t
  {
    if EndsWith(bytes[..dEnd], t) {
      var ds := dEnd - |t|;
      assert bytes[..dEnd][ds..] == bytes[ds..dEnd];
      forall k | ds <= k < dEnd
        ensures IsDigit(bytes[k])
      {
        assert bytes[k] == t[k - ds];
      }
    }
  }

  lemma {:induction false} LongestCapped(s: string, n: nat)
    requires n < |s| && (n == MAX_SEGMENT_LEN || n == |s| - 1 <= MAX_SEGMENT_LEN)
    ensures Longest(s) == LongestUpTo(s, n)
  {
    CappedUpTo(s, n, MAX_SEGMENT_LEN);
  }

  lemma {:induction false} CappedUpTo(s: string, n: nat, max: nat)
    requires n <= max <= MAX_SEGMENT_LEN && (n == MAX_SEGMENT_LEN || n == |s| - 1)
    ensures LongestUpTo(s, max) == LongestUpTo(s, n)
  {
    if max > n {
      CappedUpTo(s, n, max - 1);
    }
  }

  lemma DecimalLength(n: nat)
    requires 1 <= n <= MAX_SEGMENT_LEN
    ensures |Decimal(n)| == if n < 10 then 1 else 2
  {
    if n >= 10 {
      assert |Digits(n / 10, 10)| == 1;
    }
  }

  // --------------------------------------------------------- prefix and suffix

  function StripPrefix(name: string): Option<string> {
    var trimmed := TrimUnderscores(name);
    if |trimmed| < 3 || trimmed[..2] != "M0" || !IsUpper(trimmed[2]) then None else Some(trimmed)
  }

  predicate AllLetters(s: string) {
    forall i :: 0 <= i < |s| ==> IsLetter(s[i])
  }

  /** `s` ends in a generic instantiation whose `G` is at `g`: only letters, none of them another `G`, then `E`. */
  predicate GenericTail(s: string, g: nat) {
    && g < |s| - 1 && s[g] == 'G' && s[|s| - 1] == 'E'
    && AllLetters(s[g + 1..|s| - 1]) && Free(s[g + 1..|s| - 1], 'G')
  }

  predicate GenericAt(s: string, g: nat) {
    |s| >= 3 && GenericTail(s, g)
  }

  lemma AfterG(s: string, g: nat, k: nat)
    requires GenericAt(s, g) && g < k < |s| - 1
    ensures IsLetter(s[k]) && s[k] != 'G'
  {
    assert s[g + 1..|s| - 1][k - g - 1] == s[k];
  }

  lemma GenericUnique(s: string, a: nat, b: nat)
    requires GenericAt(s, a) && GenericAt(s, b)
    ensures a == b
  {
    if a < b {
      AfterG(s, a, b);
    } else if b < a {
      AfterG(s, b, a);
    }
  }

  ghost predicate Generic(s: string) {
    exists g: nat :: GenericAt(s, g)
  }

  /** The text without its generic suffix. */
  ghost function Stripped(s: string): (r: string)
    ensures forall g: nat :: GenericAt(s, g) ==> r == s[..g]
    ensures !Generic(s) ==> r == s
  {
    if Generic(s) then
      var g: nat :| GenericAt(s, g);
      assert forall h: nat :: GenericAt(s, h) ==> h == g by {
        forall h: nat | GenericAt(s, h)
          ensures h == g
        {
          GenericUnique(s, h, g);
        }
      }
      s[..g]
    else s
  }

  /** `strip_generic_suffix`: cuts at the `G` when there is such a suffix, and leaves the text alone otherwise. */
  method StripGenericSuffix(s: string) returns (r: string)
    ensures r == Stripped(s)
  {
    var end := |s|;
    if end < 3 || s[end - 1] != 'E' {
      assert !Generic(s);
      return s;
    }
    var i := end - 1;
    while i > 0 && IsLetter(s[i - 1]) && s[i - 1] != 'G'
      invariant 0 <= i <= end - 1
      invariant forall k :: i <= k < end - 1 ==> IsLetter(s[k]) && s[k] != 'G'
    {
      i := i - 1;
    }
    GenericOnlyAt(s, i);
    if i > 0 && s[i - 1] == 'G' && i - 1 < end - 1 {
      assert GenericAt(s, i - 1);
      return s[..i - 1];
    }
    assert !Generic(s);
    return s;
  }

  lemma GenericOnlyAt(s: string, i: nat)
    requires |s| >= 3 && s[|s| - 1] == 'E' && i <= |s| - 1
    requires forall k :: i <= k < |s| - 1 ==> IsLetter(s[k]) && s[k] != 'G'
    requires i > 0 ==> !IsLetter(s[i - 1]) || s[i - 1] == 'G'
    ensures forall g: nat :: GenericAt(s, g) <==> g == i - 1 && i > 0 && s[i - 1] == 'G'
  {
    forall g: nat
      ensures GenericAt(s, g) <==> g == i - 1 && i > 0 && s[i - 1] == 'G'
    {
      if GenericAt(s, g) && g < i - 1 {
        AfterG(s, g, i - 1);
      }
    }
  }


  // -------------------------------------------------------------- demangling

  /** The segments found walking back from the end, at most `limit` of them. */
  function PartsOf(s: string, limit: nat): seq<string> {
    var n := Longest(s);
    if limit == 0 || n == 0 then [] else PartsOf(s[..|s| - n - |Decimal(n)|], limit - 1) + [s[|s| - n..]]
  }

  function Join(parts: seq<string>): string {
    if parts == [] then "" else if |parts| == 1 then parts[0]
    else Join(parts[..|parts| - 1]) + "::" + parts[|parts| - 1]
  }

  /** Parts are shown in their order, with two colons between them. */
  lemma {:induction false} JoinAdd(a: seq<string>, b: seq<string>)
    requires a != [] && b != []
    ensures Join(a + b) == Join(a) + "::" + Join(b)
  {
    var init := b[..|b| - 1];
    assert (a + b)[..|a + b| - 1] == a + init;
    if init == [] {
      assert a + init == a;
    } else {
      JoinAdd(a, init);
      assert Join(a) + "::" + Join(init) + "::" + b[|b| - 1] == Join(a) + "::" + (Join(init) + "::" + b[|b| - 1]);
    }
  }

  lemma JoinOne(part: string)
    ensures Join([part]) == part && Join([]) == ""
  {}

  /** A name is left alone unless it starts, behind its underscores, with "M0" and a capital letter, and ends in a
      segment. */
  lemma NotMangledStays(us: string, n: string)
    requires (forall i :: 0 <= i < |us| ==> us[i] == '_') && (n != "" ==> n[0] != '_')
    ensures Demangled(us + n) != us + n ==> "M0" <= n && |n| > 2 && 65 <= n[2] as int < 91
    ensures Demangled(us + n) != us + n ==> Longest(Stripped(n)) > 0
  {
    hide Longest;
    hide Stripped;
    TrimmedOfUnderscores(us, n);
    if |n| >= 3 {
      IdentCharsAre(n[2]);
    }
  }

  lemma {:induction false} TrimmedOfUnderscores(us: string, n: string)
    requires (forall i :: 0 <= i < |us| ==> us[i] == '_') && (n != "" ==> n[0] != '_')
    ensures TrimUnderscores(us + n) == n
  {
    if us == "" {
      assert us + n == n;
    } else {
      TrimmedOfUnderscores(us[1..], n);
      assert (us + n)[1..] == us[1..] + n;
    }
  }

  /** No more than fifty segments are peeled off. */
  lemma {:induction false} PartsBound(s: string, limit: nat)
    ensures |PartsOf(s, limit)| <= limit && |PartsOf(s, MAX_SEGMENTS)| <= 50
    decreases limit
  {
    hide Longest;
    PartsCount(s, limit);
    PartsCount(s, MAX_SEGMENTS);
  }

  lemma {:induction false} PartsCount(s: string, limit: nat)
    ensures |PartsOf(s, limit)| <= limit
    decreases limit
  {
    hide Longest;
    var n := Longest(s);
    if limit > 0 && n > 0 {
      LongestFits(s);
      PartsCount(s[..|s| - n - |Decimal(n)|], limit - 1);
    }
  }

  lemma LongestFits(s: string)
    ensures var n := Longest(s); n > 0 ==> n <= 64 && n + |Decimal(n)| <= |s|
  {}

  /** Exactly such names lose their underscores; all others are not symbols. */
  lemma SymbolPrefixIs(us: string, n: string)
    requires (forall i :: 0 <= i < |us| ==> us[i] == '_') && (n != "" ==> n[0] != '_')
    ensures StripPrefix(us + n) ==
            if |n| > 2 && n[0] == 'M' && n[1] == '0' && 65 <= n[2] as int < 91 then Some(n) else None
  {
    TrimmedOfUnderscores(us, n);
    if |n| >= 3 {
      IdentCharsAre(n[2]);
      assert n[..2] == "M0" <==> n[0] == 'M' && n[1] == '0' by {
        assert n[..2] == [n[0], n[1]];
      }
    }
  }

  ghost predicate IsName(id: string) {
    && 1 <= |id| <= 64 && !(48 <= id[0] as int < 58)
    && forall i :: 0 <= i < |id| ==>
         var n := id[i] as int; n == 95 || 48 <= n < 58 || 65 <= n < 91 || 97 <= n < 123
  }

  /** A segment is a name behind its own length: up to 64 letters, digits and underscores, the first no digit. */
  lemma SegmentFound(before: string, id: string)
    requires IsName(id)
    ensures |id| <= Longest(before + Decimal(|id|) + id)
  {
    hide Decimal;
    hide Longest;
    var s, d := before + Decimal(|id|) + id, Decimal(|id|);
    forall i | 0 <= i < |id|
      ensures IsIdentChar(id[i])
    {
      IdentCharsAre(id[i]);
    }
    IdentCharsAre(id[0]);
    assert s[|s| - |id|..] == id && s[..|s| - |id|] == before + d && (before + d)[|before|..] == d;
    DecimalLength(|id|);
    assert EndsWith(before + d, d) && IsIdent(id);
    assert EndsInSegment(s, |id|);
  }

  /** The longest such segment is the one that is found. */
  lemma SegmentReads(s: string)
    requires Longest(s) > 0
    ensures var n := Longest(s);
            n + |Decimal(n)| <= |s| && IsName(s[|s| - n..])
            && s == s[..|s| - n - |Decimal(n)|] + Decimal(n) + s[|s| - n..]
  {
    hide Decimal;
    hide Longest;
    var n := Longest(s);
    var id := s[|s| - n..];
    forall i | 0 <= i < |id|
      ensures var k := id[i] as int; k == 95 || 48 <= k < 58 || 65 <= k < 91 || 97 <= k < 123
    {
      IdentCharsAre(id[i]);
    }
    IdentCharsAre(id[0]);
    LongestFits(s);
  }

  /** The segment is peeled off and the rest is read on, from the back. */
  lemma LastPartPeeled(before: string, id: string, limit: nat)
    requires Longest(before + Decimal(|id|) + id) == |id| > 0 && limit > 0
    ensures PartsOf(before + Decimal(|id|) + id, limit) == PartsOf(before, limit - 1) + [id]
  {
    hide Longest;
    var s, d := before + Decimal(|id|) + id, Decimal(|id|);
    assert s[|s| - |id|..] == id && s[..|s| - |id| - |d|] == before;
  }

  ghost function Demangled(name: string): string {
    var inner := StripPrefix(name);
    if inner.None? then name
    else
      var parts := PartsOf(Stripped(inner.value), MAX_SEGMENTS);
      if parts == [] then name else Join(parts)
  }

  lemma PartsStep(s: string, limit: nat, i: nat, parts: seq<string>)
    requires 0 < i <= |s| && limit > 0 && Longest(s[..i]) > 0
    ensures var n := Longest(s[..i]);
            PartsOf(s[..i], limit) + parts == PartsOf(s[..i - n - |Decimal(n)|], limit - 1) + ([s[i - n..i]] + parts)
  {
    var n := Longest(s[..i]);
    assert s[..i][..i - n - |Decimal(n)|] == s[..i - n - |Decimal(n)|];
    assert s[..i][i - n..] == s[i - n..i];
  }

  /** `demangle`: the loop that peels segments off the end, against the parts they are. */
  method Demangle(name: string) returns (r: string)
    ensures r == Demangled(name)
  {
    hide Longest;
    hide PartsOf;
    hide Stripped;
    hide EndsInSegment;
    var stripped := StripPrefix(name);
    if stripped.None? {
      return name;
    }
    var inner := StripGenericSuffix(stripped.value);
    var parts: seq<string> := [];
    var i := |inner|;
    ghost var left := MAX_SEGMENTS;
    assert inner[..i] == inner;
    PartsEnd(inner[..i], 0);
    for k := 0 to MAX_SEGMENTS
      invariant 0 <= i <= |inner| && left == MAX_SEGMENTS - k
      invariant PartsOf(inner, MAX_SEGMENTS) == PartsOf(inner[..i], left) + parts
    {
      PartsEnd(inner[..i], left);
      if i == 0 {
        break;
      }
      var found := FindSegmentEnd(inner, i);
      if found.None? {
        break;
      }
      PartsStep(inner, left, i, parts);
      parts := [inner[found.value.0..i]] + parts;
      i, left := found.value.1, left - 1;
    }
    PartsEnd(inner[..i], left);
    assert PartsOf(inner, MAX_SEGMENTS) == parts;
    if parts == [] {
      r := name;
    } else {
      r := Join(parts);
    }
  }

  lemma PartsEnd(s: string, limit: nat)
    ensures limit == 0 || s == [] || Longest(s) == 0 ==> PartsOf(s, limit) == []
  {}

  // ---------------------------------------------------------------- mangling

  predicate PlainChar(c: char) {
    c == '_' || IsLetter(c)
  }

  predicate PlainIdent(s: string) {
    1 <= |s| <= 64 && forall i :: 0 <= i < |s| ==> PlainChar(s[i])
  }

  predicate AllPlain(ids: seq<string>) {
    forall k :: 0 <= k < |ids| ==> PlainIdent(ids[k])
  }

  predicate AllDigits(s: string) {
    forall i :: 0 <= i < |s| ==> IsDigit(s[i])
  }

  /** Each identifier behind its own length. */
  function Segments(ids: seq<string>): string {
    if ids == [] then "" else Segments(ids[..|ids| - 1]) + Decimal(|ids[|ids| - 1]|) + ids[|ids| - 1]
  }

  /** A mangled symbol: leading underscores, `M0`, letter markers, perhaps a namespace count glued to the first length,
      the path, and perhaps a generic instantiation. */
  datatype Symbol = Symbol(underscores: nat, markers: string, lead: string, ids: seq<string>, generic: Option<string>)

  predicate WellFormed(y: Symbol) {
    && y.markers != "" && IsUpper(y.markers[0]) && AllLetters(y.markers) && AllDigits(y.lead)
    && 1 <= |y.ids| <= 50 && AllPlain(y.ids)
    && (y.generic.Some? ==> AllLetters(y.generic.value) && Free(y.generic.value, 'G'))
  }

  function Head(markers: string, lead: string): string {
    "M0" + markers + lead
  }

  function Core(y: Symbol): string {
    Head(y.markers, y.lead) + Segments(y.ids)
  }

  function Underscores(n: nat): string {
    if n == 0 then "" else "_" + Underscores(n - 1)
  }

  function Mangle(y: Symbol): string {
    Underscores(y.underscores) + (Core(y) + if y.generic.Some? then "G" + y.generic.value + "E" else "")
  }

  /** From the first identifier's first byte to the end of the `k`-th identifier. */
  function Span(ids: seq<string>, k: nat): int
    requires 1 <= k <= |ids|
  {
    |Segments(ids[..k])| - |Decimal(|ids[0]|)|
  }

  /** The last digit of the namespace count and the first length together spell that span. */
  predicate GluedAt(lead: string, ids: seq<string>, k: nat) {
    && 1 <= k <= |ids| && lead != "" && 1 <= Span(ids, k) <= 64
    && Decimal(Span(ids, k)) == [lead[|lead| - 1]] + Decimal(|ids[0]|)
  }

  ghost predicate Glued(lead: string, ids: seq<string>) {
    exists k :: GluedAt(lead, ids, k)
  }

  // ----------------------------------------------- where a segment can start

  /** A digit just before `q`, and none at `q`. */
  predicate Boundary(s: string, q: nat) {
    0 < q < |s| && IsDigit(s[q - 1]) && !IsDigit(s[q])
  }

  lemma SegmentBoundary(s: string, n: nat)
    requires EndsInSegment(s, n)
    ensures 0 < |s| - n && Boundary(s, |s| - n)
  {
    DecimalLength(n);
    DecimalIsDigits(n);
    var t, d := s[..|s| - n], Decimal(n);
    assert t[|t| - |d|..][|d| - 1] == t[|t| - 1] == s[|s| - n - 1];
    assert d[|d| - 1] in d;
    assert s[|s| - n..][0] == s[|s| - n];
  }

  /** Where the `m`-th identifier starts. */
  function StartOf(head: string, ids: seq<string>, m: nat): nat
    requires 1 <= m <= |ids|
  {
    |head| + |Segments(ids[..m - 1])| + |Decimal(|ids[m - 1]|)|
  }

  /** A digit-to-letter boundary is in the head, or at an identifier's start. */
  lemma {:induction false} Starts(head: string, ids: seq<string>, q: nat)
    requires AllPlain(ids) && Boundary(head + Segments(ids), q)
    ensures Boundary(head, q) || exists m :: 1 <= m <= |ids| && q == StartOf(head, ids, m)
  {
    var s := head + Segments(ids);
    if ids == [] {
      assert s == head;
    } else {
      var init, last := ids[..|ids| - 1], ids[|ids| - 1];
      var before, d := head + Segments(init), Decimal(|last|);
      assert s == before + d + last;
      DecimalIsDigits(|last|);
      hide Segments;
      assert d[0] in d;
      if q < |before| {
        assert Boundary(before, q);
        Starts(head, init, q);
        if !Boundary(head, q) {
          var m :| 1 <= m <= |init| && q == StartOf(head, init, m);
          assert ids[..m - 1] == init[..m - 1];
          assert q == StartOf(head, ids, m);
        }
      } else {
        LastStart(before, d, last, q);
        assert q == StartOf(head, ids, |ids|);
      }
    }
  }

  lemma LastStart(before: string, d: string, last: string, q: nat)
    requires d != "" && (forall c :: c in d ==> IsDigit(c)) && PlainIdent(last)
    requires Boundary(before + d + last, q) && q >= |before|
    ensures q == |before| + |d|
  {
    var s := before + d + last;
    forall i | |before| <= i < |before| + |d|
      ensures IsDigit(s[i])
    {
      assert s[i] == d[i - |before|];
      assert d[i - |before|] in d;
    }
    forall i | |before| + |d| <= i < |s|
      ensures !IsDigit(s[i])
    {
      assert s[i] == last[i - |before| - |d|];
    }
  }

  lemma HeadBoundary(markers: string, lead: string, q: nat)
    requires AllLetters(markers) && markers != "" && AllDigits(lead) && Boundary(Head(markers, lead), q)
    ensures q == 2
  {
    var s := Head(markers, lead);
    assert s[0] == 'M' && s[1] == '0';
    forall i | 2 <= i < 2 + |markers|
      ensures !IsDigit(s[i])
    {
      assert s[i] == markers[i - 2];
    }
    forall i | 2 + |markers| <= i < |s|
      ensures IsDigit(s[i])
    {
      assert s[i] == lead[i - 2 - |markers|];
    }
  }

  /** No length is written with a leading zero, so none ends right after `M0`. */
  lemma NoLeadingZero(n: nat)
    requires 1 <= n <= MAX_SEGMENT_LEN
    ensures Decimal(n)[0] != '0' && IsDigit(Decimal(n)[0]) && !EndsWith("M0", Decimal(n))
  {
    DecimalLength(n);
    DecimalIsDigits(n);
    assert Decimal(n)[0] in Decimal(n);
    assert "M0"[1..][0] == '0' && "M0"[0..][0] == 'M';
    assert n >= 10 ==> Decimal(n) == [Digit(n / 10)] + [Digit(n % 10)] by {
      assert n >= 10 ==> Digits(n / 10, 10) == [Digit(n / 10)];
    }
  }

  lemma NotAfterZero(s: string, n: nat)
    requires |s| > 2 && s[..2] == "M0" && |s| - n == 2
    ensures !EndsInSegment(s, n)
  {
    hide Decimal;
    hide EndsWith;
    if 1 <= n <= MAX_SEGMENT_LEN {
      NoLeadingZero(n);
    }
  }

  // --------------------------------------------------- which length can match

  lemma {:induction false} SegmentsGrow(ids: seq<string>, m: nat)
    requires m <= |ids|
    ensures |Segments(ids[..m])| <= |Segments(ids)|
            && (m < |ids| && AllPlain(ids) ==> |Segments(ids[..m])| < |Segments(ids)|)
    ensures Segments(ids)[..|Segments(ids[..m])|] == Segments(ids[..m])
  {
    if m == |ids| {
      assert ids[..m] == ids;
    } else {
      var init := ids[..|ids| - 1];
      SegmentsGrow(init, m);
      assert init[..m] == ids[..m];
      assert Segments(ids)[..|Segments(init)|] == Segments(init);
    }
  }

  lemma SegmentsNext(ids: seq<string>, m: nat)
    requires 1 <= m <= |ids|
    ensures Segments(ids[..m]) == Segments(ids[..m - 1]) + Decimal(|ids[m - 1]|) + ids[m - 1]
  {
    assert ids[..m][..m - 1] == ids[..m - 1];
  }

  /** A length no smaller than the one just written can only be that one, unless a digit before it joins in. */
  lemma OwnLength(base: string, own: nat, n: nat)
    requires 1 <= own <= n <= MAX_SEGMENT_LEN && EndsWith(base + Decimal(own), Decimal(n))
    ensures n == own || (base != "" && IsDigit(base[|base| - 1]) && Decimal(n) == [base[|base| - 1]] + Decimal(own))
  {
    var d, e, t := Decimal(own), Decimal(n), base + Decimal(own);
    DecimalLength(own);
    DecimalLength(n);
    DecimalIsDigits(n);
    if |d| == |e| {
      assert t[|t| - |e|..] == d;
      DecimalInjective(own, n);
    } else {
      assert e == t[|t| - 2..] == [t[|t| - 2]] + d;
      assert e[0] in e;
    }
  }

  lemma BeforeLengths(markers: string, lead: string, ids: seq<string>, m: nat)
    requires AllLetters(markers) && markers != "" && AllDigits(lead) && AllPlain(ids) && 1 <= m <= |ids|
    ensures var base := Head(markers, lead) + Segments(ids[..m - 1]);
            base != "" && (IsDigit(base[|base| - 1]) ==> m == 1 && lead != "" && base[|base| - 1] == lead[|lead| - 1])
  {
    var base := Head(markers, lead) + Segments(ids[..m - 1]);
    if m > 1 {
      SegmentsNext(ids, m - 1);
      assert base[|base| - 1] == ids[m - 2][|ids[m - 2]| - 1];
    } else if lead == "" {
      assert base == "M0" + markers;
      assert base[|base| - 1] == markers[|markers| - 1];
    } else {
      assert base == "M0" + markers + lead;
    }
  }

  /** The text up to an identifier's start, and what is left after it. */
  lemma CutAtStart(head: string, ids: seq<string>, m: nat)
    requires AllPlain(ids) && 1 <= m <= |ids|
    ensures var s, q := head + Segments(ids), StartOf(head, ids, m);
            && q <= |s| && s[..q] == head + Segments(ids[..m - 1]) + Decimal(|ids[m - 1]|)
            && |s| - q >= |ids[m - 1]| && (|s| - q == |ids[m - 1]| <==> m == |ids|)
  {
    SegmentsNext(ids, m);
    SegmentsGrow(ids, m);
    assert ids[..|ids|] == ids;
    var s, q, upTo := head + Segments(ids), StartOf(head, ids, m), Segments(ids[..m]);
    assert upTo[..q - |head|] == Segments(ids[..m - 1]) + Decimal(|ids[m - 1]|);
    assert Segments(ids)[..q - |head|] == upTo[..q - |head|];
    assert s[..q] == head + Segments(ids)[..q - |head|];
  }

  lemma MatchAtStart(markers: string, lead: string, ids: seq<string>, n: nat, m: nat)
    requires AllLetters(markers) && markers != "" && AllDigits(lead) && AllPlain(ids) && 1 <= m <= |ids|
    requires |Head(markers, lead) + Segments(ids)| - n == StartOf(Head(markers, lead), ids, m)
    requires EndsInSegment(Head(markers, lead) + Segments(ids), n)
    ensures n == |ids[|ids| - 1]| || (GluedAt(lead, ids, |ids|) && n == Span(ids, |ids|))
  {
    hide Segments;
    hide Decimal;
    hide IsIdent;
    hide Head;
    hide EndsWith;
    var head := Head(markers, lead);
    CutAtStart(head, ids, m);
    OwnLength(head + Segments(ids[..m - 1]), |ids[m - 1]|, n);
    BeforeLengths(markers, lead, ids, m);
    assert ids[..|ids|] == ids;
    NothingBefore(ids);
  }

  /** The mangled text ends in its own last segment, and otherwise only in a glued span. */
  lemma SegmentLengths(markers: string, lead: string, ids: seq<string>, n: nat)
    requires AllLetters(markers) && markers != "" && AllDigits(lead) && AllPlain(ids) && ids != []
    requires EndsInSegment(Head(markers, lead) + Segments(ids), n)
    ensures n == |ids[|ids| - 1]| || (GluedAt(lead, ids, |ids|) && n == Span(ids, |ids|))
  {
    hide Segments;
    hide Decimal;
    hide EndsInSegment;
    hide Head;
    hide GluedAt;
    hide Boundary;
    hide StartOf;
    hide Span;
    hide AllPlain;
    var s := Head(markers, lead) + Segments(ids);
    SegmentBoundary(s, n);
    Starts(Head(markers, lead), ids, |s| - n);
    if Boundary(Head(markers, lead), |s| - n) {
      HeadBoundary(markers, lead, |s| - n);
      HeadStarts(markers, lead, ids);
      NotAfterZero(s, n);
    } else {
      var m :| 1 <= m <= |ids| && |s| - n == StartOf(Head(markers, lead), ids, m);
      MatchAtStart(markers, lead, ids, n, m);
    }
  }

  lemma HeadStarts(markers: string, lead: string, ids: seq<string>)
    requires markers != ""
    ensures var s := Head(markers, lead) + Segments(ids);
            |s| > 2 && s[..2] == "M0"
  {}

  lemma NothingBefore(ids: seq<string>)
    ensures Segments(ids[..0]) == ""
  {}

  lemma SegmentText(before: string, d: string, last: string)
    requires PlainIdent(last) && d == Decimal(|last|)
    ensures var s := before + d + last;
            EndsInSegment(s, |last|) && s[|s| - |last|..] == last && s[..|s| - |last| - |d|] == before
  {
    DecimalLength(|last|);
    hide Decimal;
    var s := before + d + last;
    assert s[|s| - |last|..] == last && s[..|s| - |last|] == before + d;
    assert (before + d)[|before|..] == d && s[..|before|] == before;
  }

  lemma SegmentsSnoc(ids: seq<string>)
    requires ids != []
    ensures Segments(ids) == Segments(ids[..|ids| - 1]) + Decimal(|ids[|ids| - 1]|) + ids[|ids| - 1]
  {}

  lemma LastSegment(head: string, ids: seq<string>)
    requires ids != [] && AllPlain(ids)
    ensures var s, last := head + Segments(ids), ids[|ids| - 1];
            && EndsInSegment(s, |last|) && s[|s| - |last|..] == last
            && s[..|s| - |last| - |Decimal(|last|)|] == head + Segments(ids[..|ids| - 1])
  {
    hide Segments;
    hide Decimal;
    hide EndsInSegment;
    var init, last := ids[..|ids| - 1], ids[|ids| - 1];
    var d := Decimal(|last|);
    SegmentsSnoc(ids);
    assert head + (Segments(init) + d + last) == head + Segments(init) + d + last;
    SegmentText(head + Segments(init), d, last);
  }

  lemma PartsPeel(s: string, limit: nat, n: nat)
    requires limit > 0 && n == Longest(s) > 0
    ensures PartsOf(s, limit) == PartsOf(s[..|s| - n - |Decimal(n)|], limit - 1) + [s[|s| - n..]]
  {}

  predicate HasDigit(s: string) {
    exists i :: 0 <= i < |s| && IsDigit(s[i])
  }

  lemma GluedLater(lead: string, ids: seq<string>)
    requires ids != [] && GluedAt(lead, ids, |ids|)
    ensures |ids| >= 2
  {
    if |ids| == 1 {
      assert ids[..1] == ids && ids[..0] == [];
      assert Segments(ids) == "" + Decimal(|ids[0]|) + ids[0];
    }
  }

  /** What follows the first length: the span, which holds the last identifier's own length. */
  lemma SpanText(head: string, ids: seq<string>)
    requires |ids| >= 2 && AllPlain(ids)
    ensures var s, d, n := head + Segments(ids), Decimal(|ids[0]|), Span(ids, |ids|);
            && |ids[|ids| - 1]| < n <= |Segments(ids)| && n < |s| && s[..|s| - n] == head + d && s[|s| - n] == ids[0][0]
            && HasDigit(s[|s| - n..])
  {
    hide Segments;
    hide Decimal;
    hide Digits;
    hide HasDigit;
    assert ids[..|ids|] == ids;
    SegmentsNext(ids, 1);
    NothingBefore(ids);
    SegmentsGrow(ids, 1);
    var d := Decimal(|ids[0]|);
    DecimalLength(|ids[0]|);
    AfterLength(head, d, ids[0], Segments(ids[..1]), Segments(ids));
    LastLengthInside(head, ids, Span(ids, |ids|));
  }

  lemma AfterLength(head: string, d: string, first: string, one: string, all: string)
    requires first != "" && one == "" + d + first && |one| <= |all| && all[..|one|] == one
    ensures var s, n := head + all, |all| - |d|;
            0 < n && |s| - n == |head| + |d| && s[..|s| - n] == head + d && s[|s| - n] == first[0]
  {
    var s := head + all;
    assert one == d + first;
    assert all[..|d|] == one[..|d|] == d;
    assert s[|head| + |d|] == all[|d|] == one[|d|];
  }

  lemma LastLengthInside(head: string, ids: seq<string>, n: nat)
    requires |ids| >= 2 && AllPlain(ids) && n == Span(ids, |ids|) <= |head + Segments(ids)|
    ensures |ids[|ids| - 1]| < n && HasDigit((head + Segments(ids))[|head + Segments(ids)| - n..])
  {
    var s, init, last := head + Segments(ids), ids[..|ids| - 1], ids[|ids| - 1];
    var d := Decimal(|last|);
    assert s == head + Segments(init) + d + last;
    assert ids[..|ids|] == ids;
    SegmentsNext(init, 1);
    assert init[0] == ids[0] && init[..0] == [];
    SegmentsGrow(init, 1);
    var at := |head| + |Segments(init)|;
    DecimalIsDigits(|last|);
    assert d[0] in d;
    assert s[at] == d[0];
    assert s[|s| - n..][at - (|s| - n)] == s[at];
  }

  lemma {:induction false} SegmentChars(ids: seq<string>, i: nat)
    requires AllPlain(ids) && i < |Segments(ids)|
    ensures IsIdentChar(Segments(ids)[i])
  {
    var init, last := ids[..|ids| - 1], ids[|ids| - 1];
    var before, d := Segments(init), Decimal(|last|);
    assert Segments(ids) == before + d + last;
    if i < |before| {
      SegmentChars(init, i);
    } else if i < |before| + |d| {
      DecimalIsDigits(|last|);
      assert d[i - |before|] in d;
    } else {
      assert PlainChar(last[i - |before| - |d|]);
    }
  }

  /** A glued span is itself a segment. */
  lemma GluedSegment(markers: string, lead: string, ids: seq<string>)
    requires AllPlain(ids) && ids != [] && GluedAt(lead, ids, |ids|)
    ensures var s, n := Head(markers, lead) + Segments(ids), Span(ids, |ids|);
            n > |ids[|ids| - 1]| && EndsInSegment(s, n) && HasDigit(s[|s| - n..])
  {
    hide Segments;
    hide Span;
    hide Decimal;
    hide Digits;
    hide Head;
    hide HasDigit;
    hide IsIdent;
    hide EndsWith;
    hide AllPlain;
    hide GluedAt;
    hide EndsInSegment;
    var s, n := Head(markers, lead) + Segments(ids), Span(ids, |ids|);
    GluedLater(lead, ids);
    GluedMeans(lead, ids);
    SpanText(Head(markers, lead), ids);
    SpanIdent(Head(markers, lead), ids, n);
    GluedText(markers, lead, s[..|s| - n], Decimal(|ids[0]|), Decimal(n));
    EndsHere(s, n);
  }

  lemma GluedMeans(lead: string, ids: seq<string>)
    requires ids != [] && GluedAt(lead, ids, |ids|)
    ensures lead != "" && 1 <= Span(ids, |ids|) <= MAX_SEGMENT_LEN
    ensures Decimal(Span(ids, |ids|)) == [lead[|lead| - 1]] + Decimal(|ids[0]|)
  {}

  lemma EndsHere(s: string, n: nat)
    requires 1 <= n <= MAX_SEGMENT_LEN && n < |s| && IsIdent(s[|s| - n..]) && EndsWith(s[..|s| - n], Decimal(n))
    ensures EndsInSegment(s, n)
  {}

  lemma SpanIdent(head: string, ids: seq<string>, n: nat)
    requires AllPlain(ids) && ids != [] && 0 < n <= |Segments(ids)|
             && (head + Segments(ids))[|head + Segments(ids)| - n] == ids[0][0]
    ensures IsIdent((head + Segments(ids))[|head + Segments(ids)| - n..])
  {
    hide Segments;
    var s := head + Segments(ids);
    forall i | |s| - n <= i < |s|
      ensures IsIdentChar(s[i])
    {
      SegmentChars(ids, i - |head|);
      assert s[i] == Segments(ids)[i - |head|];
    }
    assert PlainChar(ids[0][0]);
  }

  lemma GluedText(markers: string, lead: string, t: string, d: string, e: string)
    requires lead != "" && t == Head(markers, lead) + d && e == [lead[|lead| - 1]] + d
    ensures EndsWith(t, e)
  {
    assert t == ("M0" + markers + lead[..|lead| - 1]) + e;
  }

  /** The greedy choice at the end of the mangled text. */
  lemma LongestSegment(markers: string, lead: string, ids: seq<string>)
    requires AllLetters(markers) && markers != "" && AllDigits(lead) && AllPlain(ids) && ids != []
    ensures Longest(Head(markers, lead) + Segments(ids)) ==
            if GluedAt(lead, ids, |ids|) then Span(ids, |ids|) else |ids[|ids| - 1]|
  {
    hide Segments;
    hide EndsInSegment;
    hide Head;
    hide LongestUpTo;
    hide GluedAt;
    hide Span;
    var s := Head(markers, lead) + Segments(ids);
    LastSegment(Head(markers, lead), ids);
    SegmentLengths(markers, lead, ids, Longest(s));
    if GluedAt(lead, ids, |ids|) {
      GluedSegment(markers, lead, ids);
    }
  }

  lemma NoSegmentInHead(markers: string, lead: string)
    requires AllLetters(markers) && markers != "" && AllDigits(lead)
    ensures Longest(Head(markers, lead)) == 0
  {
    var s, n := Head(markers, lead), Longest(Head(markers, lead));
    hide Longest;
    if n > 0 {
      SegmentBoundary(s, n);
      HeadBoundary(markers, lead, |s| - n);
      HeadStarts(markers, lead, []);
      assert s + Segments([]) == s;
      NotAfterZero(s, n);
    }
  }

  lemma GluedInit(lead: string, ids: seq<string>)
    requires ids != []
    ensures Glued(lead, ids) <==> GluedAt(lead, ids, |ids|) || Glued(lead, ids[..|ids| - 1])
  {
    var init := ids[..|ids| - 1];
    forall k | 1 <= k < |ids|
      ensures GluedAt(lead, ids, k) <==> GluedAt(lead, init, k)
    {
      assert ids[..k] == init[..k];
    }
  }

  /** Without glue the parts are the identifiers. */
  lemma {:induction false} PartsAreIds(markers: string, lead: string, ids: seq<string>, limit: nat)
    requires AllLetters(markers) && markers != "" && AllDigits(lead) && AllPlain(ids) && |ids| <= limit
    requires !Glued(lead, ids)
    ensures PartsOf(Head(markers, lead) + Segments(ids), limit) == ids
  {
    hide Head;
    hide Glued;
    hide GluedAt;
    hide Span;
    hide Longest;
    hide EndsInSegment;
    hide PartsOf;
    var s := Head(markers, lead) + Segments(ids);
    if ids == [] {
      NoSegmentInHead(markers, lead);
      assert s == Head(markers, lead);
      PartsEnd(s, limit);
    } else {
      hide Segments;
      GluedInit(lead, ids);
      LongestSegment(markers, lead, ids);
      LastSegment(Head(markers, lead), ids);
      PartsPeel(s, limit, |ids[|ids| - 1]|);
      PartsAreIds(markers, lead, ids[..|ids| - 1], limit - 1);
    }
  }

  /** With glue some part swallows a length. */
  lemma {:induction false} GluedParts(markers: string, lead: string, ids: seq<string>, limit: nat)
    requires AllLetters(markers) && markers != "" && AllDigits(lead) && AllPlain(ids) && |ids| <= limit
    requires Glued(lead, ids)
    ensures exists k :: 0 <= k < |PartsOf(Head(markers, lead) + Segments(ids), limit)| &&
                        HasDigit(PartsOf(Head(markers, lead) + Segments(ids), limit)[k])
    decreases |ids|
  {
    hide Head;
    hide Segments;
    hide GluedAt;
    hide Span;
    hide Longest;
    hide EndsInSegment;
    hide HasDigit;
    hide PartsOf;
    hide Glued;
    var s := Head(markers, lead) + Segments(ids);
    SomeId(lead, ids);
    GluedInit(lead, ids);
    LongestSegment(markers, lead, ids);
    LastSegment(Head(markers, lead), ids);
    var parts := PartsOf(s, limit);
    if GluedAt(lead, ids, |ids|) {
      GluedSegment(markers, lead, ids);
      PartsPeel(s, limit, Span(ids, |ids|));
      assert HasDigit(parts[|parts| - 1]);
    } else {
      var before := PartsOf(Head(markers, lead) + Segments(ids[..|ids| - 1]), limit - 1);
      PartsPeel(s, limit, |ids[|ids| - 1]|);
      GluedParts(markers, lead, ids[..|ids| - 1], limit - 1);
      var k :| 0 <= k < |before| && HasDigit(before[k]);
      assert parts[k] == before[k];
    }
  }

  lemma SomeId(lead: string, ids: seq<string>)
    requires Glued(lead, ids)
    ensures ids != []
  {}

  // ------------------------------------------------------------ joined parts

  lemma HasDigitAppend(a: string, b: string)
    ensures HasDigit(a + b) <==> HasDigit(a) || HasDigit(b)
  {
    if HasDigit(a) {
      var i :| 0 <= i < |a| && IsDigit(a[i]);
      assert IsDigit((a + b)[i]);
    }
    if HasDigit(b) {
      var i :| 0 <= i < |b| && IsDigit(b[i]);
      assert IsDigit((a + b)[|a| + i]);
    }
  }

  /** A digit in the joined path comes from a part. */
  lemma {:induction false} JoinDigits(parts: seq<string>)
    ensures HasDigit(Join(parts)) <==> exists k :: 0 <= k < |parts| && HasDigit(parts[k])
  {
    if |parts| > 1 {
      var init, last := parts[..|parts| - 1], parts[|parts| - 1];
      JoinDigits(init);
      HasDigitAppend(Join(init), "::");
      HasDigitAppend(Join(init) + "::", last);
      assert !HasDigit("::");
      hide HasDigit;
      forall k | 0 <= k < |parts| && HasDigit(parts[k])
        ensures HasDigit(Join(init)) || HasDigit(last)
      {
        if k < |init| {
          assert HasDigit(init[k]);
        }
      }
      if HasDigit(Join(init)) {
        var k :| 0 <= k < |init| && HasDigit(init[k]);
        assert HasDigit(parts[k]);
      }
    }
  }

  lemma PlainHasNoDigit(ids: seq<string>)
    requires AllPlain(ids)
    ensures !HasDigit(Join(ids))
  {
    JoinDigits(ids);
    forall k | 0 <= k < |ids|
      ensures !HasDigit(ids[k])
    {
      assert forall i :: 0 <= i < |ids[k]| ==> PlainChar(ids[k][i]);
    }
  }

  lemma JoinEnds(parts: seq<string>)
    requires parts != []
    ensures var s, last := Join(parts), parts[|parts| - 1];
            EndsWith(s, last) && (|s| > |last| ==> s[|s| - |last| - 1] == ':')
  {
    var s, last := Join(parts), parts[|parts| - 1];
    if |parts| > 1 {
      var init := Join(parts[..|parts| - 1]) + "::";
      assert s == init + last;
      assert s[|init|..] == last;
    }
  }

  /** The last part can be read off the joined path: it is what follows the last colon. */
  lemma JoinLast(a: seq<string>, b: seq<string>)
    requires a != [] && b != [] && Free(a[|a| - 1], ':') && Free(b[|b| - 1], ':') && Join(a) == Join(b)
    ensures a[|a| - 1] == b[|b| - 1]
  {
    var s, x, y := Join(a), a[|a| - 1], b[|b| - 1];
    JoinEnds(a);
    JoinEnds(b);
    hide Join;
    ColonFreeTails(s, x, y);
    ColonFreeTails(s, y, x);
  }

  lemma ColonFreeTails(s: string, x: string, y: string)
    requires EndsWith(s, x) && EndsWith(s, y) && Free(y, ':') && (|s| > |x| ==> s[|s| - |x| - 1] == ':')
    ensures |y| <= |x|
  {
    forall i | |s| - |y| <= i < |s|
      ensures s[i] != ':'
    {
      assert s[|s| - |y|..][i - (|s| - |y|)] == s[i];
    }
  }

  // -------------------------------------------------------------- the theorem

  lemma {:induction false} TrimAll(n: nat, s: string)
    requires s == "" || s[0] != '_'
    ensures TrimUnderscores(Underscores(n) + s) == s
  {
    if n == 0 {
      assert Underscores(0) + s == s;
    } else {
      var t := Underscores(n) + s;
      assert t[0] == '_' && t[1..] == Underscores(n - 1) + s;
      TrimAll(n - 1, s);
    }
  }

  function GenericText(y: Symbol): string {
    if y.generic.Some? then "G" + y.generic.value + "E" else ""
  }

  lemma PrefixStripped(y: Symbol)
    requires WellFormed(y)
    ensures StripPrefix(Mangle(y)) == Some(Core(y) + GenericText(y))
  {
    hide Segments;
    var inner := Core(y) + GenericText(y);
    assert inner[0] == 'M' && inner[1] == '0' && inner[2] == y.markers[0];
    assert inner[..2] == "M0";
    TrimAll(y.underscores, inner);
  }

  /** A generic suffix written by the mangler is cut, and only it. */
  lemma GenericCut(core: string, w: string)
    requires core != "" && AllLetters(w) && Free(w, 'G')
    ensures Stripped(core + ("G" + w + "E")) == core
  {
    var s := core + ("G" + w + "E");
    assert s[|core| + 1..|s| - 1] == w;
    assert GenericAt(s, |core|);
    assert s[..|core|] == core;
  }

  /** Without one, a cut falls into the last identifier: exactly where that identifier itself looks generic. */
  lemma TailInLast(before: string, last: string, g: nat)
    requires before != "" && IsDigit(before[|before| - 1]) && last != "" && |before + last| >= 3
    ensures GenericAt(before + last, g) <==> g >= |before| && GenericTail(last, g - |before|)
  {
    var s := before + last;
    if g < |before| - 1 && g < |s| - 1 {
      assert s[|before| - 1] == before[|before| - 1];
      if GenericAt(s, g) {
        AfterG(s, g, |before| - 1);
      }
    } else if g == |before| - 1 {
      assert s[g] == before[g];
    } else if |before| <= g < |s| - 1 {
      assert s[g + 1..|s| - 1] == last[g + 1 - |before|..|last| - 1];
    }
  }

  /** The last identifier itself ends like a generic instantiation. */
  ghost predicate LooksGeneric(last: string) {
    exists g: nat :: GenericTail(last, g)
  }

  /** The core of a symbol: everything up to the last identifier ends in a digit. */
  lemma CoreSplit(y: Symbol) returns (before: string)
    requires WellFormed(y)
    ensures var last := y.ids[|y.ids| - 1];
            && Core(y) == before + last && |Core(y)| >= 3 && before != "" && IsDigit(before[|before| - 1])
            && last != "" && last[0] in last && !HasDigit(last) && Free(last, ':')
  {
    var ids := y.ids;
    var last := ids[|ids| - 1];
    var d := Decimal(|last|);
    DecimalIsDigits(|last|);
    before := Head(y.markers, y.lead) + Segments(ids[..|ids| - 1]) + d;
    assert d[|d| - 1] in d;
    assert before[|before| - 1] == d[|d| - 1];
    assert Core(y) == before + last;
    assert forall i :: 0 <= i < |last| ==> PlainChar(last[i]);
  }

  /** What is left of a text cut inside its last identifier ends in no segment equal to that identifier. */
  lemma CutLosesLast(before: string, last: string, g: nat, n: nat)
    requires before != "" && IsDigit(before[|before| - 1]) && g < |last|
    requires EndsInSegment(before + last[..g], n)
    ensures var part := (before + last[..g])[|before + last[..g]| - n..];
            (HasDigit(part) || part != last) && Free(part, ':')
  {
    var s := before + last[..g];
    var q := |s| - n;
    var part := s[q..];
    assert IsIdent(part);
    SegmentBoundary(s, n);
    if q < |before| {
      assert part[|before| - 1 - q] == before[|before| - 1];
    } else {
      assert |part| <= g;
    }
  }

  /** If the last identifier looks generic, it is cut, and the path does not come back. */
  lemma CutFails(y: Symbol)
    requires WellFormed(y) && y.generic.None? && LooksGeneric(y.ids[|y.ids| - 1])
    ensures Demangled(Mangle(y)) != Join(y.ids)
  {
    hide Segments;
    hide Longest;
    hide EndsInSegment;
    hide Join;
    hide Mangle;
    hide Core;
    hide Underscores;
    hide GenericAt;
    hide HasDigit;
    hide StripPrefix;
    hide IsDigit;
    hide PlainIdent;
    var last := y.ids[|y.ids| - 1];
    PrefixStripped(y);
    assert Core(y) + "" == Core(y);
    var before := CoreSplit(y);
    var g: nat :| GenericTail(last, g);
    TailInLast(before, last, |before| + g);
    var s := before + last[..g];
    assert Core(y)[..|before| + g] == s;
    assert Stripped(Core(y)) == s;
    PlainHasNoDigit(y.ids);
    var parts := PartsOf(s, MAX_SEGMENTS);
    if parts == [] {
      MangledHasDigit(y);
    } else {
      JoinDigits(parts);
      var part := parts[|parts| - 1];
      CutLosesLast(before, last, g, Longest(s));
      if Join(parts) == Join(y.ids) {
        JoinLast(parts, y.ids);
      }
    }
  }

  lemma MangledHasDigit(y: Symbol)
    requires WellFormed(y)
    ensures HasDigit(Mangle(y))
  {
    hide Segments;
    assert Mangle(y)[|Underscores(y.underscores)| + 1] == '0';
  }

  /** Demangling inverts mangling exactly when no generic-looking last identifier is left bare and the namespace count
      does not glue onto the first length. */
  lemma DemangleInvertsMangle(y: Symbol)
    requires WellFormed(y)
    ensures Demangled(Mangle(y)) == Join(y.ids) <==>
            (y.generic.Some? || !LooksGeneric(y.ids[|y.ids| - 1])) && !Glued(y.lead, y.ids)
  {
    hide Segments;
    hide Longest;
    hide Join;
    hide PartsOf;
    hide Glued;
    hide Mangle;
    hide HasDigit;
    hide StripPrefix;
    hide GenericAt;
    hide LooksGeneric;
    hide Head;
    if y.generic.None? && LooksGeneric(y.ids[|y.ids| - 1]) {
      CutFails(y);
    } else {
      PrefixStripped(y);
      NothingMoreCut(y);
      if Glued(y.lead, y.ids) {
        GluedParts(y.markers, y.lead, y.ids, MAX_SEGMENTS);
        JoinDigits(PartsOf(Core(y), MAX_SEGMENTS));
        PlainHasNoDigit(y.ids);
      } else {
        PartsAreIds(y.markers, y.lead, y.ids, MAX_SEGMENTS);
      }
    }
  }

  lemma NothingMoreCut(y: Symbol)
    requires WellFormed(y) && (y.generic.Some? || !LooksGeneric(y.ids[|y.ids| - 1]))
    ensures Stripped(Core(y) + GenericText(y)) == Core(y)
  {
    hide GenericAt;
    hide GenericTail;
    hide Core;
    hide IsDigit;
    hide HasDigit;
    var before := CoreSplit(y);
    if y.generic.Some? {
      GenericCut(Core(y), y.generic.value);
    } else {
      assert Core(y) + "" == Core(y);
      forall g: nat
        ensures !GenericAt(Core(y), g)
      {
        TailInLast(before, y.ids[|y.ids| - 1], g);
      }
    }
  }

  /** `_M0FP13abc9ninechars`: the count 1 and the length 3 read as 13, the span of both identifiers, so the path comes
      back as one part. */
  lemma GlueHappens() returns (y: Symbol)
    ensures y.lead == "1" && y.ids == ["abc", "ninechars"] && y.generic.None?
    ensures WellFormed(y) && Demangled(Mangle(y)) != Join(y.ids)
  {
    y := Symbol(1, "FP", "1", ["abc", "ninechars"], None);
    assert AllPlain(y.ids);
    SegmentsNext(y.ids, 1);
    SegmentsNext(y.ids, 2);
    NothingBefore(y.ids);
    DecimalLength(3);
    DecimalLength(9);
    assert y.ids[..2] == y.ids;
    assert Span(y.ids, 2) == 13;
    assert Decimal(13) == Digits(1, 10) + [Digit(3)] == "1" + Decimal(3);
    assert GluedAt(y.lead, y.ids, 2);
    DemangleInvertsMangle(y);
  }

  /** `_M0FP5LoGsE`: a last identifier that itself ends like a generic instantiation is cut. */
  lemma BareGenericHappens() returns (y: Symbol)
    ensures y.lead == "" && y.ids == ["LoGsE"] && y.generic.None?
    ensures WellFormed(y) && Demangled(Mangle(y)) != Join(y.ids)
  {
    y := Symbol(1, "FP", "", ["LoGsE"], None);
    assert AllPlain(y.ids);
    assert GenericTail("LoGsE", 2) by {
      assert "LoGsE"[3..4] == "s";
    }
    DemangleInvertsMangle(y);
  }
}
