/** Threads that allocate through the hook of allocation mode, interleaved at
    the grain of one lock operation or one written byte, and the proof that the
    stream they leave holds each elected allocation once. */
module AllocRun {
  import opened Wrappers
  import opened RecordCodec
  import opened RetainedStream
  import opened AllocStream
  import opened Sampling
  import opened MapSums

  type Tid = nat

  /** Where a thread stands in the hook. A ticket is the number of a counted call, from 0. */
  datatype Pc =
    | Idle
    | Called(r: Sized)                  // the hook is entered
    | Counting(r: Sized)                // holds the mutex to bump the counter
    | Due(ticket: nat)                  // sampled, record built, waiting for the mutex
    | Writing(ticket: nat, n: nat)      // holds the mutex, n bytes written

  datatype State = State(
    rate: nat,
    threads: map<Tid, Pc>,
    mutex: Option<Tid>,
    counter: nat,
    electedCount: nat,
    stream: seq<Byte>,
    calls: seq<Sized>,                 // history: the counted calls
    order: seq<nat>,                   // history: the tickets written to the end, in order
    holders: map<nat, Tid>)            // history: who still owes a ticket's record

  predicate Elects(rate: nat, ticket: nat) {
    rate <= 1 || StartsGroup(ticket, rate)
  }

  /** A ticket whose record belongs in the stream. */
  predicate IsDue(s: State, ticket: nat) {
    ticket < |s.calls| && Elects(s.rate, ticket) && s.calls[ticket].frames != []
  }

  predicate HoldsMutex(pc: Pc) {
    pc.Counting? || pc.Writing?
  }

  function MoveTo(s: State, t: Tid, pc: Pc): State {
    s.(threads := s.threads[t := pc])
  }

  /** The kept frames of a backtrace, capped as the record builder caps them. */
  predicate Kept(r: Sized) {
    |r.frames| <= MAX_FRAMES && forall f :: f in r.frames ==> |f| <= NAME_CAP
  }

  datatype Action = Enter(r: Sized) | LockToCount | Count | LockToWrite | WriteByte | Unlock

  /** One step of thread `t`. */
  ghost predicate Next(s: State, s': State, t: Tid, a: Action) {
    t in s.threads &&
    var pc := s.threads[t];
    match a
    case Enter(r) => pc.Idle? && Kept(r) && s' == MoveTo(s, t, Called(r))
    case LockToCount => pc.Called? && s.mutex.None? && s' == MoveTo(s, t, Counting(pc.r)).(mutex := Some(t))
    case Count =>
      // n = ++counter; sample when rate <= 1 or (n - 1) % rate == 0; an empty backtrace writes nothing
      pc.Counting? &&
      var n, elect := s.counter, Elects(s.rate, s.counter);
      var owes := elect && pc.r.frames != [];
      s' == MoveTo(s, t, if owes then Due(n) else Idle)
            .(mutex := None, counter := n + 1, electedCount := s.electedCount + if elect then 1 else 0,
              calls := s.calls + [pc.r], holders := if owes then s.holders[n := t] else s.holders)
    case LockToWrite => pc.Due? && s.mutex.None? && s' == MoveTo(s, t, Writing(pc.ticket, 0)).(mutex := Some(t))
    case WriteByte =>
      pc.Writing? && pc.ticket < |s.calls| && Fits(s.calls[pc.ticket]) &&
      var bs := EncodeSized(s.calls[pc.ticket]);
      pc.n < |bs| &&
      var s1 := MoveTo(s, t, Writing(pc.ticket, pc.n + 1)).(stream := s.stream + [bs[pc.n]]);
      s' == if pc.n + 1 < |bs| then s1
            else s1.(order := s.order + [pc.ticket], holders := s.holders - {pc.ticket})
    case Unlock =>
      pc.Writing? && pc.ticket < |s.calls| && Fits(s.calls[pc.ticket])
      && pc.n == |EncodeSized(s.calls[pc.ticket])| && s' == MoveTo(s, t, Idle).(mutex := None)
  }

  ghost predicate Init(s: State) {
    && s.mutex.None? && s.counter == 0 && s.electedCount == 0 && s.stream == [] && s.calls == [] && s.order == []
    && s.holders == map[] && forall t :: t in s.threads ==> s.threads[t].Idle?
  }

  // -------------------------------------------------------------- invariant

  ghost predicate MutexInv(s: State) {
    && (s.mutex.Some? ==> s.mutex.value in s.threads && HoldsMutex(s.threads[s.mutex.value]))
    && forall t :: t in s.threads && HoldsMutex(s.threads[t]) ==> s.mutex == Some(t)
  }

  /** The counter counts, and every counted call fits a record. */
  ghost predicate CallInv(s: State) {
    && s.counter == |s.calls| && s.electedCount == ElectedBefore(s.rate, s.counter)
    && (forall n :: 0 <= n < |s.calls| ==> Kept(s.calls[n]))
    && forall t :: t in s.threads && (s.threads[t].Called? || s.threads[t].Counting?) ==> Kept(s.threads[t].r)
  }

  function ElectedBefore(rate: nat, n: nat): nat {
    if n == 0 then 0 else ElectedBefore(rate, n - 1) + if Elects(rate, n - 1) then 1 else 0
  }

  /** The thread still owes the record of its ticket. */
  predicate Owes(s: State, t: Tid, ticket: nat) {
    t in s.threads && ticket < |s.calls| && Fits(s.calls[ticket]) &&
    match s.threads[t]
    case Due(k) => k == ticket
    case Writing(k, n) => k == ticket && n < |EncodeSized(s.calls[ticket])|
    case _ => false
  }

  /** Written tickets are due, written once, and owed no more. */
  ghost predicate OrderInv(s: State) {
    && (forall k :: k in s.order ==> IsDue(s, k) && k !in s.holders)
    && forall i, j :: 0 <= i < j < |s.order| ==> s.order[i] != s.order[j]
  }

  ghost predicate HolderInv(s: State) {
    forall k :: k in s.holders ==> IsDue(s, k) && Owes(s, s.holders[k], k)
  }

  ghost predicate DueInv(s: State) {
    forall k: nat :: IsDue(s, k) ==> k in s.order || k in s.holders
  }

  ghost predicate ThreadInv(s: State) {
    forall t :: t in s.threads ==> ThreadOk(s, t)
  }

  ghost predicate ThreadOk(s: State, t: Tid)
    requires t in s.threads
  {
    match s.threads[t]
    case Due(k) => k in s.holders && s.holders[k] == t
    case Writing(k, n) =>
      k < |s.calls| && Fits(s.calls[k]) && n <= |EncodeSized(s.calls[k])|
      && (n < |EncodeSized(s.calls[k])| ==> k in s.holders && s.holders[k] == t)
    case _ => true
  }

  /** Every due ticket is either written once or owed by one thread. */
  ghost predicate TicketInv(s: State) {
    OrderInv(s) && HolderInv(s) && DueInv(s) && ThreadInv(s)
  }

  /** The records written to the end. */
  function Log(s: State, order: seq<nat>): seq<Sized>
    requires Known(s, order)
  {
    seq(|order|, i requires 0 <= i < |order| => s.calls[order[i]])
  }

  ghost predicate Known(s: State, order: seq<nat>) {
    forall i :: 0 <= i < |order| ==> order[i] < |s.calls|
  }

  /** The bytes of the record that the mutex holder is in the middle of. */
  ghost function Partial(s: State): seq<Byte> {
    if s.mutex.None? || s.mutex.value !in s.threads then []
    else match s.threads[s.mutex.value]
      case Writing(k, n) =>
        if k < |s.calls| && Fits(s.calls[k]) && n < |EncodeSized(s.calls[k])| then EncodeSized(s.calls[k])[..n] else []
      case _ => []
  }

  ghost predicate StreamInv(s: State) {
    && Known(s, s.order)
    && AllFit(Log(s, s.order)) && s.stream == EncodeSizedAll(Log(s, s.order)) + Partial(s)
  }

  ghost predicate Inv(s: State) {
    MutexInv(s) && CallInv(s) && TicketInv(s) && StreamInv(s)
  }

  lemma KeptFits(r: Sized)
    requires Kept(r)
    ensures Fits(r)
  {}

  lemma StepMutex(s: State, s': State, t: Tid, a: Action)
    requires MutexInv(s) && Next(s, s', t, a)
    ensures MutexInv(s')
  {
    hide EncodeSized;
    hide Fits;
    hide Kept;
    hide Elects;
  }

  lemma StepCalls(s: State, s': State, t: Tid, a: Action)
    requires CallInv(s) && Next(s, s', t, a)
    ensures CallInv(s')
  {
    hide EncodeSized;
    hide Fits;
    hide Kept;
    hide Elects;
  }

  /** A counted call changes nothing about the earlier ones. */
  lemma DueKept(s: State, s': State, t: Tid, a: Action)
    requires CallInv(s) && Next(s, s', t, a)
    ensures s.calls <= s'.calls
    ensures forall k: nat :: k < |s.calls| ==> (IsDue(s', k) <==> IsDue(s, k))
    ensures !a.Count? ==> s'.calls == s.calls && s'.rate == s.rate
    ensures a.Count? ==> |s'.calls| == |s.calls| + 1 && s'.calls[|s.calls|] == s.threads[t].r && s'.order == s.order
                         && s'.holders == if IsDue(s', |s.calls|) then s.holders[|s.calls| := t] else s.holders
  {
    hide EncodeSized;
    hide Fits;
    hide Kept;
    hide Elects;
  }

  lemma StepOrder(s: State, s': State, t: Tid, a: Action)
    requires CallInv(s) && TicketInv(s) && Next(s, s', t, a)
    ensures OrderInv(s')
  {
    hide EncodeSized;
    hide Fits;
    hide Kept;
    DueKept(s, s', t, a);
    hide DueInv;
    hide IsDue;
    hide Elects;
    if a.Count? {
      hide Next;
      CountedOrder(s, s');
    }
  }

  lemma CountedOrder(s: State, s': State)
    requires OrderInv(s) && s'.order == s.order && forall k :: k in s'.holders ==> k in s.holders || k == |s.calls|
    requires forall k: nat :: k < |s.calls| ==> (IsDue(s', k) <==> IsDue(s, k))
    ensures OrderInv(s')
  {
    hide Elects;
  }

  lemma StepHolders(s: State, s': State, t: Tid, a: Action)
    requires CallInv(s) && TicketInv(s) && Next(s, s', t, a)
    ensures HolderInv(s')
  {
    forall k | k in s'.holders
      ensures IsDue(s', k) && Owes(s', s'.holders[k], k)
    {
      StepHolder(s, s', t, a, k);
    }
  }

  lemma StepHolder(s: State, s': State, t: Tid, a: Action, k: nat)
    requires CallInv(s) && TicketInv(s) && Next(s, s', t, a) && k in s'.holders
    ensures IsDue(s', k) && Owes(s', s'.holders[k], k)
  {
    hide EncodeSized;
    hide Kept;
    hide Elects;
    DueKept(s, s', t, a);
    if a.Count? {
      KeptFitsAll(s, s', t, a);
    }
    if k in s.holders {
      assert IsDue(s, k) && Owes(s, s.holders[k], k);
    }
    hide TicketInv;
    hide CallInv;
    hide Fits;
  }

  lemma KeptFitsAll(s: State, s': State, t: Tid, a: Action)
    requires CallInv(s) && Next(s, s', t, a)
    ensures forall k :: 0 <= k < |s'.calls| ==> Fits(s'.calls[k])
  {
    StepCalls(s, s', t, a);
    hide Next;
    forall k | 0 <= k < |s'.calls|
      ensures Fits(s'.calls[k])
    {
      KeptFits(s'.calls[k]);
    }
  }

  lemma StepDue(s: State, s': State, t: Tid, a: Action)
    requires CallInv(s) && TicketInv(s) && Next(s, s', t, a)
    ensures DueInv(s')
  {
    hide EncodeSized;
    hide Fits;
    hide Kept;
    DueKept(s, s', t, a);
    hide HolderInv;
    hide OrderInv;
    hide Elects;
    forall k: nat | IsDue(s', k)
      ensures k in s'.order || k in s'.holders
    {
      if k < |s.calls| {
        assert IsDue(s, k);
      }
    }
  }

  lemma StepThreads(s: State, s': State, t: Tid, a: Action)
    requires CallInv(s) && TicketInv(s) && Next(s, s', t, a)
    ensures ThreadInv(s')
  {
    StepOwn(s, s', t, a);
    forall u | u in s'.threads && u != t
      ensures ThreadOk(s', u)
    {
      StepOther(s, s', t, a, u);
    }
    hide Next;
    hide TicketInv;
    hide ThreadOk;
  }

  lemma StepOwn(s: State, s': State, t: Tid, a: Action)
    requires CallInv(s) && TicketInv(s) && Next(s, s', t, a)
    ensures t in s'.threads && ThreadOk(s', t)
  {
    hide EncodeSized;
    hide Kept;
    hide Elects;
    if a.LockToWrite? {
      DueFits(s, t);
    }
    hide Fits;
    hide DueInv;
    hide OrderInv;
    hide HolderInv;
    assert ThreadOk(s, t);
    hide ThreadInv;
  }

  lemma StepOther(s: State, s': State, t: Tid, a: Action, u: Tid)
    requires CallInv(s) && TicketInv(s) && Next(s, s', t, a) && u in s'.threads && u != t
    ensures ThreadOk(s', u)
  {
    hide EncodeSized;
    hide Kept;
    hide Elects;
    hide Fits;
    DueKept(s, s', t, a);
    OtherHolds(s, u);
    hide DueInv;
    hide OrderInv;
    hide HolderInv;
    hide ThreadInv;
    hide CallInv;
    hide IsDue;
    if a.WriteByte? {
      assert ThreadOk(s, t) by { OtherHolds(s, t); }
    }
  }

  lemma OtherHolds(s: State, u: Tid)
    requires TicketInv(s) && u in s.threads
    ensures ThreadOk(s, u) && forall k :: k in s.holders ==> k < |s.calls|
  {
    hide Elects;
    hide Fits;
    hide EncodeSized;
  }

  lemma DueFits(s: State, t: Tid)
    requires TicketInv(s) && t in s.threads && s.threads[t].Due?
    ensures var k := s.threads[t].ticket; k < |s.calls| && Fits(s.calls[k])
  {
    hide Elects;
  }

  lemma StepTickets(s: State, s': State, t: Tid, a: Action)
    requires CallInv(s) && TicketInv(s) && Next(s, s', t, a)
    ensures TicketInv(s')
  {
    hide Next;
    hide OrderInv;
    hide HolderInv;
    hide DueInv;
    hide ThreadInv;
    StepOrder(s, s', t, a);
    StepHolders(s, s', t, a);
    StepDue(s, s', t, a);
    StepThreads(s, s', t, a);
  }

  // ------------------------------------------------------------------ stream

  lemma {:induction false} EncodeSnoc(rs: seq<Sized>, r: Sized)
    requires AllFit(rs) && Fits(r)
    ensures AllFit(rs + [r]) && EncodeSizedAll(rs + [r]) == EncodeSizedAll(rs) + EncodeSized(r)
  {
    hide EncodeSized;
    hide Fits;
    if rs == [] {
      assert rs + [r] == [r] && EncodeSizedAll([]) == [];
      assert [r][1..] == [];
    } else {
      EncodeSnoc(rs[1..], r);
      assert (rs + [r])[1..] == rs[1..] + [r];
    }
  }

  lemma SameLog(s: State, s': State)
    requires Known(s, s.order) && s'.order == s.order && s.calls <= s'.calls
    ensures Known(s', s'.order) && Log(s', s'.order) == Log(s, s.order)
  {}

  lemma LogMore(s: State, s': State, k: nat)
    requires Known(s, s.order) && k < |s.calls| && s'.order == s.order + [k] && s'.calls == s.calls
    ensures Known(s', s'.order) && Log(s', s'.order) == Log(s, s.order) + [s.calls[k]]
  {}

  lemma StepStream(s: State, s': State, t: Tid, a: Action)
    requires MutexInv(s) && TicketInv(s) && StreamInv(s) && Next(s, s', t, a)
    ensures StreamInv(s')
  {
    hide EncodeSized;
    hide EncodeSizedAll;
    hide Fits;
    hide Kept;
    hide Elects;
    hide Log;
    if a.WriteByte? {
      WroteByte(s, s', t);
    } else {
      SameLog(s, s');
      PartialKept(s, s', t, a);
    }
  }

  /** The mutex changes hands between records only. */
  lemma PartialKept(s: State, s': State, t: Tid, a: Action)
    requires MutexInv(s) && TicketInv(s) && Next(s, s', t, a) && !a.WriteByte?
    ensures Partial(s') == Partial(s)
  {
    hide EncodeSized;
    hide Fits;
    hide Kept;
    hide Elects;
  }

  lemma WroteByte(s: State, s': State, t: Tid)
    requires MutexInv(s) && TicketInv(s) && StreamInv(s) && Next(s, s', t, WriteByte)
    ensures StreamInv(s')
  {
    hide EncodeSized;
    hide EncodeSizedAll;
    hide Fits;
    hide Log;
    hide IsDue;
    var pc := s.threads[t];
    var r, log := s.calls[pc.ticket], Log(s, s.order);
    var bs := EncodeSized(r);
    assert bs[..pc.n + 1] == bs[..pc.n] + [bs[pc.n]];
    assert EncodeSizedAll(log) + bs[..pc.n] + [bs[pc.n]] == EncodeSizedAll(log) + bs[..pc.n + 1];
    if pc.n + 1 == |bs| {
      LogMore(s, s', pc.ticket);
      EncodeSnoc(log, r);
      assert bs[..pc.n + 1] == bs;
    } else {
      SameLog(s, s');
    }
  }

  // ------------------------------------------------------------ main results

  lemma InitInv(s: State)
    requires Init(s)
    ensures Inv(s)
  {}

  /** Every step of every thread keeps the invariant. */
  lemma StepInv(s: State, s': State, t: Tid, a: Action)
    requires Inv(s) && Next(s, s', t, a)
    ensures Inv(s')
  {
    hide Next;
    StepMutex(s, s', t, a);
    StepCalls(s, s', t, a);
    StepTickets(s, s', t, a);
    StepStream(s, s', t, a);
  }

  datatype Move = Step(t: Tid, a: Action)

  ghost predicate IsRun(states: seq<State>, moves: seq<Move>) {
    && |states| == |moves| + 1 && Init(states[0])
    && forall i :: 0 <= i < |moves| ==> Next(states[i], states[i + 1], moves[i].t, moves[i].a)
  }

  lemma {:induction false} RunInv(states: seq<State>, moves: seq<Move>, i: nat)
    requires IsRun(states, moves) && i < |states|
    ensures Inv(states[i])
  {
    if i == 0 {
      InitInv(states[0]);
    } else {
      hide Next;
      hide Inv;
      RunInv(states, moves, i - 1);
      StepInv(states[i - 1], states[i], moves[i - 1].t, moves[i - 1].a);
    }
  }

  lemma {:induction false} AllSizedInside(rs: seq<Sized>)
    requires AllFit(rs)
    ensures SizedInside(rs, |EncodeSizedAll(rs)|) == rs
  {
    hide EncodeSized;
    hide Fits;
    if rs != [] {
      AllSizedInside(rs[1..]);
    }
  }

  lemma {:induction false} SizedInsideSnoc(rs: seq<Sized>, r: Sized, n: nat)
    requires AllFit(rs) && Fits(r) && AllFit(rs + [r]) && n < |EncodeSized(r)|
    ensures SizedInside(rs + [r], |EncodeSizedAll(rs)| + n) == rs
  {
    hide EncodeSized;
    hide Fits;
    if rs != [] {
      assert (rs + [r])[1..] == rs[1..] + [r];
      SizedInsideSnoc(rs[1..], r, n);
    }
  }

  /** A stream of whole records with a torn one after it. */
  lemma ParsesBack(rs: seq<Sized>, r: Sized, n: nat)
    requires AllFit(rs) && Fits(r) && n < |EncodeSized(r)|
    ensures ParseSizedAll(EncodeSizedAll(rs) + EncodeSized(r)[..n]) == rs
  {
    hide EncodeSized;
    hide Fits;
    EncodeSnoc(rs, r);
    var k := |EncodeSizedAll(rs)| + n;
    assert EncodeSizedAll(rs + [r])[..k] == EncodeSizedAll(rs) + EncodeSized(r)[..n];
    SizedPrefix(rs + [r], k);
    SizedInsideSnoc(rs, r, n);
  }

  lemma ParsesWhole(rs: seq<Sized>)
    requires AllFit(rs)
    ensures ParseSizedAll(EncodeSizedAll(rs)) == rs
  {
    hide EncodeSized;
    hide Fits;
    SizedPrefix(rs, |EncodeSizedAll(rs)|);
    AllSizedInside(rs);
    assert EncodeSizedAll(rs)[..|EncodeSizedAll(rs)|] == EncodeSizedAll(rs);
  }

  /** The tickets written so far: distinct calls, elected and with a backtrace. */
  ghost predicate WrittenOnce(s: State) {
    && Known(s, s.order) && (forall k :: k in s.order ==> IsDue(s, k))
    && forall i, j :: 0 <= i < j < |s.order| ==> s.order[i] != s.order[j]
  }

  /** In every interleaving, at every moment and even in the middle of a record: the stream parses to the records of
      distinct elected calls, each whole. */
  lemma StreamShowsElected(states: seq<State>, moves: seq<Move>, i: nat)
    requires IsRun(states, moves) && i < |states|
    ensures WrittenOnce(states[i]) && ParseSizedAll(states[i].stream) == Log(states[i], states[i].order)
  {
    RunInv(states, moves, i);
    hide IsRun;
    var s := states[i];
    StreamParses(s);
  }

  lemma StreamParses(s: State)
    requires StreamInv(s)
    ensures ParseSizedAll(s.stream) == Log(s, s.order)
  {
    hide EncodeSized;
    hide Fits;
    hide Log;
    hide ParseSizedAll;
    var log := Log(s, s.order);
    if Partial(s) == [] {
      ParsesWhole(log);
      assert EncodeSizedAll(log) + [] == EncodeSizedAll(log);
    } else {
      var pc := s.threads[s.mutex.value];
      ParsesBack(log, s.calls[pc.ticket], pc.n);
    }
  }

  ghost predicate Quiescent(s: State) {
    forall t :: t in s.threads ==> s.threads[t].Idle?
  }

  /** With no thread inside the hook the stream holds every elected call with a backtrace exactly once, in some
      order. */
  lemma QuiescentStreamIsTheElected(states: seq<State>, moves: seq<Move>, i: nat)
    requires IsRun(states, moves) && i < |states| && Quiescent(states[i])
    ensures WrittenOnce(states[i]) && forall k: nat :: k in states[i].order <==> IsDue(states[i], k)
    ensures ParseSizedAll(states[i].stream) == Log(states[i], states[i].order)
  {
    StreamShowsElected(states, moves, i);
    RunInv(states, moves, i);
    hide IsRun;
    hide IsDue;
    hide Fits;
    hide EncodeSized;
    hide StreamInv;
    var s := states[i];
    assert forall k :: k in s.holders ==> Owes(s, s.holders[k], k);
  }

  /** A stream cut anywhere parses to the records that were whole by then. */
  lemma AnyCutParses(states: seq<State>, moves: seq<Move>, i: nat, k: nat) returns (n: nat)
    requires IsRun(states, moves) && i < |states| && k <= |states[i].stream|
    ensures WrittenOnce(states[i]) && n <= |states[i].order|
    ensures ParseSizedAll(states[i].stream[..k]) == Log(states[i], states[i].order[..n])
  {
    RunInv(states, moves, i);
    hide IsRun;
    n := CutAt(states[i], k);
  }

  lemma CutAt(s: State, k: nat) returns (n: nat)
    requires StreamInv(s) && k <= |s.stream|
    ensures n <= |s.order| && Known(s, s.order[..n]) && ParseSizedAll(s.stream[..k]) == Log(s, s.order[..n])
  {
    hide EncodeSized;
    hide Fits;
    hide ParseSizedAll;
    var log := Log(s, s.order);
    var whole := |EncodeSizedAll(log)|;
    if k <= whole {
      assert s.stream[..k] == EncodeSizedAll(log)[..k];
      SizedPrefix(log, k);
      n := InsideIsPrefix(log, k);
      assert Log(s, s.order[..n]) == log[..n];
    } else {
      var pc := s.threads[s.mutex.value];
      var bs := EncodeSized(s.calls[pc.ticket]);
      assert s.stream[..k] == EncodeSizedAll(log) + bs[..k - whole];
      ParsesBack(log, s.calls[pc.ticket], k - whole);
      n := |s.order|;
      assert s.order[..n] == s.order;
    }
  }

  lemma {:induction false} InsideIsPrefix(rs: seq<Sized>, k: nat) returns (n: nat)
    requires AllFit(rs)
    ensures n <= |rs| && SizedInside(rs, k) == rs[..n]
  {
    hide EncodeSized;
    hide Fits;
    if rs == [] || |EncodeSized(rs[0])| > k {
      n := 0;
    } else {
      n := InsideIsPrefix(rs[1..], k - |EncodeSized(rs[0])|);
      n := n + 1;
      assert rs[..n] == [rs[0]] + rs[1..][..n - 1];
    }
  }

  // ------------------------------------------------------- what the parser reports

  predicate IsVisible(rd: Reading, r: Sized) {
    LiveEntry(rd, r.size, r.frames).frames != []
  }

  /** One for every visible record of these tickets, and its size. */
  function Ones(rd: Reading, s: State, tickets: set<nat>): map<nat, int> {
    map k | k in tickets && k < |s.calls| && IsVisible(rd, s.calls[k]) :: 1
  }

  function Sizes(rd: Reading, s: State, tickets: set<nat>): map<nat, int> {
    map k | k in tickets && k < |s.calls| && IsVisible(rd, s.calls[k]) :: AsI64(s.calls[k].size)
  }

  function DueTickets(s: State): set<nat> {
    set k: nat | k < |s.calls| && IsDue(s, k)
  }

  lemma TicketsNext(rd: Reading, s: State, tickets: set<nat>, k: nat)
    requires k !in tickets && k < |s.calls|
    ensures Total(Ones(rd, s, tickets + {k})) ==
            Total(Ones(rd, s, tickets)) + if IsVisible(rd, s.calls[k]) then 1 else 0
    ensures Total(Sizes(rd, s, tickets + {k})) ==
            Total(Sizes(rd, s, tickets)) + if IsVisible(rd, s.calls[k]) then AsI64(s.calls[k].size) else 0
  {
    hide IsVisible;
    hide AsI64;
    if IsVisible(rd, s.calls[k]) {
      TotalInsert(Ones(rd, s, tickets), k, 1);
      TotalInsert(Sizes(rd, s, tickets), k, AsI64(s.calls[k].size));
      assert Ones(rd, s, tickets + {k}) == Ones(rd, s, tickets)[k := 1];
      assert Sizes(rd, s, tickets + {k}) == Sizes(rd, s, tickets)[k := AsI64(s.calls[k].size)];
    } else {
      assert Ones(rd, s, tickets + {k}) == Ones(rd, s, tickets);
      assert Sizes(rd, s, tickets + {k}) == Sizes(rd, s, tickets);
    }
  }

  function Tickets(order: seq<nat>): (tickets: set<nat>)
    ensures forall k :: k in tickets <==> k in order
  {
    set k | k in order
  }

  /** The order in which records are written does not matter to the totals. */
  lemma {:induction false} OrderedTotals(rd: Reading, s: State, order: seq<nat>)
    requires Known(s, order)
    requires forall i, j :: 0 <= i < j < |order| ==> order[i] != order[j]
    ensures Visible(rd, Log(s, order)) == Total(Ones(rd, s, Tickets(order)))
    ensures VisibleBytes(rd, Log(s, order)) == Total(Sizes(rd, s, Tickets(order)))
  {
    hide IsVisible;
    hide AsI64;
    hide LiveEntry;
    hide Visible;
    hide VisibleBytes;
    hide Log;
    hide Ones;
    hide Sizes;
    hide Total;
    if order == [] {
      NoTotals(rd, s);
    } else {
      var init, k := order[..|order| - 1], order[|order| - 1];
      assert order == init + [k];
      OrderedTotals(rd, s, init);
      assert Tickets(order) == Tickets(init) + {k};
      TicketsNext(rd, s, Tickets(init), k);
      LogLast(s, order);
      VisibleLast(rd, Log(s, init), s.calls[k]);
    }
  }

  lemma NoTotals(rd: Reading, s: State)
    ensures Log(s, []) == [] && Visible(rd, []) == 0 && VisibleBytes(rd, []) == 0
    ensures Total(Ones(rd, s, Tickets([]))) == 0 && Total(Sizes(rd, s, Tickets([]))) == 0
  {
    assert Tickets([]) == {};
    assert Ones(rd, s, {}) == map[] && Sizes(rd, s, {}) == map[];
  }

  lemma LogLast(s: State, order: seq<nat>)
    requires order != [] && Known(s, order)
    ensures var n := |order| - 1; Log(s, order) == Log(s, order[..n]) + [s.calls[order[n]]]
  {}

  lemma VisibleLast(rd: Reading, rs: seq<Sized>, r: Sized)
    ensures Visible(rd, rs + [r]) == Visible(rd, rs) + if IsVisible(rd, r) then 1 else 0
    ensures VisibleBytes(rd, rs + [r]) == VisibleBytes(rd, rs) + if IsVisible(rd, r) then AsI64(r.size) else 0
  {
    hide LiveEntry;
    hide AsI64;
    assert (rs + [r])[..|rs|] == rs;
  }

  /** At rest, whatever the interleaving: the parser's samples add up to the elected calls with a user frame and their
      bytes, times the rate. */
  lemma ParserReportsTheElected(states: seq<State>, moves: seq<Move>, i: nat, rd: Reading)
    requires IsRun(states, moves) && i < |states| && Quiescent(states[i])
    ensures var s, samples := states[i], SamplesFrom(rd, ParseSizedAll(states[i].stream));
            && Total(SampleCounts(samples)) == rd.scale * Total(Ones(rd, s, DueTickets(s)))
            && Total(SampleBytes(samples)) == rd.scale * Total(Sizes(rd, s, DueTickets(s)))
  {
    QuiescentStreamIsTheElected(states, moves, i);
    OrderReports(rd, states[i]);
  }

  lemma OrderReports(rd: Reading, s: State)
    requires WrittenOnce(s) && forall k: nat :: k in s.order <==> IsDue(s, k)
    ensures var samples := SamplesFrom(rd, Log(s, s.order));
            && Total(SampleCounts(samples)) == rd.scale * Total(Ones(rd, s, DueTickets(s)))
            && Total(SampleBytes(samples)) == rd.scale * Total(Sizes(rd, s, DueTickets(s)))
  {
    hide SamplesFrom;
    hide Total;
    hide Ones;
    hide Sizes;
    hide Log;
    hide Visible;
    hide VisibleBytes;
    OrderedTotals(rd, s, s.order);
    SamplesConserve(rd, Log(s, s.order));
    DueAre(s);
  }

  lemma DueAre(s: State)
    requires forall k: nat :: k in s.order <==> IsDue(s, k)
    ensures Tickets(s.order) == DueTickets(s)
  {
    hide Elects;
  }

  lemma {:induction false} ElectedIsCeil(rate: nat, n: nat)
    ensures ElectedBefore(rate, n) == CeilDiv(n, if rate <= 1 then 1 else rate)
  {
    var k := if rate <= 1 then 1 else rate;
    hide CeilDiv;
    hide StartsGroup;
    if n == 0 {
      CeilZero(k);
    } else {
      ElectedIsCeil(rate, n - 1);
      CeilStep(n - 1, k);
      OneStartsAll(n - 1);
    }
  }

  /** In every interleaving, scaling the elected calls over-counts by less than one group. */
  lemma SamplingBound(states: seq<State>, moves: seq<Move>, i: nat)
    requires IsRun(states, moves) && i < |states|
    ensures var s := states[i];
            var rate := if s.rate <= 1 then 1 else s.rate;
            s.counter <= rate * s.electedCount < s.counter + rate
  {
    RunInv(states, moves, i);
    hide IsRun;
    hide TicketInv;
    hide StreamInv;
    hide MutexInv;
    var s := states[i];
    ElectedIsCeil(s.rate, s.counter);
    CeilBound(s.counter, if s.rate <= 1 then 1 else s.rate);
  }

  ghost predicate AllVisible(rd: Reading, s: State) {
    forall k :: 0 <= k < |s.calls| ==> IsVisible(rd, s.calls[k])
  }

  /** The sizes of all counted calls. */
  function CallSizes(s: State): map<nat, int> {
    map k: nat | k < |s.calls| :: AsI64(s.calls[k].size)
  }

  function DueBelow(s: State, n: nat): set<nat> {
    set k: nat | k < n && IsDue(s, k)
  }

  lemma DueNext(s: State, n: nat)
    requires n < |s.calls| && s.calls[n].frames != []
    ensures n !in DueBelow(s, n)
    ensures DueBelow(s, n + 1) == if Elects(s.rate, n) then DueBelow(s, n) + {n} else DueBelow(s, n)
  {
    hide Elects;
    if !Elects(s.rate, n) {
      assert DueBelow(s, n + 1) == DueBelow(s, n);
    }
  }

  lemma NothingDue(rd: Reading, s: State)
    ensures Total(Ones(rd, s, DueBelow(s, 0))) == 0
  {
    hide IsVisible;
    assert Ones(rd, s, DueBelow(s, 0)) == map[];
  }

  lemma {:induction false} OnesElected(rd: Reading, s: State, n: nat)
    requires n <= |s.calls| && AllVisible(rd, s)
    ensures Total(Ones(rd, s, DueBelow(s, n))) == ElectedBefore(s.rate, n)
  {
    hide Elects;
    hide IsVisible;
    hide Ones;
    hide Total;
    hide DueBelow;
    if n == 0 {
      NothingDue(rd, s);
    } else {
      OnesElected(rd, s, n - 1);
      assert IsVisible(rd, s.calls[n - 1]);
      VisibleHasFrames(rd, s.calls[n - 1]);
      DueNext(s, n - 1);
      if Elects(s.rate, n - 1) {
        TicketsNext(rd, s, DueBelow(s, n - 1), n - 1);
      }
    }
  }

  lemma VisibleHasFrames(rd: Reading, r: Sized)
    requires IsVisible(rd, r)
    ensures r.frames != []
  {}

  /** At rest, with a user frame in every backtrace: the reported count exceeds the number of counted calls by less than
      one group. At rate 1 it is that number, and the reported bytes are the sizes of all of them. */
  lemma ParserReportsTheCalls(states: seq<State>, moves: seq<Move>, i: nat, utf8: seq<Byte> -> string)
    requires IsRun(states, moves) && i < |states| && Quiescent(states[i])
    requires var rate := states[i].rate; AllVisible(Reading(if rate <= 1 then 1 else rate, utf8), states[i])
    ensures var s := states[i];
            var rate := if s.rate <= 1 then 1 else s.rate;
            var samples := SamplesFrom(Reading(rate, utf8), ParseSizedAll(s.stream));
            && s.counter <= Total(SampleCounts(samples)) < s.counter + rate
            && (rate == 1 ==> Total(SampleBytes(samples)) == Total(CallSizes(s)))
  {
    var s := states[i];
    var rd := Reading(if s.rate <= 1 then 1 else s.rate, utf8);
    hide SamplesFrom;
    hide ParseSizedAll;
    hide Total;
    RunInv(states, moves, i);
    SamplingBound(states, moves, i);
    ParserReportsTheElected(states, moves, i, rd);
    hide IsRun;
    hide Quiescent;
    hide TicketInv;
    hide StreamInv;
    hide MutexInv;
    hide Ones;
    OnesElected(rd, s, |s.calls|);
    assert DueBelow(s, |s.calls|) == DueTickets(s);
    if s.rate <= 1 {
      SizesAreAll(rd, s);
    }
  }

  lemma SizesAreAll(rd: Reading, s: State)
    requires s.rate <= 1 && AllVisible(rd, s)
    ensures Sizes(rd, s, DueTickets(s)) == CallSizes(s)
  {
    forall k: nat | k < |s.calls|
      ensures IsDue(s, k)
    {
      VisibleHasFrames(rd, s.calls[k]);
    }
    hide IsVisible;
    hide AsI64;
  }
}
