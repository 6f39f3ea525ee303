/** The command/transfer ring: a producer that shares with the controller only the ring
    memory. What is new is told by the cycle bit of each TRB and by a Link TRB in the last
    slot, which sends the consumer back to slot 0 and flips its cycle state. */
module TransferRing {
  import opened Wrappers
  import opened Trb

  /** What the producer owns: the memory, the next slot to write, its cycle state. */
  datatype Producer = Producer(buf: seq<Trb>, writeIndex: nat, cycle: bool)

  ghost predicate WellFormed(p: Producer) {
    |p.buf| >= 3 && p.writeIndex < |p.buf|
  }

  /** A TRB with the producer's cycle state put into it. */
  function Stamped(d: Trb, cycle: bool): Trb {
    d.(ctl := d.ctl.(cycle := cycle))
  }

  /** One 32-bit store of `CopyToLast`: words 0..2 as given, word 3 with the cycle bit. */
  function StoreWord(p: Producer, d: Trb, i: nat): Producer
    requires p.writeIndex < |p.buf| && i < 4
  {
    p.(buf := p.buf[p.writeIndex := CopyWord(p.buf[p.writeIndex], Stamped(d, p.cycle), i)])
  }

  /** The slot written as a whole. */
  function StoreTrb(p: Producer, d: Trb): Producer
    requires p.writeIndex < |p.buf|
  {
    p.(buf := p.buf[p.writeIndex := Stamped(d, p.cycle)])
  }

  lemma FourWordsAreOneTrb(p: Producer, d: Trb)
    requires p.writeIndex < |p.buf|
    ensures StoreWord(StoreWord(StoreWord(StoreWord(p, d, 0), d, 1), d, 2), d, 3) == StoreTrb(p, d)
  {
  }

  /** What a whole push comes to. */
  function PushTo(p: Producer, d: Trb, base: nat): Producer
    requires p.writeIndex + 1 < |p.buf| && base < TWO_TO_THE_64
  {
    var p1 := StoreTrb(p, d).(writeIndex := p.writeIndex + 1);
    if p1.writeIndex == |p.buf| - 1 then
      StoreTrb(p1, LinkTo(base)).(writeIndex := 0, cycle := !p.cycle)
    else p1
  }

  // ---------------------------------------------------------------------------
  // How long a TRB stays in memory
  // ---------------------------------------------------------------------------

  /** The slot of the TRB pushed `age` pushes ago (1 is the last one). */
  function SlotOfAge(p: Producer, age: nat): int {
    if age <= p.writeIndex then p.writeIndex - age else p.writeIndex + |p.buf| - 1 - age
  }

  /** The last pushes, oldest first, are still where they were put. */
  ghost predicate Remembers(p: Producer, recent: seq<Trb>) {
    && |recent| < |p.buf| && p.writeIndex < |p.buf|
    && forall a {:trigger SlotOfAge(p, a)} :: 1 <= a <= |recent| ==> Payload(p.buf[SlotOfAge(p, a)]) == recent[|recent| - a]
  }

  lemma RememberedAt(p: Producer, recent: seq<Trb>, age: nat)
    requires Remembers(p, recent) && 1 <= age <= |recent| && p.writeIndex + 1 < |p.buf|
    ensures 0 <= SlotOfAge(p, age) < |p.buf| - 1
    ensures Payload(p.buf[SlotOfAge(p, age)]) == recent[|recent| - age]
  {
  }

  lemma SuffixRemembered(p: Producer, recent: seq<Trb>, k: nat)
    requires Remembers(p, recent) && k <= |recent|
    ensures Remembers(p, recent[k..])
  {
  }

  /** The last `n` elements, or all of them. */
  function Last(s: seq<Trb>, n: nat): seq<Trb> {
    if |s| <= n then s else s[|s| - n..]
  }

  /** How many of the last `n` elements one more pushes out. */
  function Dropped(s: seq<Trb>, n: nat): nat {
    if |s| < n then 0 else 1
  }

  lemma LastGrows(s: seq<Trb>, n: nat, x: Trb)
    requires n >= 1
    ensures Dropped(s, n) <= |Last(s, n)| && (Last(s, n) + [x])[Dropped(s, n)..] == Last(s + [x], n)
  {
  }

  lemma LastOfLast(s: seq<Trb>, m: nat, n: nat)
    requires m <= n
    ensures |Last(s, m)| <= |Last(s, n)| && Last(s, m) == Last(s, n)[|Last(s, n)| - |Last(s, m)|..]
  {
  }

  /** What is true of the last n pushes is true of the last m of them. */
  lemma FewerRemembered(p: Producer, s: seq<Trb>, m: nat, n: nat)
    requires m <= n && Remembers(p, Last(s, n))
    ensures Remembers(p, Last(s, m))
  {
    LastOfLast(s, m, n);
    SuffixRemembered(p, Last(s, n), |Last(s, n)| - |Last(s, m)|);
  }

  lemma LastExtended(s: seq<Trb>, n: nat, x: Trb)
    ensures Last(s, n) + [x] == Last(s + [x], n + 1)
  {
  }

  /** A store into the next slot spares the last N-2 pushes. */
  lemma StoreWordRemembers(p: Producer, d: Trb, i: nat, recent: seq<Trb>)
    requires Remembers(p, recent) && |recent| <= |p.buf| - 2 && i < 4
    ensures Remembers(StoreWord(p, d, i), recent)
  {
    var q := StoreWord(p, d, i);
    forall a {:trigger SlotOfAge(q, a)} | 1 <= a <= |recent|
      ensures Payload(q.buf[SlotOfAge(q, a)]) == recent[|recent| - a]
    {
      assert SlotOfAge(q, a) == SlotOfAge(p, a);
    }
  }

  lemma AdvanceRemembers(p: Producer, d: Trb, recent: seq<Trb>)
    requires Remembers(p, recent) && |recent| <= |p.buf| - 2 && p.writeIndex + 1 < |p.buf|
    requires Payload(p.buf[p.writeIndex]) == Payload(d)
    ensures Remembers(p.(writeIndex := p.writeIndex + 1), recent + [Payload(d)])
  {
    var q := p.(writeIndex := p.writeIndex + 1);
    var longer := recent + [Payload(d)];
    forall a {:trigger SlotOfAge(q, a)} | 1 <= a <= |longer|
      ensures Payload(q.buf[SlotOfAge(q, a)]) == longer[|longer| - a]
    {
      if a > 1 { assert SlotOfAge(q, a) == SlotOfAge(p, a - 1); }
    }
  }

  lemma WrapRemembers(p: Producer, t: Trb, recent: seq<Trb>)
    requires Remembers(p, recent) && p.writeIndex == |p.buf| - 1
    ensures Remembers(p.(buf := p.buf[p.writeIndex := t], writeIndex := 0, cycle := !p.cycle), recent)
  {
    var q := p.(buf := p.buf[p.writeIndex := t], writeIndex := 0, cycle := !p.cycle);
    forall a {:trigger SlotOfAge(q, a)} | 1 <= a <= |recent|
      ensures Payload(q.buf[SlotOfAge(q, a)]) == recent[|recent| - a]
    {
      assert SlotOfAge(q, a) == SlotOfAge(p, a);
    }
  }

  lemma StoreTrbRemembers(p: Producer, d: Trb, recent: seq<Trb>)
    requires Remembers(p, recent) && |recent| <= |p.buf| - 2
    ensures Remembers(StoreTrb(p, d), recent)
  {
    var q := StoreTrb(p, d);
    forall a {:trigger SlotOfAge(q, a)} | 1 <= a <= |recent|
      ensures Payload(q.buf[SlotOfAge(q, a)]) == recent[|recent| - a]
    {
      assert SlotOfAge(q, a) == SlotOfAge(p, a);
    }
  }

  /** A push leaves room for the next one and moves every older TRB one push back. */
  lemma PushKeepsShape(p: Producer, d: Trb, base: nat)
    requires p.writeIndex + 1 < |p.buf| && base < TWO_TO_THE_64
    ensures var q := PushTo(p, d, base);
            |q.buf| == |p.buf| && (|p.buf| >= 3 ==> q.writeIndex + 1 < |q.buf|) &&
            SlotOfAge(q, 1) == p.writeIndex &&
            forall a {:trigger SlotOfAge(p, a)} :: 1 <= a <= |p.buf| - 2 ==> SlotOfAge(q, a + 1) == SlotOfAge(p, a)
  {
  }

  /** A whole push remembers the last N-2 pushes and itself. */
  lemma PushRemembers(p: Producer, d: Trb, base: nat, recent: seq<Trb>)
    requires p.writeIndex + 1 < |p.buf| && base < TWO_TO_THE_64
    requires Remembers(p, recent) && |recent| <= |p.buf| - 2
    ensures Remembers(PushTo(p, d, base), recent + [Payload(d)])
  {
    StoreTrbRemembers(p, d, recent);
    AdvanceRemembers(StoreTrb(p, d), d, recent);
    var p1 := StoreTrb(p, d).(writeIndex := p.writeIndex + 1);
    if p1.writeIndex == |p.buf| - 1 {
      WrapRemembers(p1, Stamped(LinkTo(base), p.cycle), recent + [Payload(d)]);
    }
  }

  // ---------------------------------------------------------------------------
  // The protocol: stores of the producer interleaved with fetches of the consumer
  // ---------------------------------------------------------------------------

  /** Where the producer is between two stores: the number of words already stored. */
  datatype Pc = Idle | Writing(d: Trb, k: nat) | Linking(k: nat)

  /** `deq` and `ccs` are the controller's dequeue slot and cycle state. `pushed` records a
      TRB when its last word is stored, `consumed` when the controller takes it. */
  datatype State = State(
    base: nat, p: Producer, pc: Pc, deq: nat, ccs: bool,
    pushed: seq<Trb>, consumed: seq<Trb>)

  function Init(base: nat, n: nat): State {
    State(base, Producer(seq(n, i => ZERO), 0, true), Idle, 0, true, [], [])
  }

  function StartPush(s: State, d: Trb): State {
    s.(pc := Writing(d, 0))
  }

  predicate CanStore(s: State) {
    s.p.writeIndex < |s.p.buf| && s.base < TWO_TO_THE_64 &&
    match s.pc
    case Idle => false
    case Writing(_, k) => k < 4
    case Linking(k) => k < 4
  }

  /** The producer's next store, with the index update that follows the last word. */
  function Store(s: State): State
    requires CanStore(s)
  {
    match s.pc
    case Writing(d, k) =>
      var q := StoreWord(s.p, d, k);
      if k < 3 then s.(p := q, pc := Writing(d, k + 1))
      else
        var wi := s.p.writeIndex + 1;
        s.(p := q.(writeIndex := wi), pushed := s.pushed + [Payload(d)],
           pc := if wi == |q.buf| - 1 then Linking(0) else Idle)
    case Linking(k) =>
      var q := StoreWord(s.p, LinkTo(s.base), k);
      if k < 3 then s.(p := q, pc := Linking(k + 1))
      else s.(p := q.(writeIndex := 0, cycle := !q.cycle), pc := Idle)
  }

  /** The controller owns the slot it looks at exactly when the cycle bits agree. */
  predicate CanFetch(s: State) {
    s.deq < |s.p.buf| && s.p.buf[s.deq].ctl.cycle == s.ccs
  }

  /** One look of the controller: follow a Link TRB, or take the TRB. */
  function Fetch(s: State): State
    requires CanFetch(s)
  {
    var t := s.p.buf[s.deq];
    if t.ctl.trbType == LINK then
      s.(deq := if LinkTarget(t) >= s.base then (LinkTarget(t) - s.base) / 16 else |s.p.buf|,
         ccs := if t.ctl.bit1 then !s.ccs else s.ccs)
    else s.(deq := s.deq + 1, consumed := s.consumed + [Payload(t)])
  }

  // ---------------------------------------------------------------------------
  // The invariant
  // ---------------------------------------------------------------------------

  /** The slots the controller would still take, in order. Equal cycle states mean producer
      and consumer are on the same lap; different ones that the producer is a lap ahead. */
  function Window(buf: seq<Trb>, writeIndex: nat, deq: nat, sameLap: bool): seq<Trb>
    requires writeIndex < |buf| && deq < |buf|
  {
    if sameLap then (if deq <= writeIndex then buf[deq..writeIndex] else [])
    else buf[deq..|buf| - 1] + buf[..writeIndex]
  }

  lemma WindowTail(buf: seq<Trb>, writeIndex: nat, deq: nat, sameLap: bool)
    requires writeIndex < |buf| && deq + 1 < |buf| && (sameLap ==> deq < writeIndex)
    ensures var w := Window(buf, writeIndex, deq, sameLap);
            |w| > 0 && w[0] == buf[deq] && w[1..] == Window(buf, writeIndex, deq + 1, sameLap)
  {
  }

  lemma WindowGrows(buf: seq<Trb>, writeIndex: nat, deq: nat, sameLap: bool, t: Trb)
    requires writeIndex + 1 < |buf| && deq < |buf| && (if sameLap then deq <= writeIndex else writeIndex < deq)
    ensures Window(buf[writeIndex := t], writeIndex + 1, deq, sameLap)
         == Window(buf, writeIndex, deq, sameLap) + [t]
  {
  }

  function Unread(s: State): seq<Trb>
    requires s.p.writeIndex < |s.p.buf| && s.deq < |s.p.buf|
  {
    Payloads(Window(s.p.buf, s.p.writeIndex, s.deq, s.ccs == s.p.cycle))
  }

  /** A push that starts now will not write over anything the controller still needs: an
      unread TRB, or the Link TRB it has yet to follow. */
  predicate CanPush(s: State) {
    s.ccs == s.p.cycle || (s.p.writeIndex < s.deq && s.p.writeIndex + 2 < |s.p.buf|)
  }

  function Outstanding(s: State): int {
    |s.pushed| - |s.consumed|
  }

  /** The fetches still ahead: one for each outstanding TRB and one for a Link TRB between. */
  function Remaining(s: State): int {
    Outstanding(s) + (if s.ccs == s.p.cycle then 0 else 1)
  }

  ghost predicate Slots(s: State)
    requires s.p.writeIndex < |s.p.buf|
  {
    var m := |s.p.buf| - 1;
    && (forall i :: 0 <= i < s.p.writeIndex ==> s.p.buf[i].ctl.cycle == s.p.cycle)
    && (forall i :: s.p.writeIndex <= i < |s.p.buf| ==> s.p.buf[i].ctl.cycle != s.p.cycle)
    && (forall i :: 0 <= i < m ==> s.p.buf[i].ctl.trbType != LINK)
  }

  /** The first `k` words of `d` have reached the slot. */
  predicate Stored(t: Trb, d: Trb, k: nat) {
    (k >= 1 ==> t.w0 == d.w0) && (k >= 2 ==> t.w1 == d.w1) && (k >= 3 ==> t.w2 == d.w2)
  }

  ghost predicate LinkReady(s: State)
    requires |s.p.buf| > 0
  {
    var t := s.p.buf[|s.p.buf| - 1];
    t.ctl.trbType == LINK && t.ctl.bit1 && LinkTarget(t) == s.base
  }

  ghost predicate Inv(s: State) {
    var m := |s.p.buf| - 1;
    && WellFormed(s.p) && s.base % 16 == 0 && s.base < TWO_TO_THE_64
    && (s.p.writeIndex == m <==> s.pc.Linking?)
    && (s.pc.Writing? ==>
          s.pc.k < 4 && s.pc.d.ctl.trbType != LINK && CanPush(s) &&
          Stored(s.p.buf[s.p.writeIndex], s.pc.d, s.pc.k))
    && (s.pc.Linking? ==>
          s.pc.k < 4 && s.ccs == s.p.cycle && Stored(s.p.buf[m], LinkTo(s.base), s.pc.k))
    && Slots(s)
    && (if s.ccs == s.p.cycle then s.deq <= s.p.writeIndex
        else s.p.writeIndex <= s.deq <= m && LinkReady(s))
    && s.consumed + Unread(s) == s.pushed
  }

  lemma InitInv(base: nat, n: nat)
    requires n >= 3 && base % 16 == 0 && base < TWO_TO_THE_64
    ensures Inv(Init(base, n))
  {
  }

  /** Storing one of the words 0..2 shows the controller nothing new. */
  lemma StoreBodyInv(s: State)
    requires Inv(s) && s.pc.Writing? && s.pc.k < 3
    ensures Inv(Store(s)) && Unread(Store(s)) == Unread(s)
  {
    var s' := Store(s);
    var wi := s.p.writeIndex;
    assert s'.p.buf[wi].ctl == s.p.buf[wi].ctl;
    assert Unread(s') == Unread(s);
  }

  /** Storing the last word hands the whole TRB over. */
  lemma StoreLastSlots(s: State)
    requires Inv(s) && s.pc.Writing? && s.pc.k == 3
    ensures |Store(s).p.buf| == |s.p.buf| && Store(s).p.writeIndex < |s.p.buf| && Slots(Store(s))
  {
    var wi := s.p.writeIndex;
    var t := Store(s).p.buf[wi];
    assert t.ctl.trbType == s.pc.d.ctl.trbType && t.ctl.cycle == s.p.cycle;
    assert forall i :: 0 <= i < |s.p.buf| && i != wi ==> Store(s).p.buf[i] == s.p.buf[i];
  }

  lemma StoreLastInv(s: State)
    requires Inv(s) && s.pc.Writing? && s.pc.k == 3
    ensures Inv(Store(s)) && Unread(Store(s)) == Unread(s) + [Payload(s.pc.d)]
  {
    StoreLastSlots(s);
    var s' := Store(s);
    var wi := s.p.writeIndex;
    var t := s'.p.buf[wi];
    assert Payload(t) == Payload(s.pc.d);
    WindowGrows(s.p.buf, wi, s.deq, s.ccs == s.p.cycle, t);
    PayloadsConcat(Window(s.p.buf, wi, s.deq, s.ccs == s.p.cycle), [t]);
    assert Unread(s') == Unread(s) + Payloads([t]);
  }

  lemma StoreLinkInv(s: State)
    requires Inv(s) && s.pc.Linking?
    ensures Inv(Store(s)) && Unread(Store(s)) == Unread(s)
  {
    var s' := Store(s);
    LinkRoundTrip(s.base);
    assert Unread(s') == Unread(s);
  }

  lemma StoreInv(s: State)
    requires Inv(s) && s.pc != Idle
    ensures CanStore(s) && Inv(Store(s)) && s.pushed <= Store(s).pushed
  {
    match s.pc
    case Writing(_, k) =>
      if k < 3 { StoreBodyInv(s); } else { StoreLastInv(s); }
    case Linking(_) => StoreLinkInv(s);
  }

  /** Following the Link TRB moves to slot 0 of the producer's lap and takes nothing. */
  lemma FetchLink(s: State)
    requires Inv(s) && CanFetch(s) && s.deq == |s.p.buf| - 1
    ensures Inv(Fetch(s)) && Unread(Fetch(s)) == Unread(s)
    ensures Fetch(s) == s.(deq := 0, ccs := s.p.cycle) && s.ccs != s.p.cycle
  {
    var s' := Fetch(s);
    assert s' == s.(deq := 0, ccs := s.p.cycle);
    assert s.p.buf[s.deq..s.deq] + s.p.buf[..s.p.writeIndex] == s.p.buf[0..s.p.writeIndex];
  }

  /** Any other fetch takes the oldest unread TRB. */
  lemma FetchTakesOldest(s: State)
    requires Inv(s) && CanFetch(s) && s.deq < |s.p.buf| - 1
    ensures |Unread(s)| > 0
    ensures Fetch(s) == s.(deq := s.deq + 1, consumed := s.consumed + [Unread(s)[0]])
    ensures Unread(Fetch(s)) == Unread(s)[1..]
  {
    var same := s.ccs == s.p.cycle;
    WindowTail(s.p.buf, s.p.writeIndex, s.deq, same);
    PayloadsTail(Window(s.p.buf, s.p.writeIndex, s.deq, same));
  }

  lemma FetchDataInv(s: State)
    requires Inv(s) && CanFetch(s) && s.deq < |s.p.buf| - 1
    ensures Inv(Fetch(s))
  {
    FetchTakesOldest(s);
    MoveFirst(s.consumed, Unread(s));
  }

  lemma FetchInv(s: State)
    requires Inv(s) && CanFetch(s)
    ensures Inv(Fetch(s)) && s.consumed <= Fetch(s).consumed && Fetch(s).pushed == s.pushed
    ensures Unread(s) == [] ==> Fetch(s).consumed == s.consumed && !CanFetch(Fetch(s))
    ensures Remaining(Fetch(s)) == Remaining(s) - 1
  {
    if s.deq == |s.p.buf| - 1 {
      FetchLink(s);
    } else {
      FetchTakesOldest(s);
      FetchDataInv(s);
    }
  }

  // ---------------------------------------------------------------------------
  // Runs
  // ---------------------------------------------------------------------------

  /** A push begins with an ordinary TRB, and after it at most N-2 are outstanding. */
  predicate Bounded(s: State, d: Trb) {
    d.ctl.trbType != LINK && Outstanding(s) + 1 <= |s.p.buf| - 2
  }

  ghost predicate Next(s: State, s': State) {
    || (exists d :: Bounded(s, d) && s.pc == Idle && s' == StartPush(s, d))
    || (CanStore(s) && s' == Store(s))
    || (CanFetch(s) && s' == Fetch(s))
  }

  ghost predicate StepAt(run: seq<State>, i: nat)
    requires i + 1 < |run|
  {
    Next(run[i], run[i + 1])
  }

  ghost predicate IsRun(run: seq<State>) {
    && |run| > 0
    && (exists base, n ::
          n >= 3 && base % 16 == 0 && 0 <= base < TWO_TO_THE_64 && run[0] == Init(base, n))
    && forall i :: 0 <= i < |run| - 1 ==> StepAt(run, i)
  }

  /** Staying within N-2 outstanding TRBs keeps every push harmless. */
  lemma BoundedCanPush(s: State, d: Trb)
    requires Inv(s) && s.pc == Idle && Bounded(s, d)
    ensures CanPush(s) && Inv(StartPush(s, d))
  {
    assert Unread(StartPush(s, d)) == Unread(s);
  }

  lemma NextInv(s: State, s': State)
    requires Inv(s) && Next(s, s')
    ensures Inv(s') && s.pushed <= s'.pushed && s.consumed <= s'.consumed
  {
    if d :| Bounded(s, d) && s.pc == Idle && s' == StartPush(s, d) {
      BoundedCanPush(s, d);
    } else if CanStore(s) && s' == Store(s) {
      StoreInv(s);
    } else {
      FetchInv(s);
    }
  }

  /** Safety of every run: whatever the interleaving of single-word stores and fetches, the
      controller has consumed a prefix of what was pushed, so no half-written TRB was ever
      taken, none was skipped and none was taken twice. */
  lemma {:induction false} RunSafe(run: seq<State>, i: nat)
    requires IsRun(run) && i < |run|
    ensures Inv(run[i]) && run[i].consumed <= run[i].pushed
  {
    if i == 0 {
      var base, n :| n >= 3 && base % 16 == 0 && 0 <= base < TWO_TO_THE_64 && run[0] == Init(base, n);
      InitInv(base, n);
    } else {
      RunSafe(run, i - 1);
      assert StepAt(run, i - 1);
      NextInv(run[i - 1], run[i]);
    }
  }

  /** The controller stops exactly when everything finished has been consumed; the only other
      thing it may still do then is to follow one Link TRB. */
  lemma StopsExactly(s: State)
    requires Inv(s)
    ensures s.consumed != s.pushed ==> CanFetch(s)
    ensures s.consumed == s.pushed ==> !CanFetch(s) || (!CanFetch(Fetch(s)) && Fetch(s).consumed == s.pushed)
  {
    if s.consumed == s.pushed {
      assert |Unread(s)| == 0;
      if CanFetch(s) { FetchInv(s); }
    }
  }

  /** Lets the controller run until it stops. */
  function Drain(s: State, fuel: nat): State
    decreases fuel
  {
    if fuel == 0 || !CanFetch(s) then s else Drain(Fetch(s), fuel - 1)
  }

  lemma RemainingCounts(s: State)
    requires Inv(s)
    ensures Outstanding(s) == |Unread(s)| && (CanFetch(s) ==> Remaining(s) > 0)
  {
    assert |s.consumed| + |Unread(s)| == |s.pushed|;
  }

  /** However far behind it is, the controller left alone gets to the end. */
  lemma {:induction false} DrainDelivers(s: State, fuel: nat)
    requires Inv(s) && fuel >= Remaining(s)
    ensures !CanFetch(Drain(s, fuel)) && Drain(s, fuel).consumed == s.pushed
    decreases fuel
  {
    RemainingCounts(s);
    if CanFetch(s) {
      FetchInv(s);
      DrainDelivers(Fetch(s), fuel - 1);
    } else {
      StopsExactly(s);
    }
  }

  /** The last N-2 pushes, or all of them. */
  function Recent(s: State): seq<Trb>
    requires |s.p.buf| >= 2
  {
    Last(s.pushed, |s.p.buf| - 2)
  }

  /** The store of a TRB's last word adds it to what is remembered. */
  lemma LastWordRemembers(p: Producer, d: Trb, recent: seq<Trb>)
    requires Remembers(p, recent) && |recent| <= |p.buf| - 2 && p.writeIndex + 1 < |p.buf|
    requires Stored(p.buf[p.writeIndex], d, 3)
    ensures Remembers(StoreWord(p, d, 3).(writeIndex := p.writeIndex + 1), recent + [Payload(d)])
  {
    var q := StoreWord(p, d, 3);
    StoreWordRemembers(p, d, 3, recent);
    assert Payload(q.buf[q.writeIndex]) == Payload(d);
    AdvanceRemembers(q, d, recent);
  }

  lemma StoreRecentData(s: State)
    requires CanStore(s) && s.pc.Writing? && s.pc.k == 3 && s.p.writeIndex + 1 < |s.p.buf| && |s.p.buf| >= 3
    requires Stored(s.p.buf[s.p.writeIndex], s.pc.d, 3) && Remembers(s.p, Recent(s))
    ensures Remembers(Store(s).p, Recent(Store(s)))
  {
    var d, n, recent := s.pc.d, |s.p.buf| - 2, Recent(s);
    LastWordRemembers(s.p, d, recent);
    LastGrows(s.pushed, n, Payload(d));
    var q := StoreWord(s.p, d, 3).(writeIndex := s.p.writeIndex + 1);
    SuffixRemembered(q, recent + [Payload(d)], Dropped(s.pushed, n));
    assert Store(s).p == q && Store(s).pushed == s.pushed + [Payload(d)];
  }

  /** What a store does to the counters. */
  lemma StoreCounts(s: State)
    requires CanStore(s) && (s.p.writeIndex == |s.p.buf| - 1 <==> s.pc.Linking?)
    ensures var q, m := Store(s), |s.p.buf| - 1;
            && |q.p.buf| == m + 1 && q.base == s.base && q.deq == s.deq && q.consumed == s.consumed
            && (if s.pc.k < 3 then
                  q.p.writeIndex == s.p.writeIndex && q.pushed == s.pushed && (q.pc.Linking? <==> s.pc.Linking?)
                else if s.pc.Writing? then
                  && q.p.writeIndex == s.p.writeIndex + 1 && |q.pushed| == |s.pushed| + 1
                  && (q.pc.Linking? <==> q.p.writeIndex == m)
                else q.p.writeIndex == 0 && q.pushed == s.pushed && q.pc == Idle)
  {
  }

  lemma StoreRecentLink(s: State)
    requires CanStore(s) && s.pc.Linking? && s.pc.k == 3 && s.p.writeIndex == |s.p.buf| - 1 && |s.p.buf| >= 3
    requires Remembers(s.p, Recent(s))
    ensures Remembers(Store(s).p, Recent(Store(s)))
  {
    WrapRemembers(s.p, StoreWord(s.p, LinkTo(s.base), 3).buf[s.p.writeIndex], Recent(s));
  }

  lemma StoreRecentEarly(s: State)
    requires CanStore(s) && s.pc.k < 3 && |s.p.buf| >= 3 && Remembers(s.p, Recent(s))
    ensures Remembers(Store(s).p, Recent(Store(s)))
  {
    StoreWordRemembers(s.p, if s.pc.Writing? then s.pc.d else LinkTo(s.base), s.pc.k, Recent(s));
  }

  lemma StoreReady(s: State)
    requires Inv(s) && s.pc != Idle
    ensures CanStore(s) && |s.p.buf| >= 3 && (s.pc.Linking? <==> s.p.writeIndex == |s.p.buf| - 1)
    ensures s.pc.Writing? ==> Stored(s.p.buf[s.p.writeIndex], s.pc.d, s.pc.k)
  {
  }

  lemma StoreRecent(s: State)
    requires Inv(s) && s.pc != Idle && Remembers(s.p, Recent(s))
    ensures CanStore(s) && |Store(s).p.buf| == |s.p.buf| && Remembers(Store(s).p, Recent(Store(s)))
  {
    StoreReady(s);
    StoreCounts(s);
    if s.pc.k < 3 {
      StoreRecentEarly(s);
    } else if s.pc.Writing? {
      StoreRecentData(s);
    } else {
      StoreRecentLink(s);
    }
  }

  /** The controller writes nothing. */
  lemma FetchRecent(s: State)
    requires CanFetch(s) && |s.p.buf| >= 2
    ensures Fetch(s).p == s.p && Fetch(s).pushed == s.pushed && Recent(Fetch(s)) == Recent(s)
  {
  }

  lemma NextRecent(s: State, s': State)
    requires Inv(s) && Next(s, s') && Remembers(s.p, Recent(s))
    ensures |s'.p.buf| == |s.p.buf| && Remembers(s'.p, Recent(s'))
  {
    if CanStore(s) && s' == Store(s) {
      StoreRecent(s);
    } else if CanFetch(s) && s' == Fetch(s) {
      FetchRecent(s);
    }
  }

  /** Over every run, fetched or not, the last N-2 pushes are still in the ring memory, each in
      the slot it was pushed to. */
  lemma {:induction false} RunRemembers(run: seq<State>, i: nat)
    requires IsRun(run) && i < |run|
    ensures |run[i].p.buf| >= 3 && Remembers(run[i].p, Recent(run[i]))
  {
    if i == 0 {
      var base, n :| n >= 3 && base % 16 == 0 && 0 <= base < TWO_TO_THE_64 && run[0] == Init(base, n);
      assert Recent(run[0]) == [];
    } else {
      RunRemembers(run, i - 1);
      RunSafe(run, i - 1);
      assert StepAt(run, i - 1);
      NextRecent(run[i - 1], run[i]);
    }
  }

  // ---------------------------------------------------------------------------
  // Whole pushes: the exact condition and the tightness of the bound
  // ---------------------------------------------------------------------------

  /** A push carried through without a fetch in between. */
  function PushAll(s: State, d: Trb): State
    requires s.p.writeIndex + 1 < |s.p.buf| && s.base < TWO_TO_THE_64
  {
    s.(p := PushTo(s.p, d, s.base), pushed := s.pushed + [Payload(d)], pc := Idle)
  }

  function Stores(s: State, k: nat): State
    decreases k
  {
    if k == 0 || !CanStore(s) then s else Stores(Store(s), k - 1)
  }

  /** `Push` is its four or eight stores. */
  lemma PushIsStores(s: State, d: Trb)
    requires s.p.writeIndex + 1 < |s.p.buf| && s.base < TWO_TO_THE_64 && s.pc == Idle
    ensures var k := if s.p.writeIndex + 2 == |s.p.buf| then 8 else 4;
            Stores(StartPush(s, d), k) == PushAll(s, d)
  {
    var s0 := StartPush(s, d);
    var s4 := FourStores(s0);
    FourWordsAreOneTrb(s.p, d);
    if s.p.writeIndex + 2 < |s.p.buf| {
      assert Stores(s4, 0) == s4;
    } else {
      var s8 := FourStores(s4);
      FourWordsAreOneTrb(s4.p, LinkTo(s.base));
      assert Stores(s8, 0) == s8;
      FourThenMore(s4, 0);
    }
    FourThenMore(s0, if s.p.writeIndex + 2 == |s.p.buf| then 4 else 0);
  }

  predicate AtFirstWord(s: State) {
    CanStore(s) && match s.pc case Idle => false case Writing(_, k) => k == 0 case Linking(k) => k == 0
  }

  function FourStores(s: State): State
    requires AtFirstWord(s)
  {
    Store(Store(Store(Store(s))))
  }

  lemma FourThenMore(s: State, more: nat)
    requires AtFirstWord(s)
    ensures Stores(s, more + 4) == Stores(FourStores(s), more)
  {
    var s1 := Store(s);
    var s2 := Store(s1);
    var s3 := Store(s2);
    assert Stores(s2, more + 2) == Stores(s3, more + 1);
    assert Stores(s, more + 4) == Stores(s1, more + 3);
  }

  lemma {:induction false} StoresInv(s: State, k: nat)
    requires Inv(s)
    ensures Inv(Stores(s, k))
    decreases k
  {
    if k > 0 && CanStore(s) {
      StoreInv(s);
      StoresInv(Store(s), k - 1);
    }
  }

  lemma PushAllInv(s: State, d: Trb)
    requires Inv(s) && s.pc == Idle && CanPush(s) && d.ctl.trbType != LINK
    ensures Inv(PushAll(s, d))
  {
    assert Unread(StartPush(s, d)) == Unread(s);
    StoresInv(StartPush(s, d), if s.p.writeIndex + 2 == |s.p.buf| then 8 else 4);
    PushIsStores(s, d);
  }

  /** A push that may not start leaves the controller in front of a slot it takes for stale. */
  lemma BadPushBlocks(s: State, d: Trb)
    requires Inv(s) && s.pc == Idle && !CanPush(s)
    ensures !CanFetch(PushAll(s, d))
  {
  }

  /** The exact condition: after a whole push the controller, left alone, delivers everything
      pushed so far if and only if `CanPush` held before it. */
  lemma PushLossless(s: State, d: Trb, fuel: nat)
    requires Inv(s) && s.pc == Idle && d.ctl.trbType != LINK && fuel >= Outstanding(s) + 2
    ensures CanPush(s) <==> Drain(PushAll(s, d), fuel).consumed == PushAll(s, d).pushed
  {
    RemainingCounts(s);
    if CanPush(s) {
      PushAllInv(s, d);
      DrainDelivers(PushAll(s, d), fuel);
    } else {
      BadPushBlocks(s, d);
      assert |PushAll(s, d).pushed| == |s.pushed| + 1;
    }
  }

  ghost predicate Reachable(s: State) {
    exists run :: IsRun(run) && run[|run| - 1] == s
  }

  lemma ReachNext(s: State, s': State)
    requires Reachable(s) && Next(s, s')
    ensures Reachable(s')
  {
    var run :| IsRun(run) && run[|run| - 1] == s;
    var longer := run + [s'];
    forall i | 0 <= i < |longer| - 1 ensures StepAt(longer, i) {
      if i < |run| - 1 { assert StepAt(run, i); }
    }
    assert IsRun(longer);
  }

  lemma {:induction false} ReachStores(s: State, k: nat)
    requires Reachable(s)
    ensures Reachable(Stores(s, k))
    decreases k
  {
    if k > 0 && CanStore(s) {
      ReachNext(s, Store(s));
      ReachStores(Store(s), k - 1);
    }
  }

  lemma ReachPush(s: State, d: Trb)
    requires Reachable(s) && Inv(s) && s.pc == Idle && Bounded(s, d)
    ensures Reachable(PushAll(s, d)) && Inv(PushAll(s, d))
  {
    assert Next(s, StartPush(s, d));
    ReachNext(s, StartPush(s, d));
    ReachStores(StartPush(s, d), if s.p.writeIndex + 2 == |s.p.buf| then 8 else 4);
    PushIsStores(s, d);
    BoundedCanPush(s, d);
    PushAllInv(s, d);
  }

  lemma InitReachable(base: nat, n: nat)
    requires n >= 3 && base % 16 == 0 && base < TWO_TO_THE_64
    ensures Reachable(Init(base, n)) && Inv(Init(base, n))
  {
    var run := [Init(base, n)];
    InitInv(base, n);
    assert IsRun(run) && run[|run| - 1] == Init(base, n);
  }

  lemma TakeOne(s: State)
    requires Reachable(s) && Inv(s) && Outstanding(s) == 1 && s.deq + 1 < |s.p.buf|
    ensures CanFetch(s) && Reachable(Fetch(s)) && Inv(Fetch(s))
    ensures Outstanding(Fetch(s)) == 0 && Fetch(s) == s.(deq := s.deq + 1, consumed := Fetch(s).consumed)
  {
    StopsExactly(s);
    FetchTakesOldest(s);
    FetchDataInv(s);
    ReachNext(s, Fetch(s));
  }

  /** First lap, the controller keeping up: it ends in front of the Link TRB. */
  lemma {:induction false} KeepUp(base: nat, n: nat, d: Trb, k: nat) returns (s: State)
    requires n >= 3 && base % 16 == 0 && base < TWO_TO_THE_64 && d.ctl.trbType != LINK && k < n
    ensures Reachable(s) && Inv(s) && s.pc == Idle && |s.p.buf| == n && Outstanding(s) == 0
    ensures s.deq == k && s.ccs && s.p.writeIndex == (if k == n - 1 then 0 else k) && (s.p.cycle <==> k < n - 1)
  {
    if k == 0 {
      s := Init(base, n);
      InitReachable(base, n);
    } else {
      var t := KeepUp(base, n, d, k - 1);
      ReachPush(t, d);
      TakeOne(PushAll(t, d));
      s := Fetch(PushAll(t, d));
    }
  }

  /** Second lap, the controller parked on the Link TRB it has not followed yet. */
  lemma {:induction false} Parked(base: nat, n: nat, d: Trb, k: nat) returns (s: State)
    requires n >= 3 && base % 16 == 0 && base < TWO_TO_THE_64 && d.ctl.trbType != LINK && k <= n - 2
    ensures Reachable(s) && Inv(s) && s.pc == Idle && |s.p.buf| == n && Outstanding(s) == k
    ensures s.deq == n - 1 && s.ccs && !s.p.cycle && s.p.writeIndex == k
  {
    if k == 0 {
      s := KeepUp(base, n, d, n - 1);
    } else {
      var t := Parked(base, n, d, k - 1);
      ReachPush(t, d);
      s := PushAll(t, d);
    }
  }

  /** The bound cannot be raised: for every ring size there is a run within it after which one
      more push, the (N-1)st outstanding, loses data. */
  lemma BoundIsTight(base: nat, n: nat, d: Trb, fuel: nat) returns (s: State)
    requires n >= 3 && base % 16 == 0 && base < TWO_TO_THE_64 && d.ctl.trbType != LINK && fuel >= n
    ensures Reachable(s) && s.pc == Idle && |s.p.buf| == n && Outstanding(s) == n - 2
    ensures s.p.writeIndex + 1 < n && s.base < TWO_TO_THE_64
    ensures !CanFetch(PushAll(s, d))
    ensures Drain(PushAll(s, d), fuel).consumed != PushAll(s, d).pushed
  {
    s := Parked(base, n, d, n - 2);
    PushLossless(s, d, fuel);
    BadPushBlocks(s, d);
  }

  // ---------------------------------------------------------------------------
  // The driver's ring
  // ---------------------------------------------------------------------------

  class Ring {
    var buf: array<Trb>
    var bufSize: nat
    /** Where the buffer lies; the target of the Link TRB. */
    var address: nat
    var cycleBit: bool
    var writeIndex: nat

    ghost predicate Valid()
      reads this, buf
    {
      buf.Length == bufSize >= 3 && writeIndex + 1 < bufSize && address < TWO_TO_THE_64
    }

    ghost function View(): Producer
      reads this, buf
    {
      Producer(buf[..], writeIndex, cycleBit)
    }

    constructor ()
      ensures fresh(buf)
    {
      buf := new Trb[0];
      bufSize, address, cycleBit, writeIndex := 0, 0, false, 0;
    }

    /** `memory` is what the pool allocator returned, 0 for a null pointer. Nothing asks for the
        three slots that the ring needs to work. */
    method Initialize(size: nat, memory: nat) returns (ok: bool)
      requires memory < TWO_TO_THE_64
      modifies this
      ensures ok <==> memory != 0
      ensures ok ==> fresh(buf) && address == memory && View() == Init(memory, size).p && (Valid() <==> size >= 3)
    {
      cycleBit, writeIndex, bufSize := true, 0, size;
      if memory == 0 {
        return false;
      }
      address := memory;
      buf := new Trb[size](_ => ZERO);
      assert buf[..] == Init(memory, size).p.buf;
      ok := true;
    }

    method CopyToLast(data: Trb)
      requires writeIndex < buf.Length
      modifies buf
      ensures View() == StoreTrb(old(View()), data)
    {
      ghost var before := View();
      var stamped := Stamped(data, cycleBit);
      for i := 0 to 3
        invariant View() == (if i == 0 then before
                             else if i == 1 then StoreWord(before, data, 0)
                             else if i == 2 then StoreWord(StoreWord(before, data, 0), data, 1)
                             else StoreWord(StoreWord(StoreWord(before, data, 0), data, 1), data, 2))
      {
        ghost var was := View();
        buf[writeIndex] := CopyWord(buf[writeIndex], data, i);
        assert View() == StoreWord(was, data, i);
      }
      ghost var was := View();
      buf[writeIndex] := CopyWord(buf[writeIndex], stamped, 3);
      assert View() == StoreWord(was, data, 3);
      FourWordsAreOneTrb(before, data);
    }

    /** Adds `data` with the right cycle bit and returns the slot it went to. */
    method Push(data: Trb) returns (slot: nat)
      requires Valid()
      modifies this`writeIndex, this`cycleBit, buf
      ensures Valid() && slot == old(writeIndex)
      ensures View() == PushTo(old(View()), data, address)
    {
      slot := writeIndex;
      CopyToLast(data);
      writeIndex := writeIndex + 1;
      if writeIndex == bufSize - 1 {
        CopyToLast(LinkTo(address));
        writeIndex := 0;
        cycleBit := !cycleBit;
      }
    }
  }
}
