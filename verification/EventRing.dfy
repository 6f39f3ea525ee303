/** The event ring: here the controller produces and the driver consumes. There is no Link
    TRB; both sides wrap at the end of the one segment and flip their cycle state. The
    driver's only position is the dequeue pointer, kept shifted in a controller register. */
module EventRings {
  import opened Wrappers
  import opened Trb

  /** The event ring dequeue pointer register: 4 low bits that belong to the controller and
      60 bits of address. */
  datatype Erdp = Erdp(low: nat, high: nat)

  function Pointer(r: Erdp): nat {
    r.high * 16
  }

  function SetPointer(r: Erdp, address: nat): Erdp {
    r.(high := address / 16)
  }

  /** The shifted pointer survives the register exactly when it is 16-byte aligned. */
  lemma PointerRoundTrip(r: Erdp, address: nat)
    ensures Pointer(SetPointer(r, address)) == address <==> address % 16 == 0
    ensures SetPointer(r, address).low == r.low
  {
  }

  /** The driver's side: memory, segment size as stored in the segment table, dequeue
      register and cycle state. */
  datatype Consumer = Consumer(base: nat, buf: seq<Trb>, size: nat, erdp: Erdp, ccs: bool)

  function Slot(c: Consumer): int {
    (Pointer(c.erdp) - c.base) / 16
  }

  predicate InSegment(c: Consumer) {
    c.base % 16 == 0 && c.size == |c.buf| && c.base <= Pointer(c.erdp) < c.base + 16 * c.size
  }

  predicate SeesFront(c: Consumer)
    requires InSegment(c)
  {
    c.buf[Slot(c)].ctl.cycle == c.ccs
  }

  function AtFront(c: Consumer): Trb
    requires InSegment(c)
  {
    c.buf[Slot(c)]
  }

  /** `Pop` on addresses: one TRB further, back to the base at the segment's end. */
  function PopFrom(c: Consumer): Consumer {
    var p := Pointer(c.erdp) + 16;
    if p == c.base + 16 * c.size then c.(erdp := SetPointer(c.erdp, c.base), ccs := !c.ccs)
    else c.(erdp := SetPointer(c.erdp, p))
  }

  lemma PopMoves(c: Consumer)
    requires InSegment(c)
    ensures InSegment(PopFrom(c))
    ensures Slot(c) + 1 < c.size ==> PopFrom(c) == c.(erdp := c.erdp.(high := c.erdp.high + 1)) && Slot(PopFrom(c)) == Slot(c) + 1
    ensures Slot(c) + 1 == c.size ==> PopFrom(c) == c.(erdp := c.erdp.(high := c.base / 16), ccs := !c.ccs) && Slot(PopFrom(c)) == 0
  {
  }

  // ---------------------------------------------------------------------------
  // The protocol
  // ---------------------------------------------------------------------------

  /** The main loop between `Front` and `Pop` still holds the event it is handling. */
  datatype Pc = Waiting | Handling(event: Trb)

  /** `enq` and `pcs` are the controller's; `half` says that the body of the TRB at `enq` is
      written and its last word is not. `posted` and `handled` are histories. */
  datatype State = State(c: Consumer, pc: Pc, enq: nat, pcs: bool, half: bool, posted: seq<Trb>, handled: seq<Trb>)

  function Init(base: nat, n: nat, low: nat): State {
    State(Consumer(base, seq(n, i => ZERO), n, SetPointer(Erdp(low, 0), base), true), Waiting, 0, true, false, [], [])
  }

  /** The controller writes a new event only while fewer than N are unread. */
  predicate HasRoom(s: State) {
    |s.posted| - |s.handled| < |s.c.buf|
  }

  predicate CanPostBody(s: State) {
    !s.half && HasRoom(s) && s.enq < |s.c.buf|
  }

  function PostBody(s: State, e: Trb): State
    requires CanPostBody(s)
  {
    s.(c := s.c.(buf := s.c.buf[s.enq := e.(ctl := s.c.buf[s.enq].ctl)]), half := true)
  }

  predicate CanPostLast(s: State) {
    s.half && s.enq < |s.c.buf|
  }

  function PostLast(s: State, ctl: Control): State
    requires CanPostLast(s)
  {
    var t := s.c.buf[s.enq].(ctl := ctl.(cycle := s.pcs));
    var last := s.enq + 1 == |s.c.buf|;
    s.(c := s.c.(buf := s.c.buf[s.enq := t]), half := false, posted := s.posted + [Payload(t)],
       enq := if last then 0 else s.enq + 1, pcs := if last then !s.pcs else s.pcs)
  }

  predicate CanBegin(s: State) {
    s.pc.Waiting? && InSegment(s.c) && SeesFront(s.c)
  }

  function Begin(s: State): State
    requires CanBegin(s)
  {
    s.(pc := Handling(AtFront(s.c)))
  }

  function End(s: State): State
    requires s.pc.Handling?
  {
    s.(pc := Waiting, c := PopFrom(s.c), handled := s.handled + [Payload(s.pc.event)])
  }

  ghost predicate Next(s: State, s': State) {
    || (CanPostBody(s) && exists e :: s' == PostBody(s, e))
    || (CanPostLast(s) && exists ctl :: s' == PostLast(s, ctl))
    || (CanBegin(s) && s' == Begin(s))
    || (s.pc.Handling? && s' == End(s))
  }

  // ---------------------------------------------------------------------------
  // The invariant
  // ---------------------------------------------------------------------------

  function Window(buf: seq<Trb>, enq: nat, deq: nat, sameLap: bool): seq<Trb>
    requires enq < |buf| && deq < |buf|
  {
    if sameLap then (if deq <= enq then buf[deq..enq] else [])
    else buf[deq..] + buf[..enq]
  }

  function Unread(s: State): seq<Trb>
    requires InSegment(s.c) && s.enq < |s.c.buf|
  {
    Payloads(Window(s.c.buf, s.enq, Slot(s.c), s.c.ccs == s.pcs))
  }

  /** Slots before the producer carry its cycle state, the others the opposite one. */
  ghost predicate Slots(buf: seq<Trb>, enq: nat, pcs: bool)
    requires enq < |buf|
  {
    && (forall i :: 0 <= i < enq ==> buf[i].ctl.cycle == pcs)
    && (forall i :: enq <= i < |buf| ==> buf[i].ctl.cycle != pcs)
  }

  ghost predicate Inv(s: State) {
    && InSegment(s.c) && s.enq < |s.c.buf|
    && (if s.c.ccs == s.pcs then Slot(s.c) <= s.enq else s.enq <= Slot(s.c))
    && Slots(s.c.buf, s.enq, s.pcs)
    && s.handled + Unread(s) == s.posted
    && (s.half ==> HasRoom(s))
    && (s.pc.Handling? ==> SeesFront(s.c) && s.pc.event == AtFront(s.c))
  }

  lemma InitInv(base: nat, n: nat, low: nat)
    requires n > 0 && base % 16 == 0
    ensures Inv(Init(base, n, low))
  {
    PointerRoundTrip(Erdp(low, 0), base);
  }

  /** `HasFront` is exact: it holds if and only if an event is unread, and then `Front` is the
      oldest one. */
  lemma HasFrontExact(s: State)
    requires Inv(s)
    ensures SeesFront(s.c) <==> s.handled != s.posted
    ensures SeesFront(s.c) ==> |s.handled| < |s.posted| && Payload(AtFront(s.c)) == s.posted[|s.handled|]
  {
    var w := Window(s.c.buf, s.enq, Slot(s.c), s.c.ccs == s.pcs);
    assert |s.handled| + |w| == |s.posted|;
    if SeesFront(s.c) {
      assert w[0] == AtFront(s.c);
      assert Unread(s)[0] == s.posted[|s.handled|];
    }
  }

  lemma WindowTail(buf: seq<Trb>, enq: nat, deq: nat, sameLap: bool)
    requires enq < |buf| && deq < |buf| && (if sameLap then deq < enq else enq <= deq)
    ensures var w := Window(buf, enq, deq, sameLap);
            |w| > 0 && w[0] == buf[deq] &&
            w[1..] == if deq + 1 < |buf| then Window(buf, enq, deq + 1, sameLap) else Window(buf, enq, 0, !sameLap)
  {
  }

  /** `Pop` drops the oldest unread event and nothing else. */
  /** A pop takes the first slot out of the window, at the end of the segment too. */
  lemma EndWindow(s: State)
    requires InSegment(s.c) && s.enq < |s.c.buf| && s.pc.Handling?
    requires if s.c.ccs == s.pcs then Slot(s.c) < s.enq else s.enq <= Slot(s.c)
    ensures InSegment(End(s).c) && End(s).c.buf == s.c.buf
    ensures var w := Window(s.c.buf, s.enq, Slot(s.c), s.c.ccs == s.pcs);
            && |w| > 0 && w[0] == s.c.buf[Slot(s.c)]
            && w[1..] == Window(s.c.buf, s.enq, Slot(End(s).c), End(s).c.ccs == s.pcs)
  {
    PopMoves(s.c);
    WindowTail(s.c.buf, s.enq, Slot(s.c), s.c.ccs == s.pcs);
  }

  lemma EndUnread(s: State)
    requires Inv(s) && s.pc.Handling?
    ensures InSegment(End(s).c) && |Unread(s)| > 0 && Unread(s)[0] == Payload(s.pc.event)
    ensures Unread(End(s)) == Unread(s)[1..]
  {
    HasFrontExact(s);
    EndWindow(s);
    PayloadsTail(Window(s.c.buf, s.enq, Slot(s.c), s.c.ccs == s.pcs));
  }

  lemma EndInv(s: State)
    requires Inv(s) && s.pc.Handling?
    ensures Inv(End(s)) && s.handled <= End(s).handled
  {
    EndUnread(s);
    EndSides(s);
    MoveFirst(s.handled, Unread(s));
  }

  lemma EndSides(s: State)
    requires Inv(s) && s.pc.Handling?
    ensures InSegment(End(s).c) && End(s).c.buf == s.c.buf
    ensures if End(s).c.ccs == s.pcs then Slot(End(s).c) <= s.enq else s.enq <= Slot(End(s).c)
  {
    PopMoves(s.c);
  }

  lemma WindowGrows(buf: seq<Trb>, enq: nat, deq: nat, sameLap: bool, t: Trb)
    requires enq < |buf| && deq < |buf| && (if sameLap then deq <= enq else enq < deq)
    ensures Window(buf, enq, deq, sameLap) + [t]
         == if enq + 1 < |buf| then Window(buf[enq := t], enq + 1, deq, sameLap)
            else Window(buf[enq := t], 0, deq, !sameLap)
  {
  }

  lemma PostBodyInv(s: State, e: Trb)
    requires Inv(s) && CanPostBody(s)
    ensures Inv(PostBody(s, e))
  {
    var s' := PostBody(s, e);
    assert |s.handled| + |Unread(s)| == |s.posted|;
    var same := s.c.ccs == s.pcs;
    assert Window(s'.c.buf, s.enq, Slot(s.c), same) == Window(s.c.buf, s.enq, Slot(s.c), same);
  }

  /** The event whose last word is stored now. */
  function Finished(s: State, ctl: Control): Trb
    requires CanPostLast(s)
  {
    s.c.buf[s.enq].(ctl := ctl.(cycle := s.pcs))
  }

  /** Room in the ring keeps the producer strictly behind a consumer it has lapped. */
  lemma RoomMeansBehind(s: State)
    requires Inv(s) && s.half
    ensures s.c.ccs != s.pcs ==> s.enq < Slot(s.c)
  {
    assert |s.handled| + |Unread(s)| == |s.posted|;
  }

  lemma PostLastWindow(s: State, ctl: Control)
    requires InSegment(s.c) && CanPostLast(s)
    requires if s.c.ccs == s.pcs then Slot(s.c) <= s.enq else s.enq < Slot(s.c)
    ensures var s' := PostLast(s, ctl);
            && InSegment(s'.c) && s'.enq < |s.c.buf| && Slot(s'.c) == Slot(s.c)
            && Window(s'.c.buf, s'.enq, Slot(s'.c), s'.c.ccs == s'.pcs)
               == Window(s.c.buf, s.enq, Slot(s.c), s.c.ccs == s.pcs) + [Finished(s, ctl)]
  {
    WindowGrows(s.c.buf, s.enq, Slot(s.c), s.c.ccs == s.pcs, Finished(s, ctl));
  }

  lemma PostLastUnread(s: State, ctl: Control)
    requires Inv(s) && CanPostLast(s)
    ensures InSegment(PostLast(s, ctl).c) && PostLast(s, ctl).enq < |s.c.buf|
    ensures Unread(PostLast(s, ctl)) == Unread(s) + [Payload(Finished(s, ctl))]
  {
    RoomMeansBehind(s);
    PostLastWindow(s, ctl);
    var t := Finished(s, ctl);
    PayloadsConcat(Window(s.c.buf, s.enq, Slot(s.c), s.c.ccs == s.pcs), [t]);
    assert Payloads([t]) == [Payload(t)];
  }

  lemma PostLastInv(s: State, ctl: Control)
    requires Inv(s) && CanPostLast(s)
    ensures Inv(PostLast(s, ctl))
  {
    RoomMeansBehind(s);
    PostLastUnread(s, ctl);
    PostLastSlots(s, ctl);
    var s' := PostLast(s, ctl);
    assert Slot(s'.c) == Slot(s.c);
    assert s'.handled + Unread(s') == s'.posted;
  }

  lemma PostLastSlots(s: State, ctl: Control)
    requires Inv(s) && CanPostLast(s)
    ensures var s' := PostLast(s, ctl); s'.enq < |s'.c.buf| && Slots(s'.c.buf, s'.enq, s'.pcs)
  {
  }

  lemma NextInv(s: State, s': State)
    requires Inv(s) && Next(s, s')
    ensures Inv(s')
  {
    if e :| CanPostBody(s) && s' == PostBody(s, e) {
      PostBodyInv(s, e);
    } else if ctl :| CanPostLast(s) && s' == PostLast(s, ctl) {
      PostLastInv(s, ctl);
    } else if CanBegin(s) && s' == Begin(s) {
    } else {
      EndInv(s);
    }
  }

  ghost predicate StepAt(run: seq<State>, i: nat)
    requires i + 1 < |run|
  {
    Next(run[i], run[i + 1])
  }

  ghost predicate IsRun(run: seq<State>) {
    && |run| > 0
    && (exists base, n, low :: n > 0 && base >= 0 && low >= 0 && base % 16 == 0 && run[0] == Init(base, n, low))
    && forall i :: 0 <= i < |run| - 1 ==> StepAt(run, i)
  }

  /** Exactly once and in order, over every run: what has been handled is a prefix of what has
      been posted, across any number of wraps, and the driver sees a front element exactly
      while something is unread. */
  lemma {:induction false} RunExactlyOnce(run: seq<State>, i: nat)
    requires IsRun(run) && i < |run|
    ensures Inv(run[i]) && run[i].handled <= run[i].posted
    ensures SeesFront(run[i].c) <==> |run[i].handled| < |run[i].posted|
  {
    if i == 0 {
      var base, n, low :| n > 0 && base >= 0 && low >= 0 && base % 16 == 0 && run[0] == Init(base, n, low);
      InitInv(base, n, low);
    } else {
      RunExactlyOnce(run, i - 1);
      assert StepAt(run, i - 1);
      NextInv(run[i - 1], run[i]);
    }
    HasFrontExact(run[i]);
  }

  // ---------------------------------------------------------------------------
  // The driver's class
  // ---------------------------------------------------------------------------

  /** The registers of the primary interrupter that the ring uses. */
  /** The interrupter's registers that the event ring writes. */
  class Interrupter {
    var erdp: Erdp
    /** The number of segment table entries, and the table's address without its low six bits. */
    var erstSize: nat
    var erstBase: nat

    constructor (low: nat)
      ensures erdp == Erdp(low, 0) && erstSize == 0 && erstBase == 0
    {
      erdp, erstSize, erstBase := Erdp(low, 0), 0, 0;
    }
  }

  class EventRing {
    var buf: array<Trb>
    var address: nat
    /** The 16-bit size field of the one segment table entry. */
    var segmentSize: nat
    var cycleBit: bool
    var interrupter: Interrupter

    ghost predicate Valid()
      reads this, buf, interrupter
    {
      InSegment(View())
    }

    ghost function View(): Consumer
      reads this, buf, interrupter
    {
      Consumer(address, buf[..], segmentSize, interrupter.erdp, cycleBit)
    }

    constructor (interrupter: Interrupter)
      ensures this.interrupter == interrupter && fresh(buf)
    {
      buf := new Trb[0];
      address, segmentSize, cycleBit := 0, 0, false;
      this.interrupter := interrupter;
    }

    /** `ring` and `table` are what the pool allocator returned for the segment and the segment
        table, 0 for a null pointer. The size is cut to 16 bits on its way into the table, so a
        larger segment leaves a ring that does not work. */
    method Initialize(size: nat, interrupter: Interrupter, ring: nat, table: nat) returns (ok: bool)
      requires size > 0 && ring % 16 == 0
      modifies this, interrupter
      ensures ok <==> ring != 0 && table != 0
      ensures ok ==>
                && fresh(buf) && this.interrupter == interrupter
                && View() == Init(ring, size, old(interrupter.erdp.low)).c.(size := size % TWO_TO_THE_16)
                && (Valid() <==> size < TWO_TO_THE_16)
                && interrupter.erstSize == 1 && interrupter.erstBase == table / 64
    {
      cycleBit := true;
      this.interrupter := interrupter;
      if ring == 0 {
        return false;
      }
      address := ring;
      buf := new Trb[size](_ => ZERO);
      if table == 0 {
        return false;
      }
      segmentSize := size % TWO_TO_THE_16;
      interrupter.erstSize := 1;
      WriteDequeuePointer(ring);
      interrupter.erstBase := table / 64;
      assert buf[..] == seq(size, i => ZERO);
      PointerRoundTrip(Erdp(interrupter.erdp.low, 0), ring);
      ok := true;
    }

    function ReadDequeuePointer(): nat
      reads this, interrupter
    {
      Pointer(interrupter.erdp)
    }

    method WriteDequeuePointer(p: nat)
      modifies interrupter`erdp
      ensures interrupter.erdp == SetPointer(old(interrupter.erdp), p)
    {
      interrupter.erdp := SetPointer(interrupter.erdp, p);
    }

    method HasFront() returns (r: bool)
      requires Valid()
      ensures r <==> SeesFront(View())
    {
      r := buf[(ReadDequeuePointer() - address) / 16].ctl.cycle == cycleBit;
    }

    function Front(): Trb
      requires Valid()
      reads this, buf, interrupter
      ensures Front() == AtFront(View())
    {
      buf[(ReadDequeuePointer() - address) / 16]
    }

    method Pop()
      requires Valid()
      modifies this`cycleBit, interrupter`erdp
      ensures Valid() && View() == PopFrom(old(View()))
    {
      PopMoves(View());
      var p := ReadDequeuePointer() + 16;
      if p == address + 16 * segmentSize {
        p := address;
        cycleBit := !cycleBit;
      }
      WriteDequeuePointer(p);
    }
  }
}
