/** The command ring inside the enumeration: driver steps issue commands word by word into a
    ring of 32 slots, the controller fetches and completes them at its own pace. The bound
    the ring needs is not assumed here, it follows from the number of device slots. */
module CommandRing {
  import E = Enumeration
  import R = TransferRing
  import opened Wrappers
  import opened Trb

  const SIZE := 32

  /** A TRB that carries the command: its type and, but for Enable Slot, its slot. The input
      context pointer is left open. */
  predicate Carries(t: Trb, c: E.Command) {
    t.ctl.trbType == E.TypeOf(c) && (!c.EnableSlot? ==> t.ctl.upper / 256 == c.slot)
  }

  /** The command TRB that the driver pushes; the context pointer is kept without its low four bits. */
  function CommandTrb(c: E.Command, inputContext: nat): Trb
    requires inputContext < TWO_TO_THE_64
  {
    var p := if c.EnableSlot? then 0 else inputContext / 16 * 16;
    Trb(p % TWO_TO_THE_32, p / TWO_TO_THE_32, 0,
        Control(false, false, 0, E.TypeOf(c), if c.EnableSlot? then 0 else 256 * c.slot))
  }

  /** Its words, laid out as in section 6.4.3 of the xHCI specification: the type in bits 10 to 15
      of the last word, the slot in bits 24 to 31, the pointer in the first two words. */
  lemma CommandWords(c: E.Command, inputContext: nat)
    requires inputContext < TWO_TO_THE_64
    ensures var t := CommandTrb(c, inputContext);
            && Carries(t, c) && t.w2 == 0 && E.Issuer(t.ctl.trbType, if c.EnableSlot? then 0 else c.slot) == Some(c)
            && PackControl(t.ctl) == (match c
                                      case EnableSlot => 0x400 * 9
                                      case AddressDevice(slot) => 0x400 * 11 + 0x100_0000 * slot
                                      case ConfigureEndpoint(slot) => 0x400 * 12 + 0x100_0000 * slot)
            && (!c.EnableSlot? ==> (t.w0 + TWO_TO_THE_32 * t.w1 == inputContext <==> inputContext % 16 == 0))
  {
  }

  /**
   * `taken` holds the addresses of the TRBs the controller has fetched, `completed` counts
   * those it has executed, and `named` holds the addresses in the completion events that the
   * driver has not handled yet.
   */
  datatype Full = Full(sys: E.System, ring: R.State, taken: seq<int>, completed: nat, named: seq<int>)

  function Init(base: nat): Full {
    Full(E.Init(), R.Init(base, SIZE), [], 0, [])
  }

  function AddressOf(base: nat, slot: nat): int {
    base + 16 * slot
  }

  /** The TRB at an address, if it is one of the ring's. */
  function MemoryAt(s: R.State, address: int): Option<Trb> {
    var slot := (address - s.base) / 16;
    if address >= s.base && slot < |s.p.buf| then Some(s.p.buf[slot]) else None
  }

  /** A fetch, its address recorded when it takes a command. */
  function Fetched(f: Full): Full
    requires R.CanFetch(f.ring)
  {
    var ring := R.Fetch(f.ring);
    f.(ring := ring, taken := if |ring.consumed| > |f.ring.consumed| then f.taken + [AddressOf(f.ring.base, f.ring.deq)]
                              else f.taken)
  }

  /** Everything pushed so far, the TRB being written included. */
  function Begun(s: R.State): seq<Trb> {
    s.pushed + (if s.pc.Writing? then [Payload(s.pc.d)] else [])
  }

  predicate Software(step: E.Step) {
    step.HandleStep? || step.ConfigureStep?
  }

  /** The step handles a completion. */
  predicate Completes(s: E.System, step: E.Step) {
    step.HandleStep? && |s.events| > 0 && s.events[0].Completion?
  }

  /** A handler runs to its end before the next one, its push included. No bound is asked. */
  ghost predicate SoftwareStep(f: Full, g: Full, step: E.Step) {
    && Software(step) && f.ring.pc == R.Idle && E.NextStep(f.sys, g.sys, step) && g.completed == f.completed && g.taken == f.taken
    && g.named == (if Completes(f.sys, step) && f.named != [] then f.named[1..] else f.named)
    && (if g.sys.d.issued == f.sys.d.issued then g.ring == f.ring
        else exists t :: Carries(t, g.sys.d.issued[|g.sys.d.issued| - 1]) && g.ring == R.StartPush(f.ring, t))
  }

  /** The controller completes only what it has fetched, in order, and names the TRB in the event. */
  ghost predicate HardwareStep(f: Full, g: Full, step: E.Step) {
    && !Software(step) && E.NextStep(f.sys, g.sys, step) && g.ring == f.ring && g.taken == f.taken
    && (if step.CompleteStep? then
          f.completed < |f.taken| && g.completed == f.completed + 1 && g.named == f.named + [f.taken[f.completed]]
        else g.completed == f.completed && g.named == f.named)
  }

  ghost predicate Next(f: Full, g: Full) {
    || (exists step :: SoftwareStep(f, g, step))
    || (exists step :: HardwareStep(f, g, step))
    || (R.CanStore(f.ring) && g == f.(ring := R.Store(f.ring)))
    || (R.CanFetch(f.ring) && g == Fetched(f))
  }

  /** The newest pushes are the pending commands, in order. */
  ghost predicate Matches(pushed: seq<Trb>, pending: seq<E.Command>) {
    |pending| <= |pushed| &&
    forall k {:trigger pending[k]} :: 0 <= k < |pending| ==> Carries(pushed[|pushed| - |pending| + k], pending[k])
  }

  ghost predicate Inv(f: Full) {
    && E.Inv(f.sys) && R.Inv(f.ring) && |f.ring.p.buf| == SIZE
    && R.Remembers(f.ring.p, R.Recent(f.ring))
    && |Begun(f.ring)| == f.completed + |f.sys.d.issued| && f.completed <= |f.ring.consumed| == |f.taken|
    && Matches(Begun(f.ring), E.Pending(f.sys))
  }

  lemma InitInv(base: nat)
    requires base % 16 == 0 && base < TWO_TO_THE_64
    ensures Inv(Init(base))
  {
    E.InitInv();
    R.InitInv(base, SIZE);
  }

  lemma OneIssued(s: E.System, t: E.System, step: E.Step)
    requires Software(step) && E.NextStep(s, t, step)
    ensures t.d.issued == s.d.issued || exists c :: t.d.issued == s.d.issued + [c]
    ensures t.events == if step.HandleStep? then s.events[1..] else s.events
  {
  }

  /** A handler issues at most one command, and handling an event takes away its issuer. */
  lemma SoftwarePending(s: E.System, t: E.System, step: E.Step)
    requires Software(step) && E.NextStep(s, t, step)
    ensures t.d.issued == s.d.issued ||
            (|t.d.issued| == |s.d.issued| + 1 && t.d.issued[..|s.d.issued|] == s.d.issued)
    ensures var gone := if Completes(s, step) then 1 else 0;
            gone <= |E.Pending(s)| &&
            E.Pending(t) == E.Pending(s)[gone..] + t.d.issued[|s.d.issued|..]
  {
    OneIssued(s, t, step);
    PopIssuers(s.events);
  }

  lemma PopIssuers(events: seq<E.Event>)
    ensures events != [] && events[0].Completion? ==>
              E.Issuers(events) == [events[0].issuer] + E.Issuers(events[1..])
    ensures events != [] && !events[0].Completion? ==> E.Issuers(events) == E.Issuers(events[1..])
  {
  }

  /** A push in this system is always within the ring's bound. */
  lemma PushWithinBound(f: Full, g: Full, step: E.Step)
    requires Inv(f) && SoftwareStep(f, g, step) && g.sys.d.issued != f.sys.d.issued
    ensures R.Outstanding(f.ring) + 1 <= E.MAX_SLOTS + 1 <= SIZE - 2
  {
    assert E.Next(f.sys, g.sys);
    E.NextInv(f.sys, g.sys);
    E.AtMostNinePending(g.sys);
    SoftwarePending(f.sys, g.sys, step);
  }

  lemma MatchesRest(pushed: seq<Trb>, pending: seq<E.Command>, gone: nat)
    requires Matches(pushed, pending) && gone <= |pending|
    ensures Matches(pushed, pending[gone..])
  {
  }

  lemma MatchesMore(pushed: seq<Trb>, pending: seq<E.Command>, t: Trb, c: E.Command)
    requires Matches(pushed, pending) && Carries(t, c)
    ensures Matches(pushed + [Payload(t)], pending + [c])
  {
  }

  lemma BegunMore(f: Full, g: Full, step: E.Step)
    requires SoftwareStep(f, g, step)
    ensures if g.sys.d.issued == f.sys.d.issued then g.ring == f.ring
            else exists t :: Carries(t, g.sys.d.issued[|g.sys.d.issued| - 1]) && g.ring == R.StartPush(f.ring, t)
                             && Begun(g.ring) == Begun(f.ring) + [Payload(t)]
  {
    if g.sys.d.issued != f.sys.d.issued {
      var t :| Carries(t, g.sys.d.issued[|g.sys.d.issued| - 1]) && g.ring == R.StartPush(f.ring, t);
      assert Begun(g.ring) == Begun(f.ring) + [Payload(t)];
    }
  }

  lemma SoftwareMatches(f: Full, g: Full, step: E.Step)
    requires Matches(Begun(f.ring), E.Pending(f.sys)) && |Begun(f.ring)| == f.completed + |f.sys.d.issued|
    requires SoftwareStep(f, g, step)
    ensures Matches(Begun(g.ring), E.Pending(g.sys))
    ensures |Begun(g.ring)| == g.completed + |g.sys.d.issued|
  {
    SoftwarePending(f.sys, g.sys, step);
    BegunMore(f, g, step);
    var gone := if Completes(f.sys, step) then 1 else 0;
    var rest := E.Pending(f.sys)[gone..];
    MatchesRest(Begun(f.ring), E.Pending(f.sys), gone);
    if g.sys.d.issued == f.sys.d.issued {
      assert E.Pending(g.sys) == rest;
    } else {
      var c := g.sys.d.issued[|g.sys.d.issued| - 1];
      var t :| Carries(t, c) && Begun(g.ring) == Begun(f.ring) + [Payload(t)];
      assert E.Pending(g.sys) == rest + [c];
      MatchesMore(Begun(f.ring), rest, t, c);
    }
  }

  /** A push that the bound allows starts in a good state. */
  lemma StartInBound(s: R.State, t: Trb)
    requires R.Inv(s) && |s.p.buf| == SIZE && s.pc == R.Idle && R.Outstanding(s) + 1 <= SIZE - 2
    requires t.ctl.trbType != LINK
    ensures R.Inv(R.StartPush(s, t))
  {
    R.BoundedCanPush(s, t);
  }

  lemma NewPushInv(f: Full, g: Full, t: Trb)
    requires R.Inv(f.ring) && |f.ring.p.buf| == SIZE && f.ring.pc == R.Idle && R.Outstanding(f.ring) + 1 <= SIZE - 2
    requires t.ctl.trbType != LINK && g.ring == R.StartPush(f.ring, t)
    ensures R.Inv(g.ring) && g.ring.p == f.ring.p && g.ring.pushed == f.ring.pushed && g.ring.consumed == f.ring.consumed
  {
    StartInBound(f.ring, t);
  }

  lemma SoftwareRing(f: Full, g: Full, step: E.Step)
    requires Inv(f) && SoftwareStep(f, g, step)
    ensures R.Inv(g.ring) && g.ring.p == f.ring.p && g.ring.pushed == f.ring.pushed && g.ring.consumed == f.ring.consumed
  {
    BegunMore(f, g, step);
    if g.sys.d.issued != f.sys.d.issued {
      PushWithinBound(f, g, step);
      var t :| Carries(t, g.sys.d.issued[|g.sys.d.issued| - 1]) && g.ring == R.StartPush(f.ring, t);
      NewPushInv(f, g, t);
    }
  }

  lemma SoftwareInv(f: Full, g: Full, step: E.Step)
    requires Inv(f) && SoftwareStep(f, g, step)
    ensures Inv(g)
  {
    assert E.Next(f.sys, g.sys);
    E.NextInv(f.sys, g.sys);
    SoftwareRing(f, g, step);
    SoftwareMatches(f, g, step);
  }

  lemma HardwareInv(f: Full, g: Full, step: E.Step)
    requires Inv(f) && HardwareStep(f, g, step)
    ensures Inv(g)
  {
    assert E.Next(f.sys, g.sys);
    E.NextInv(f.sys, g.sys);
    match step
    case CompleteStep(slot) => E.CompleteKeepsPending(f.sys, slot);
    case PortStatusStep(p) => E.PostKeepsPending(f.sys, E.PortStatus(p));
    case TransferStep(slot, ok, finishes) => E.PostKeepsPending(f.sys, E.Transfer(slot, ok, finishes));
  }

  lemma NextInv(f: Full, g: Full)
    requires Inv(f) && Next(f, g)
    ensures Inv(g)
  {
    if step :| SoftwareStep(f, g, step) {
      SoftwareInv(f, g, step);
    } else if step :| HardwareStep(f, g, step) {
      HardwareInv(f, g, step);
    } else if R.CanStore(f.ring) && g == f.(ring := R.Store(f.ring)) {
      RingStoreInv(f);
    } else {
      RingFetchInv(f);
    }
  }

  lemma RingFetchInv(f: Full)
    requires Inv(f) && R.CanFetch(f.ring)
    ensures Inv(Fetched(f))
  {
    R.FetchInv(f.ring);
  }

  lemma RingStoreInv(f: Full)
    requires Inv(f) && R.CanStore(f.ring)
    ensures Inv(f.(ring := R.Store(f.ring)))
  {
    R.StoreInv(f.ring);
    R.StoreRecent(f.ring);
    assert Begun(R.Store(f.ring)) == Begun(f.ring);
  }

  ghost predicate StepAt(run: seq<Full>, i: nat)
    requires i + 1 < |run|
  {
    Next(run[i], run[i + 1])
  }

  ghost predicate IsRun(run: seq<Full>) {
    && |run| > 0 && (exists base :: base % 16 == 0 && 0 <= base < TWO_TO_THE_64 && run[0] == Init(base))
    && forall i :: 0 <= i < |run| - 1 ==> StepAt(run, i)
  }

  lemma WithinNine(f: Full)
    requires Inv(f)
    ensures f.ring.consumed <= f.ring.pushed && R.Outstanding(f.ring) <= |E.Pending(f.sys)| <= 9
  {
    E.AtMostNinePending(f.sys);
  }

  // ---------------------------------------------------------------------------
  // Addresses
  // ---------------------------------------------------------------------------

  const DATA_SLOTS: nat := 31

  /** Both sides count slots: the next one of each is given by how many TRBs it has passed. */
  ghost predicate Positions(s: R.State) {
    && |s.p.buf| == SIZE
    && (if s.pc.Linking? then |s.pushed| % DATA_SLOTS == 0 else s.p.writeIndex == |s.pushed| % DATA_SLOTS)
    && (if s.deq == DATA_SLOTS then |s.consumed| % DATA_SLOTS == 0 else s.deq == |s.consumed| % DATA_SLOTS)
  }

  /** Every fetched TRB's address is that of the slot it was pushed to. */
  ghost predicate TakenInTurn(f: Full) {
    && |f.taken| == |f.ring.consumed|
    && forall j :: 0 <= j < |f.taken| ==> f.taken[j] == AddressOf(f.ring.base, j % DATA_SLOTS)
  }

  /** The events name the TRBs completed last, in order. */
  ghost predicate NamedInTurn(f: Full) {
    && |f.named| == |E.Issuers(f.sys.events)| <= f.completed <= |f.taken|
    && forall k :: 0 <= k < |f.named| ==> f.named[k] == f.taken[f.completed - |f.named| + k]
  }

  ghost predicate Traced(f: Full) {
    Positions(f.ring) && TakenInTurn(f) && NamedInTurn(f)
  }

  lemma StorePositions(s: R.State)
    requires R.CanStore(s) && (s.p.writeIndex == SIZE - 1 <==> s.pc.Linking?) && Positions(s)
    ensures Positions(R.Store(s)) && R.Store(s).base == s.base && R.Store(s).consumed == s.consumed
  {
    R.StoreCounts(s);
  }

  lemma FetchPositions(s: R.State)
    requires R.Inv(s) && R.CanFetch(s) && Positions(s)
    ensures Positions(R.Fetch(s)) && R.Fetch(s).base == s.base
    ensures if s.deq < DATA_SLOTS then |R.Fetch(s).consumed| == |s.consumed| + 1 else R.Fetch(s).consumed == s.consumed
  {
    if s.deq < DATA_SLOTS { R.FetchTakesOldest(s); } else { R.FetchLink(s); }
  }

  lemma FetchTraced(f: Full)
    requires Inv(f) && Traced(f) && R.CanFetch(f.ring)
    ensures Traced(Fetched(f))
  {
    FetchPositions(f.ring);
  }

  lemma SoftwareEvents(s: E.System, t: E.System, step: E.Step)
    requires Software(step) && E.NextStep(s, t, step)
    ensures if Completes(s, step) then |E.Issuers(s.events)| > 0 && |E.Issuers(t.events)| == |E.Issuers(s.events)| - 1
            else |E.Issuers(t.events)| == |E.Issuers(s.events)|
  {
    OneIssued(s, t, step);
    PopIssuers(s.events);
  }

  lemma NamedRest(f: Full, g: Full, handled: bool)
    requires NamedInTurn(f) && g.taken == f.taken && g.completed == f.completed
    requires handled ==> |f.named| > 0
    requires g.named == if handled then f.named[1..] else f.named
    requires |E.Issuers(g.sys.events)| == |g.named|
    ensures NamedInTurn(g)
  {
  }

  lemma SoftwareTraced(f: Full, g: Full, step: E.Step)
    requires Inv(f) && Traced(f) && SoftwareStep(f, g, step)
    ensures Traced(g)
  {
    SoftwareEvents(f.sys, g.sys, step);
    NamedRest(f, g, Completes(f.sys, step));
    BegunPositions(f, g, step);
  }

  lemma BegunPositions(f: Full, g: Full, step: E.Step)
    requires Positions(f.ring) && TakenInTurn(f) && SoftwareStep(f, g, step)
    ensures Positions(g.ring) && TakenInTurn(g)
  {
    if g.sys.d.issued != f.sys.d.issued {
      var t :| Carries(t, g.sys.d.issued[|g.sys.d.issued| - 1]) && g.ring == R.StartPush(f.ring, t);
    }
  }

  lemma IssuersMore(events: seq<E.Event>, e: E.Event)
    ensures |E.Issuers(events + [e])| == |E.Issuers(events)| + if e.Completion? then 1 else 0
  {
    E.IssuersAppend(events, [e]);
    assert E.Issuers([e]) == if e.Completion? then [e.issuer] else [];
  }

  lemma HardwareEvents(s: E.System, t: E.System, step: E.Step)
    requires !Software(step) && E.NextStep(s, t, step)
    ensures |E.Issuers(t.events)| == |E.Issuers(s.events)| + if step.CompleteStep? then 1 else 0
  {
    match step
    case CompleteStep(slot) => IssuersMore(s.events, E.Completion(s.d.issued[0], slot));
    case PortStatusStep(p) => IssuersMore(s.events, E.PortStatus(p));
    case TransferStep(slot, ok, finishes) => IssuersMore(s.events, E.Transfer(slot, ok, finishes));
  }

  lemma NamedMore(f: Full, g: Full)
    requires NamedInTurn(f) && g.taken == f.taken && f.completed < |f.taken| && g.completed == f.completed + 1
    requires g.named == f.named + [f.taken[f.completed]] && |E.Issuers(g.sys.events)| == |g.named|
    ensures NamedInTurn(g)
  {
  }

  lemma HardwareTraced(f: Full, g: Full, step: E.Step)
    requires Traced(f) && HardwareStep(f, g, step)
    ensures Traced(g)
  {
    HardwareEvents(f.sys, g.sys, step);
    if step.CompleteStep? { NamedMore(f, g); } else { NamedRest(f, g, false); }
  }

  lemma StoreTraced(f: Full)
    requires Inv(f) && Traced(f) && R.CanStore(f.ring)
    ensures Traced(f.(ring := R.Store(f.ring)))
  {
    StorePositions(f.ring);
  }

  lemma NextTraced(f: Full, g: Full)
    requires Inv(f) && Traced(f) && Next(f, g)
    ensures Traced(g)
  {
    if step :| SoftwareStep(f, g, step) {
      SoftwareTraced(f, g, step);
    } else if step :| HardwareStep(f, g, step) {
      HardwareTraced(f, g, step);
    } else if R.CanStore(f.ring) && g == f.(ring := R.Store(f.ring)) {
      StoreTraced(f);
    } else {
      FetchTraced(f);
    }
  }

  ghost predicate Whole(f: Full) {
    Inv(f) && Traced(f)
  }

  lemma RunStart(run: seq<Full>)
    requires IsRun(run)
    ensures Whole(run[0])
  {
    var base: nat :| base % 16 == 0 && base < TWO_TO_THE_64 && run[0] == Init(base);
    InitInv(base);
    InitTraced(base);
  }

  lemma InitTraced(base: nat)
    ensures Traced(Init(base))
  {
  }

  lemma NextWhole(f: Full, g: Full)
    requires Whole(f) && Next(f, g)
    ensures Whole(g)
  {
    NextInv(f, g);
    NextTraced(f, g);
  }

  lemma RunWhole(run: seq<Full>, i: nat)
    requires IsRun(run) && i < |run|
    ensures Whole(run[i])
  {
    RunStart(run);
    forall f: Full, g: Full | Whole(f) && Next(f, g) ensures Whole(g) { NextWhole(f, g); }
    forall k | 0 <= k < |run| - 1 ensures Next(run[k], run[k + 1]) { assert StepAt(run, k); }
    RunInduction(run, (f: Full, g: Full) => Next(f, g), (f: Full) => Whole(f), i);
  }

  /** The whole of it, with no bound assumed: over every run of the enumeration on a command
      ring of 32 slots, the ring invariant holds, the controller consumes a prefix of what
      was pushed, and at most nine commands are ever outstanding. */
  lemma RunSafe(run: seq<Full>, i: nat)
    requires IsRun(run) && i < |run|
    ensures Inv(run[i])
    ensures run[i].ring.consumed <= run[i].ring.pushed
    ensures R.Outstanding(run[i].ring) <= |E.Pending(run[i].sys)| <= 9
  {
    RunWhole(run, i);
    WithinNine(run[i]);
  }

  lemma SlotOfPush(p: R.Producer, total: nat, j: nat)
    requires |p.buf| == SIZE && p.writeIndex == total % DATA_SLOTS && j < total <= j + DATA_SLOTS
    ensures R.SlotOfAge(p, total - j) == j % DATA_SLOTS
  {
  }

  /** In an idle ring a recent push is in the slot its number says. */
  lemma PushedAt(s: R.State, j: nat)
    requires Positions(s) && R.Remembers(s.p, R.Recent(s)) && s.pc == R.Idle
    requires j < |s.pushed| <= j + SIZE - 2
    ensures Payload(s.p.buf[j % DATA_SLOTS]) == s.pushed[j]
  {
    var recent, age := R.Recent(s), |s.pushed| - j;
    assert recent[|recent| - age] == s.pushed[j];
    SlotOfPush(s.p, |s.pushed|, j);
    assert Payload(s.p.buf[R.SlotOfAge(s.p, age)]) == recent[|recent| - age];
  }

  /** The oldest completion names the oldest push whose command is still pending, at most nine pushes back. */
  lemma OldestPending(f: Full)
    requires Inv(f) && Traced(f) && f.ring.pc == R.Idle && |f.sys.events| > 0 && f.sys.events[0].Completion?
    ensures f.named != []
    ensures var j := f.completed - |f.named|;
            && 0 <= j < |f.ring.pushed| <= j + 9 && Carries(f.ring.pushed[j], f.sys.events[0].issuer)
            && f.named[0] == AddressOf(f.ring.base, j % DATA_SLOTS)
  {
    E.AtMostNinePending(f.sys);
    var pending, j := E.Pending(f.sys), f.completed - |f.named|;
    assert pending[0] == f.sys.events[0].issuer;
    assert j == |f.ring.pushed| - |pending|;
    assert f.named[0] == f.taken[j];
  }

  lemma ReadsBack(s: R.State, j: nat, c: E.Command, address: int)
    requires Positions(s) && R.Remembers(s.p, R.Recent(s)) && s.pc == R.Idle
    requires j < |s.pushed| <= j + 9 && Carries(s.pushed[j], c) && address == AddressOf(s.base, j % DATA_SLOTS)
    ensures MemoryAt(s, address).Some? && Carries(MemoryAt(s, address).value, c)
  {
    PushedAt(s, j);
  }

  lemma IssuerIs(t: Trb, c: E.Command, slot: nat)
    requires Carries(t, c) && (!c.EnableSlot? ==> slot == c.slot)
    ensures E.Issuer(t.ctl.trbType, slot) == Some(c)
  {
  }

  /**
   * When the driver reads the TRB at the address in a completion event, to learn which
   * command was completed, it finds that command, however many laps the ring has made.
   */
  lemma IssuerStillThere(f: Full)
    requires Inv(f) && Traced(f) && f.ring.pc == R.Idle && |f.sys.events| > 0 && f.sys.events[0].Completion?
    ensures f.named != [] && MemoryAt(f.ring, f.named[0]).Some?
    ensures var t, event := MemoryAt(f.ring, f.named[0]).value, f.sys.events[0];
            Carries(t, event.issuer) && E.Issuer(t.ctl.trbType, event.slot) == Some(event.issuer)
  {
    OldestPending(f);
    var event := f.sys.events[0];
    ReadsBack(f.ring, f.completed - |f.named|, event.issuer, f.named[0]);
    assert E.EventOk(f.sys.d, event);
    IssuerIs(MemoryAt(f.ring, f.named[0]).value, event.issuer, event.slot);
  }

  /** The same over every run of the composed system. */
  lemma RunNamesIssuer(run: seq<Full>, i: nat)
    requires IsRun(run) && i < |run| && run[i].ring.pc == R.Idle
    requires |run[i].sys.events| > 0 && run[i].sys.events[0].Completion?
    ensures run[i].named != [] && MemoryAt(run[i].ring, run[i].named[0]).Some?
    ensures E.Issuer(MemoryAt(run[i].ring, run[i].named[0]).value.ctl.trbType, run[i].sys.events[0].slot)
            == Some(run[i].sys.events[0].issuer)
  {
    RunWhole(run, i);
    IssuerStillThere(run[i]);
  }
}
