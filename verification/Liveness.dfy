/** Enumeration finishes: when the hardware does its part and no new port turns up, every run
    ends within a computed number of steps, with every connected port configured. */
module Liveness {
  import opened Wrappers
  import opened Enumeration
  import opened Progress

  // ---------------------------------------------------------------------------
  // Hardware that does its part
  // ---------------------------------------------------------------------------

  /** The event is the one that the port waits for. */
  predicate WaitedBy(d: Driver, e: Event, p: nat)
    requires Shape(d)
  {
    1 <= p < PORTS &&
    match e
    case PortStatus(q) => q == p && d.phase[p] == ResettingPort
    case Transfer(slot, ok, finishes) => ok && finishes && Owns(d, slot, p) && d.phase[p] == InitializingDevice
    case Completion(c, _) => Expected(d, c) && PortOf(d, c) == p && d.phase[p] == PhaseOf(c)
  }

  ghost predicate Queued(d: Driver, events: seq<Event>, p: nat)
    requires Shape(d)
  {
    exists i :: 0 <= i < |events| && WaitedBy(d, events[i], p)
  }

  ghost predicate HasEvent(s: System, p: nat)
    requires Shape(s.d)
  {
    Queued(s.d, s.events, p)
  }

  /** What the registers must say when an event is handled. */
  predicate Cooperative(d: Driver, ports: seq<PortRegister>)
    requires Shape(d) && Registers(ports)
  {
    forall p :: 0 <= p < PORTS ==>
      && (d.phase[p] == WaitingAddressed ==> ports[p].connected)
      && (d.phase[p] == ResettingPort ==> ports[p].enabled && ports[p].resetChanged)
      && (d.phase[p] == InitializingDevice ==> 1 <= ports[p].speed <= SUPER_SPEED_PLUS)
  }

  /**
   * The controller completes commands, reports a reset that is over and the end of a descriptor
   * exchange, each once; the driver handles events.
   */
  ghost predicate UsefulStep(s: System, t: System, step: Step) {
    NextStep(s, t, step) && Shape(s.d) &&
    match step
    case CompleteStep(_) => true
    case PortStatusStep(p) => WaitedBy(s.d, PortStatus(p), p) && !HasEvent(s, p)
    case TransferStep(slot, ok, finishes) =>
      exists p: nat :: WaitedBy(s.d, Transfer(slot, ok, finishes), p) && !HasEvent(s, p)
    case HandleStep(ports) => Registers(ports) && Cooperative(s.d, ports)
    case ConfigureStep(_, _) => false
  }

  ghost predicate IsWaited(d: Driver, e: Event)
    requires Shape(d)
  {
    exists p: nat :: WaitedBy(d, e, p)
  }

  /** Every event is waited for by some port, and no port by two. */
  ghost predicate Useful(d: Driver, events: seq<Event>)
    requires Shape(d)
  {
    && (forall i :: 0 <= i < |events| ==> IsWaited(d, events[i]))
    && forall i, j, p: nat :: 0 <= i < j < |events| && WaitedBy(d, events[i], p) ==> !WaitedBy(d, events[j], p)
  }

  ghost predicate Ready(s: System) {
    Inv(s) && WaitersServed(s.d) && Useful(s.d, s.events)
  }

  lemma WaitedByOne(d: Driver, e: Event, p: nat, q: nat)
    requires DriverInv(d) && WaitedBy(d, e, p) && WaitedBy(d, e, q)
    ensures p == q
  {
  }

  // ---------------------------------------------------------------------------
  // Each kind of step keeps the events useful
  // ---------------------------------------------------------------------------

  lemma UsefulMore(d: Driver, events: seq<Event>, e: Event, p: nat)
    requires DriverInv(d) && Useful(d, events) && WaitedBy(d, e, p) && !Queued(d, events, p)
    ensures Useful(d, events + [e])
  {
    var more := events + [e];
    forall i | 0 <= i < |more| ensures IsWaited(d, more[i]) {
      if i < |events| { assert more[i] == events[i]; }
    }
    forall i, j, q: nat | 0 <= i < j < |more| && WaitedBy(d, more[i], q) ensures !WaitedBy(d, more[j], q) {
      if j == |events| && WaitedBy(d, e, q) {
        WaitedByOne(d, e, p, q);
      }
    }
  }

  lemma QueuedMore(d: Driver, events: seq<Event>, e: Event, p: nat)
    ensures Shape(d) ==> (Queued(d, events + [e], p) <==> Queued(d, events, p) || WaitedBy(d, e, p))
  {
    if Shape(d) {
      var more := events + [e];
      if i :| 0 <= i < |events| && WaitedBy(d, events[i], p) { assert more[i] == events[i]; }
      if WaitedBy(d, e, p) { assert more[|events|] == e; }
    }
  }

  lemma PostReady(s: System, e: Event, p: nat)
    requires Ready(s) && !e.Completion? && WaitedBy(s.d, e, p) && !HasEvent(s, p)
    ensures Ready(Post(s, e)) && forall q: nat :: HasEvent(Post(s, e), q) <==> HasEvent(s, q) || q == p
  {
    PostInv(s, e);
    UsefulMore(s.d, s.events, e, p);
    forall q: nat ensures HasEvent(Post(s, e), q) <==> HasEvent(s, q) || q == p {
      QueuedMore(s.d, s.events, e, q);
      if WaitedBy(s.d, e, q) { WaitedByOne(s.d, e, p, q); }
    }
  }

  /** A device object stays where it is and keeps its port. */
  ghost predicate KeepsOwners(d: Driver, d': Driver)
    requires Shape(d) && Shape(d')
  {
    forall slot, p :: Owns(d, slot, p) ==> Owns(d', slot, p)
  }

  /** What a port waits for, it goes on waiting for while it stays in its phase. */
  lemma WaitedStill(d: Driver, d': Driver, e: Event, p: nat)
    requires DriverInv(d) && DriverInv(d') && KeepsOwners(d, d') && WaitedBy(d, e, p) && d'.phase[p] == d.phase[p]
    ensures WaitedBy(d', e, p)
  {
    match e
    case PortStatus(_) =>
    case Transfer(_, _, _) =>
    case Completion(EnableSlot, _) =>
      assert Busy(d'.phase[p]);
    case Completion(AddressDevice(slot), _) =>
      assert Owns(d, slot, p);
    case Completion(ConfigureEndpoint(slot), _) =>
      assert Owns(d, slot, p);
  }

  /** The command completed next belongs to a port without an event. */
  lemma IssuedHasNone(s: System)
    requires Ready(s) && |s.d.issued| > 0
    ensures Expected(s.d, s.d.issued[0]) && !HasEvent(s, PortOf(s.d, s.d.issued[0]))
    ensures 1 <= PortOf(s.d, s.d.issued[0]) < PORTS
    ensures s.d.phase[PortOf(s.d, s.d.issued[0])] == PhaseOf(s.d.issued[0])
  {
    var c := s.d.issued[0];
    assert Pending(s)[|Issuers(s.events)|] == c;
    CommandsArePorts(s);
    var p := PortOf(s.d, c);
    forall i | 0 <= i < |s.events| ensures !WaitedBy(s.d, s.events[i], p) {
      if s.events[i].Completion? {
        IssuersContains(s.events, i);
        OnceOnly(s, i);
      }
    }
  }

  /** A command whose completion is queued is not outstanding too. */
  lemma OnceOnly(s: System, i: nat)
    requires Inv(s) && i < |s.events| && s.events[i].Completion? && |s.d.issued| > 0
    ensures s.events[i].issuer != s.d.issued[0]
    ensures Expected(s.d, s.events[i].issuer) && Expected(s.d, s.d.issued[0])
    ensures PortOf(s.d, s.events[i].issuer) != PortOf(s.d, s.d.issued[0])
  {
    var c, k := s.d.issued[0], |Issuers(s.events)|;
    IssuersContains(s.events, i);
    var j :| 0 <= j < k && Issuers(s.events)[j] == s.events[i].issuer;
    assert Pending(s)[j] == s.events[i].issuer && Pending(s)[k] == c;
    CommandsArePorts(s);
    assert Pending(s)[j] != Pending(s)[k] && s.events[i].issuer in Pending(s) && c in Pending(s);
  }

  /** Events that were useful are still, when every port they are for has kept its phase. */
  lemma UsefulStill(d: Driver, d': Driver, events: seq<Event>)
    requires DriverInv(d) && DriverInv(d') && KeepsOwners(d, d') && Useful(d, events)
    requires forall i, p: nat :: 0 <= i < |events| && WaitedBy(d, events[i], p) ==> d'.phase[p] == d.phase[p]
    ensures Useful(d', events)
    ensures forall p: nat :: Queued(d, events, p) ==> Queued(d', events, p)
  {
    forall i, p: nat | 0 <= i < |events| && WaitedBy(d, events[i], p) ensures WaitedBy(d', events[i], p) {
      WaitedStill(d, d', events[i], p);
    }
    forall i | 0 <= i < |events| ensures IsWaited(d', events[i]) {
      assert IsWaited(d, events[i]);
      var p: nat :| WaitedBy(d, events[i], p);
      assert WaitedBy(d', events[i], p);
    }
    forall i, j, q: nat | 0 <= i < j < |events| && WaitedBy(d', events[i], q) ensures !WaitedBy(d', events[j], q) {
      assert IsWaited(d, events[i]) && IsWaited(d, events[j]);
      var p: nat :| WaitedBy(d, events[i], p);
      var r: nat :| WaitedBy(d, events[j], r);
      WaitedByOne(d', events[i], p, q);
      if WaitedBy(d', events[j], q) { WaitedByOne(d', events[j], r, q); }
    }
    forall p: nat | Queued(d, events, p) ensures Queued(d', events, p) {
      var i :| 0 <= i < |events| && WaitedBy(d, events[i], p);
      assert WaitedBy(d', events[i], p);
    }
  }

  lemma CompleteFrame(s: System, slot: nat)
    requires Inv(s) && CanComplete(s, slot)
    ensures var t := Complete(s, slot);
            && Shape(t.d) && t.d.phase == s.d.phase && t.d.addressing == s.d.addressing && KeepsOwners(s.d, t.d)
            && t.events == s.events + [Completion(s.d.issued[0], slot)]
  {
  }

  /** The completion about to be posted is waited for, and its port has no event yet. */
  lemma NextCompletionWaited(s: System, slot: nat) returns (p: nat)
    requires Ready(s) && |s.d.issued| > 0
    ensures WaitedBy(s.d, Completion(s.d.issued[0], slot), p) && !Queued(s.d, s.events, p) && Rank(s.d.phase[p]) < 7
  {
    IssuedHasNone(s);
    p := PortOf(s.d, s.d.issued[0]);
  }

  lemma ServedStill(d: Driver, d': Driver)
    requires WaitersServed(d) && d'.phase == d.phase && d'.addressing == d.addressing
    ensures WaitersServed(d')
  {
  }

  lemma CompleteReady(s: System, slot: nat) returns (p: nat)
    requires Ready(s) && CanComplete(s, slot)
    ensures Ready(Complete(s, slot)) && Complete(s, slot).d.phase == s.d.phase
    ensures p < PORTS && Rank(s.d.phase[p]) < 7 && !HasEvent(s, p) && HasEvent(Complete(s, slot), p)
    ensures forall q: nat :: HasEvent(s, q) ==> HasEvent(Complete(s, slot), q)
  {
    p := NextCompletionWaited(s, slot);
    CompleteInv(s, slot);
    CompleteFrame(s, slot);
    var t := Complete(s, slot);
    ServedStill(s.d, t.d);
    CompletedWaited(s.d, t.d, s.events, Completion(s.d.issued[0], slot), p);
  }

  /** One more completion, for a port without an event. */
  lemma CompletedWaited(d: Driver, d': Driver, events: seq<Event>, e: Event, p: nat)
    requires DriverInv(d) && DriverInv(d') && KeepsOwners(d, d') && d'.phase == d.phase
    requires Useful(d, events) && !Queued(d, events, p) && WaitedBy(d, e, p)
    ensures Useful(d', events + [e]) && Queued(d', events + [e], p)
    ensures forall q: nat :: Queued(d, events, q) ==> Queued(d', events + [e], q)
  {
    UsefulStill(d, d', events);
    WaitedStill(d, d', e, p);
    if Queued(d', events, p) { StillBefore(d, d', events, p); }
    UsefulMore(d', events, e, p);
    QueuedMore(d', events, e, p);
    forall q: nat | Queued(d, events, q) ensures Queued(d', events + [e], q) {
      QueuedMore(d', events, e, q);
    }
  }

  /** The other way round: a port that has an event queued afterwards had it before. */
  lemma StillBefore(d: Driver, d': Driver, events: seq<Event>, q: nat)
    requires DriverInv(d) && DriverInv(d') && KeepsOwners(d, d') && Useful(d, events) && Queued(d', events, q)
    requires forall i, p: nat :: 0 <= i < |events| && WaitedBy(d, events[i], p) ==> d'.phase[p] == d.phase[p]
    ensures Queued(d, events, q)
  {
    var i :| 0 <= i < |events| && WaitedBy(d', events[i], q);
    assert IsWaited(d, events[i]);
    var p: nat :| WaitedBy(d, events[i], p);
    WaitedStill(d, d', events[i], p);
    WaitedByOne(d', events[i], p, q);
  }

  // ---------------------------------------------------------------------------
  // Handling
  // ---------------------------------------------------------------------------

  lemma StatusKeepsOwners(d: Driver, ports: seq<PortRegister>, p: nat)
    requires Shape(d) && Registers(ports) && p < PORTS
    ensures OnPortStatus(d, ports, p).0.devices == d.devices
  {
  }

  lemma AddressKeepsOwners(d: Driver, p: nat, slot: nat)
    requires Shape(d) && p < PORTS && slot <= MAX_SLOTS && d.devices[slot].None?
    ensures Shape(AddressDeviceOn(d, p, slot).0) && KeepsOwners(d, AddressDeviceOn(d, p, slot).0)
  {
  }

  lemma HandOverKeepsOwners(d: Driver, ports: seq<PortRegister>)
    requires Shape(d) && Registers(ports)
    ensures HandOver(d, ports).0.devices == d.devices && Shape(HandOver(d, ports).0)
  {
  }

  lemma InitializeKeepsOwners(d: Driver, p: nat, slot: nat)
    requires Shape(d) && p < PORTS
    ensures Shape(InitializeDevice(d, p, slot).0) && KeepsOwners(d, InitializeDevice(d, p, slot).0)
  {
  }

  lemma TransferKeepsOwners(d: Driver, ports: seq<PortRegister>, slot: nat, ok: bool, finishes: bool)
    requires DriverInv(d) && Registers(ports)
    requires FindBySlot(d, slot).Some? ==> FindBySlot(d, slot).value.contextPort < PORTS
    ensures Shape(OnTransfer(d, ports, slot, ok, finishes).0) && KeepsOwners(d, OnTransfer(d, ports, slot, ok, finishes).0)
  {
  }

  lemma CompletionKeepsOwners(d: Driver, ports: seq<PortRegister>, c: Command, slot: nat)
    requires DriverInv(d) && Registers(ports) && EventOk(d, Completion(c, slot))
    requires FindBySlot(d, slot).Some? ==> FindBySlot(d, slot).value.contextPort < PORTS
    ensures Shape(OnCompletion(d, ports, c, slot).0) && KeepsOwners(d, OnCompletion(d, ports, c, slot).0)
  {
    HandOverKeepsOwners(d, ports);
    match c
    case EnableSlot => AddressKeepsOwners(d, d.addressing, slot);
    case AddressDevice(_) => InitializeKeepsOwners(HandOver(d, ports).0, d.devices[slot].value.contextPort, slot);
    case ConfigureEndpoint(_) =>
  }

  lemma HandleKeepsOwners(s: System, ports: seq<PortRegister>)
    requires Inv(s) && CanHandle(s, ports)
    ensures Shape(Handle(s, ports).d) && KeepsOwners(s.d, Handle(s, ports).d)
  {
    HandleInv(s, ports);
    assert EventOk(s.d, s.events[0]);
    match s.events[0]
    case PortStatus(p) => StatusKeepsOwners(s.d, ports, p);
    case Transfer(slot, ok, finishes) => TransferKeepsOwners(s.d, ports, slot, ok, finishes);
    case Completion(c, slot) => CompletionKeepsOwners(s.d, ports, c, slot);
  }

  /** The event that a port waits for, handled with registers that cooperate, advances it. */
  lemma WaitedAdvances(s: System, ports: seq<PortRegister>, p: nat)
    requires Ready(s) && CanHandle(s, ports) && Cooperative(s.d, ports) && WaitedBy(s.d, s.events[0], p)
    ensures var d' := Handle(s, ports).d;
            && Shape(d') && Rank(d'.phase[p]) > Rank(s.d.phase[p])
            && forall q :: 0 <= q < PORTS && q != p && s.d.phase[q] != WaitingAddressed ==> d'.phase[q] == s.d.phase[q]
  {
    assert EventOk(s.d, s.events[0]);
    assert CanHandle(System(s.d, [s.events[0]]), ports);
    EventAdvances(s.d, ports, p, s.events[0]);
    SuccessorRanks(s.d, p);
  }

  lemma RestUseful(d: Driver, events: seq<Event>, p: nat)
    requires |events| > 0 && Shape(d) && Useful(d, events) && WaitedBy(d, events[0], p)
    ensures Useful(d, events[1..]) && !Queued(d, events[1..], p)
    ensures forall q: nat :: q != p && DriverInv(d) && Queued(d, events, q) ==> Queued(d, events[1..], q)
  {
    forall i | 0 <= i < |events| - 1 ensures events[1..][i] == events[i + 1] && IsWaited(d, events[1..][i]) {
      assert IsWaited(d, events[i + 1]);
    }
    forall q: nat | q != p && DriverInv(d) && Queued(d, events, q) ensures Queued(d, events[1..], q) {
      var i :| 0 <= i < |events| && WaitedBy(d, events[i], q);
      if i == 0 { WaitedByOne(d, events[0], p, q); } else { assert WaitedBy(d, events[1..][i - 1], q); }
    }
  }

  lemma HandleReady(s: System, ports: seq<PortRegister>) returns (p: nat)
    requires Ready(s) && CanHandle(s, ports) && Cooperative(s.d, ports)
    ensures Ready(Handle(s, ports)) && p < PORTS && Rank(Handle(s, ports).d.phase[p]) > Rank(s.d.phase[p])
    ensures forall q: nat :: q != p && HasEvent(s, q) ==> HasEvent(Handle(s, ports), q)
  {
    assert IsWaited(s.d, s.events[0]);
    p :| WaitedBy(s.d, s.events[0], p);
    var t := Handle(s, ports);
    HandleInv(s, ports);
    HandleKeepsOwners(s, ports);
    WaitedAdvances(s, ports, p);
    RestUseful(s.d, s.events, p);
    RestStays(s.d, t.d, s.events[1..], p);
    assert NextStep(s, t, HandleStep(ports));
    ServedStep(s, t, HandleStep(ports));
  }

  lemma RestStays(d: Driver, d': Driver, rest: seq<Event>, p: nat)
    requires DriverInv(d) && DriverInv(d') && KeepsOwners(d, d') && Useful(d, rest) && !Queued(d, rest, p)
    requires forall q :: 0 <= q < PORTS && q != p && d.phase[q] != WaitingAddressed ==> d'.phase[q] == d.phase[q]
    ensures Useful(d', rest) && forall q: nat :: Queued(d, rest, q) ==> Queued(d', rest, q)
  {
    forall i, q: nat | 0 <= i < |rest| && WaitedBy(d, rest[i], q) ensures d'.phase[q] == d.phase[q] {
      assert q != p;
    }
    UsefulStill(d, d', rest);
  }

  // ---------------------------------------------------------------------------
  // The measure
  // ---------------------------------------------------------------------------

  /** What a port still has to go through: three for each phase, less one while its event is queued. */
  ghost function Weight(s: System, p: nat): nat
    requires Shape(s.d) && p < PORTS
  {
    var left := 3 * (7 - Rank(s.d.phase[p]));
    if left > 0 && HasEvent(s, p) then left - 1 else left
  }

  function Sum(weights: seq<nat>): nat {
    if weights == [] then 0 else Sum(weights[..|weights| - 1]) + weights[|weights| - 1]
  }

  ghost function Weights(s: System): (w: seq<nat>)
    requires Shape(s.d)
    ensures |w| == PORTS && forall p :: 0 <= p < PORTS ==> w[p] == Weight(s, p)
  {
    seq(PORTS, p requires 0 <= p < PORTS => Weight(s, p))
  }

  /** The most steps that a run from here can take. */
  ghost function Work(s: System): nat
    requires Shape(s.d)
  {
    Sum(Weights(s))
  }

  lemma {:induction false} SumBound(w: seq<nat>, most: nat)
    requires forall i :: 0 <= i < |w| ==> w[i] <= most
    ensures Sum(w) <= most * |w|
  {
    if w != [] { SumBound(w[..|w| - 1], most); }
  }

  lemma {:induction false} SumFalls(w: seq<nat>, v: seq<nat>)
    requires |w| == |v| && forall i :: 0 <= i < |w| ==> v[i] <= w[i]
    ensures Sum(v) <= Sum(w)
    ensures (exists i :: 0 <= i < |w| && v[i] < w[i]) ==> Sum(v) < Sum(w)
  {
    if w != [] { SumFalls(w[..|w| - 1], v[..|v| - 1]); }
  }

  /** One port has less to go and none has more. */
  ghost predicate Lighter(s: System, t: System, p: nat)
    requires Shape(s.d) && Shape(t.d) && p < PORTS
  {
    Weight(t, p) < Weight(s, p) && forall q: nat :: q < PORTS ==> Weight(t, q) <= Weight(s, q)
  }

  lemma LighterFalls(s: System, t: System, p: nat)
    requires Shape(s.d) && Shape(t.d) && p < PORTS && Lighter(s, t, p)
    ensures Work(t) < Work(s)
  {
    assert Weights(t)[p] < Weights(s)[p];
    SumFalls(Weights(s), Weights(t));
  }

  lemma PostLighter(s: System, e: Event, p: nat)
    requires Ready(s) && !e.Completion? && WaitedBy(s.d, e, p) && !HasEvent(s, p)
    ensures Ready(Post(s, e)) && Lighter(s, Post(s, e), p)
  {
    PostReady(s, e, p);
  }

  lemma CompleteLighter(s: System, slot: nat) returns (p: nat)
    requires Ready(s) && CanComplete(s, slot)
    ensures Ready(Complete(s, slot)) && p < PORTS && Lighter(s, Complete(s, slot), p)
  {
    p := CompleteReady(s, slot);
  }

  lemma HandleLighter(s: System, ports: seq<PortRegister>) returns (p: nat)
    requires Ready(s) && CanHandle(s, ports) && Cooperative(s.d, ports)
    ensures Ready(Handle(s, ports)) && p < PORTS && Lighter(s, Handle(s, ports), p)
  {
    p := HandleReady(s, ports);
    HandleInv(s, ports);
  }

  lemma StepLighter(s: System, t: System, step: Step)
    requires Ready(s) && UsefulStep(s, t, step)
    ensures Ready(t) && Work(t) < Work(s)
  {
    var p: nat;
    match step {
      case CompleteStep(slot) => p := CompleteLighter(s, slot);
      case PortStatusStep(q) =>
        p := q;
        PostLighter(s, PortStatus(q), q);
      case TransferStep(slot, ok, finishes) =>
        p :| WaitedBy(s.d, Transfer(slot, ok, finishes), p) && !HasEvent(s, p);
        PostLighter(s, Transfer(slot, ok, finishes), p);
      case HandleStep(ports) => p := HandleLighter(s, ports);
    }
    LighterFalls(s, t, p);
  }

  // ---------------------------------------------------------------------------
  // The end of a run
  // ---------------------------------------------------------------------------

  ghost predicate Stuck(s: System) {
    forall t, step :: !UsefulStep(s, t, step)
  }

  predicate Done(d: Driver)
    requires Shape(d)
  {
    forall p :: 0 <= p < PORTS ==> d.phase[p] == NotConnected || d.phase[p] == Configured
  }

  /** A slot is asked for and none is free. */
  predicate OutOfSlots(d: Driver)
    requires Shape(d)
  {
    Expected(d, EnableSlot) && forall slot :: 1 <= slot <= MAX_SLOTS ==> d.devices[slot].Some?
  }

  /** Registers of ports that are all connected, reset and of a known speed. */
  function AllGood(): (ports: seq<PortRegister>)
    ensures Registers(ports) && forall p :: 0 <= p < PORTS ==> ports[p] == PortRegister(true, true, true, 4)
  {
    seq(PORTS, i => PortRegister(true, true, true, 4))
  }

  lemma EventCanBeHandled(s: System)
    requires Ready(s) && |s.events| > 0
    ensures !Stuck(s)
  {
    assert EventOk(s.d, s.events[0]);
    assert CanHandle(s, AllGood());
    assert UsefulStep(s, Handle(s, AllGood()), HandleStep(AllGood()));
  }

  lemma CommandCanComplete(s: System)
    requires Ready(s) && |s.d.issued| > 0 && !OutOfSlots(s.d)
    ensures !Stuck(s)
  {
    IssuedHasNone(s);
    var c := s.d.issued[0];
    var slot: nat;
    match c {
      case EnableSlot => slot :| 1 <= slot <= MAX_SLOTS && s.d.devices[slot].None?;
      case AddressDevice(d) => slot := d;
      case ConfigureEndpoint(d) => slot := d;
    }
    assert UsefulStep(s, Complete(s, slot), CompleteStep(slot));
  }

  lemma PortCanReport(s: System, p: nat)
    requires Ready(s) && s.events == [] && p < PORTS
    requires s.d.phase[p] == ResettingPort || s.d.phase[p] == InitializingDevice
    ensures !Stuck(s)
  {
    if s.d.phase[p] == ResettingPort {
      assert WaitedBy(s.d, PortStatus(p), p);
      assert UsefulStep(s, Post(s, PortStatus(p)), PortStatusStep(p));
    } else {
      var slot :| Owns(s.d, slot, p);
      assert WaitedBy(s.d, Transfer(slot, true, true), p);
      assert UsefulStep(s, Post(s, Transfer(slot, true, true)), TransferStep(slot, true, true));
    }
  }

  /** The slots run out only when a ninth port is connected: eight that own them and the one that asks. */
  lemma OutOfSlotsMeansNine(d: Driver)
    requires DriverInv(d) && OutOfSlots(d)
    ensures forall a :: 1 <= a <= MAX_SLOTS ==>
              var p := d.devices[a].value.inputPort; p < PORTS && Rank(d.phase[p]) >= 4 && p != d.addressing
    ensures forall a, b :: 1 <= a < b <= MAX_SLOTS ==> d.devices[a].value.inputPort != d.devices[b].value.inputPort
    ensures d.addressing < PORTS && d.phase[d.addressing] == EnablingSlot
  {
    forall a | 1 <= a <= MAX_SLOTS
      ensures forall b :: 1 <= b <= MAX_SLOTS && a != b ==> d.devices[a].value.inputPort != d.devices[b].value.inputPort
    {
      OnlyOwner(d, a);
    }
  }

  /** Where nothing useful can happen any more, every connected port is configured, or the slots have run out. */
  lemma StuckMeansDone(s: System)
    requires Ready(s) && Stuck(s)
    ensures Done(s.d) || OutOfSlots(s.d)
  {
    if s.events != [] {
      EventCanBeHandled(s);
    } else if !OutOfSlots(s.d) {
      if s.d.issued != [] { CommandCanComplete(s); }
      assert Pending(s) == [];
      forall q | 0 <= q < PORTS ensures s.d.phase[q] != ResettingPort && s.d.phase[q] != InitializingDevice {
        if s.d.phase[q] == ResettingPort || s.d.phase[q] == InitializingDevice { PortCanReport(s, q); }
      }
      forall p | 0 <= p < PORTS ensures s.d.phase[p] == NotConnected || s.d.phase[p] == Configured {
        QuietMeansDone(s, p);
      }
    }
  }

  ghost predicate UsefulStepAt(run: seq<System>, steps: seq<Step>, i: nat)
    requires i < |steps| < |run|
  {
    UsefulStep(run[i], run[i + 1], steps[i])
  }

  ghost predicate UsefulRun(run: seq<System>, steps: seq<Step>) {
    |run| == |steps| + 1 && forall i :: 0 <= i < |steps| ==> UsefulStepAt(run, steps, i)
  }

  lemma StepAtFalls(run: seq<System>, steps: seq<Step>, i: nat)
    requires i < |steps| < |run| && UsefulStepAt(run, steps, i) && Ready(run[i])
    ensures Ready(run[i + 1]) && Work(run[i + 1]) < Work(run[i])
  {
    StepLighter(run[i], run[i + 1], steps[i]);
  }

  lemma {:induction false} RunFalls(run: seq<System>, steps: seq<Step>, i: nat)
    requires UsefulRun(run, steps) && Ready(run[0]) && i < |run|
    ensures Ready(run[i]) && Work(run[i]) + i <= Work(run[0])
  {
    if i > 0 {
      RunFalls(run, steps, i - 1);
      StepAtFalls(run, steps, i - 1);
    }
  }

  /**
   * With hardware that does its part and no new port, every run ends after at most 21 steps for
   * each port, and where it can go no further every connected port is configured, unless more
   * devices are there than slots.
   */
  lemma EnumerationFinishes(run: seq<System>, steps: seq<Step>)
    requires UsefulRun(run, steps) && Ready(run[0])
    ensures |steps| <= Work(run[0]) <= 21 * PORTS
    ensures Shape(run[|steps|].d) && (Stuck(run[|steps|]) ==> Done(run[|steps|].d) || OutOfSlots(run[|steps|].d))
  {
    RunFalls(run, steps, |steps|);
    SumBound(Weights(run[0]), 21);
    if Stuck(run[|steps|]) { StuckMeansDone(run[|steps|]); }
  }

  // ---------------------------------------------------------------------------
  // Where such runs start
  // ---------------------------------------------------------------------------

  lemma InitReady()
    ensures Ready(Init())
  {
    InitInv();
  }

  /** Finding a port connected, at start-up or later, leaves a state to go on from. */
  lemma ConfigureReady(s: System, p: nat, ports: seq<PortRegister>)
    requires Ready(s) && Registers(ports) && 1 <= p < PORTS && ports[p].connected
    ensures Ready(s.(d := ConfigurePort(s.d, ports, p).0))
  {
    var t := s.(d := ConfigurePort(s.d, ports, p).0);
    ConfigureInv(s, p, ports);
    assert NextStep(s, t, ConfigureStep(p, ports));
    ServedStep(s, t, ConfigureStep(p, ports));
    UsefulStill(s.d, t.d, s.events);
  }
}
