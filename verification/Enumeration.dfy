/** Port enumeration: the event handlers that take each root hub port from "not connected"
    to "configured", one port at a time between its reset and its address. */
module Enumeration {
  import opened Wrappers

  const MAX_SLOTS := 8
  const PORTS := 256
  const SUPER_SPEED_PLUS := 5
  const ENABLE_SLOT_COMMAND := 9
  const ADDRESS_DEVICE_COMMAND := 11
  const CONFIGURE_ENDPOINT_COMMAND := 12

  datatype Phase =
    | NotConnected | WaitingAddressed | ResettingPort | EnablingSlot
    | AddressingDevice | InitializingDevice | ConfiguringEndpoints | Configured

  datatype Error = Success | InvalidPhase | InvalidSlotId | UnknownSpeed | TransferFailed | AlreadyAllocated | NotImplemented

  datatype Command = EnableSlot | AddressDevice(slot: nat) | ConfigureEndpoint(slot: nat)

  function TypeOf(c: Command): nat {
    match c
    case EnableSlot => ENABLE_SLOT_COMMAND
    case AddressDevice(_) => ADDRESS_DEVICE_COMMAND
    case ConfigureEndpoint(_) => CONFIGURE_ENDPOINT_COMMAND
  }

  /** The command that a completion for a slot is about, by the type of the TRB it names. */
  function Issuer(trbType: nat, slot: nat): Option<Command> {
    if trbType == ENABLE_SLOT_COMMAND then Some(EnableSlot)
    else if trbType == ADDRESS_DEVICE_COMMAND then Some(AddressDevice(slot))
    else if trbType == CONFIGURE_ENDPOINT_COMMAND then Some(ConfigureEndpoint(slot))
    else None
  }

  /** A device object: the port number in its input context, the one in its output context
      (0 until the controller fills it in) and whether its descriptors are read. */
  datatype Device = Device(inputPort: nat, contextPort: nat, initialized: bool)

  /** What a handler may read of a port. */
  datatype PortRegister = PortRegister(connected: bool, enabled: bool, resetChanged: bool, speed: nat)

  /** The driver's globals and the commands on the command ring not completed yet. */
  datatype Driver = Driver(
    phase: seq<Phase>, addressing: nat, devices: seq<Option<Device>>, issued: seq<Command>)

  predicate Shape(d: Driver) {
    |d.phase| == PORTS && d.addressing < PORTS && |d.devices| == MAX_SLOTS + 1
  }

  predicate Registers(ports: seq<PortRegister>) {
    |ports| == PORTS
  }

  function SetPhase(d: Driver, p: nat, f: Phase): Driver
    requires p < |d.phase|
  {
    d.(phase := d.phase[p := f])
  }

  function Issue(d: Driver, c: Command): Driver {
    d.(issued := d.issued + [c])
  }

  function FindBySlot(d: Driver, slot: nat): Option<Device>
    requires Shape(d)
  {
    if slot > MAX_SLOTS then None else d.devices[slot]
  }

  // ---------------------------------------------------------------------------
  // The handlers
  // ---------------------------------------------------------------------------

  function ResetPort(d: Driver, ports: seq<PortRegister>, p: nat): (Driver, Error)
    requires Shape(d) && Registers(ports) && p < PORTS
  {
    if !ports[p].connected then (d, Success)
    else if d.addressing != 0 then (SetPhase(d, p, WaitingAddressed), Success)
    else if d.phase[p] != NotConnected && d.phase[p] != WaitingAddressed then (d, InvalidPhase)
    else (SetPhase(d, p, ResettingPort).(addressing := p), Success)
  }

  function EnableSlotOn(d: Driver, ports: seq<PortRegister>, p: nat): (Driver, Error)
    requires Shape(d) && Registers(ports) && p < PORTS
  {
    if ports[p].enabled && ports[p].resetChanged then (Issue(SetPhase(d, p, EnablingSlot), EnableSlot), Success)
    else (d, Success)
  }

  function AllocDevice(d: Driver, slot: nat): Driver
    requires Shape(d)
  {
    if slot > MAX_SLOTS || d.devices[slot].Some? then d
    else d.(devices := d.devices[slot := Some(Device(0, 0, false))])
  }

  function AddressDeviceOn(d: Driver, p: nat, slot: nat): (Driver, Error)
    requires Shape(d) && p < PORTS
  {
    var d1 := AllocDevice(d, slot);
    match FindBySlot(d1, slot)
    case None => (d1, InvalidSlotId)
    case Some(dev) =>
      var d2 := d1.(devices := d1.devices[slot := Some(dev.(inputPort := p))]);
      (Issue(SetPhase(d2, p, AddressingDevice), AddressDevice(slot)), Success)
  }

  function InitializeDevice(d: Driver, p: nat, slot: nat): (Driver, Error)
    requires Shape(d) && p < PORTS
  {
    match FindBySlot(d, slot)
    case None => (d, InvalidSlotId)
    case Some(dev) =>
      var d1 := SetPhase(d, p, InitializingDevice);
      (d1.(devices := d1.devices[slot := Some(dev.(initialized := false))]), Success)
  }

  function ConfigureEndpoints(d: Driver, ports: seq<PortRegister>, slot: nat, dev: Device): (Driver, Error)
    requires Shape(d) && Registers(ports) && slot <= MAX_SLOTS && dev.contextPort < PORTS
  {
    var d1 := d.(devices := d.devices[slot := Some(dev.(inputPort := dev.contextPort))]);
    var speed := ports[dev.contextPort].speed;
    if speed == 0 || speed > SUPER_SPEED_PLUS then (d1, UnknownSpeed)
    else (Issue(SetPhase(d1, dev.contextPort, ConfiguringEndpoints), ConfigureEndpoint(slot)), Success)
  }

  function CompleteConfiguration(d: Driver, p: nat, slot: nat): (Driver, Error)
    requires Shape(d) && p < PORTS
  {
    if FindBySlot(d, slot).None? then (d, InvalidSlotId) else (SetPhase(d, p, Configured), Success)
  }

  function OnPortStatus(d: Driver, ports: seq<PortRegister>, p: nat): (Driver, Error)
    requires Shape(d) && Registers(ports) && p < PORTS
  {
    match d.phase[p]
    case NotConnected => ResetPort(d, ports, p)
    case ResettingPort => EnableSlotOn(d, ports, p)
    case _ => (d, InvalidPhase)
  }

  /** A transfer event; `ok` is the device's own verdict on it, `finishes` says that it was
      the last one of the descriptor exchange. */
  function OnTransfer(d: Driver, ports: seq<PortRegister>, slot: nat, ok: bool, finishes: bool): (Driver, Error)
    requires Shape(d) && Registers(ports)
    requires FindBySlot(d, slot).Some? ==> FindBySlot(d, slot).value.contextPort < PORTS
  {
    match FindBySlot(d, slot)
    case None => (d, InvalidSlotId)
    case Some(dev) =>
      if !ok then (d, TransferFailed) else
      var dev1 := dev.(initialized := dev.initialized || finishes);
      var d1 := d.(devices := d.devices[slot := Some(dev1)]);
      if dev1.initialized && d1.phase[dev1.contextPort] == InitializingDevice then
        ConfigureEndpoints(d1, ports, slot, dev1)
      else (d1, Success)
  }

  /** The first port found waiting, or the number of ports if there is none. */
  function FirstWaiting(phase: seq<Phase>, from: nat): (i: nat)
    requires from <= |phase|
    ensures from <= i <= |phase|
    ensures i < |phase| ==> phase[i] == WaitingAddressed
    ensures forall j :: from <= j < i ==> phase[j] != WaitingAddressed
    decreases |phase| - from
  {
    if from == |phase| || phase[from] == WaitingAddressed then from else FirstWaiting(phase, from + 1)
  }

  /** Hands the right to be addressed to the lowest waiting port. */
  function HandOver(d: Driver, ports: seq<PortRegister>): (Driver, Error)
    requires Shape(d) && Registers(ports)
  {
    var d1 := d.(addressing := 0);
    var i := FirstWaiting(d1.phase, 0);
    if i < PORTS then ResetPort(d1, ports, i) else (d1, Success)
  }

  function OnCompletion(d: Driver, ports: seq<PortRegister>, issuer: Command, slot: nat): (Driver, Error)
    requires Shape(d) && Registers(ports)
    requires FindBySlot(d, slot).Some? ==> FindBySlot(d, slot).value.contextPort < PORTS
  {
    match issuer
    case EnableSlot =>
      if d.phase[d.addressing] != EnablingSlot then (d, InvalidPhase)
      else AddressDeviceOn(d, d.addressing, slot)
    case AddressDevice(_) =>
      (match FindBySlot(d, slot)
       case None => (d, InvalidSlotId)
       case Some(dev) =>
         var p := dev.contextPort;
         if p != d.addressing || d.phase[p] != AddressingDevice then (d, InvalidPhase) else
         var (d1, err) := HandOver(d, ports);
         if err != Success then (d1, err) else InitializeDevice(d1, p, slot))
    case ConfigureEndpoint(_) =>
      (match FindBySlot(d, slot)
       case None => (d, InvalidSlotId)
       case Some(dev) =>
         if d.phase[dev.contextPort] != ConfiguringEndpoints then (d, InvalidPhase)
         else CompleteConfiguration(d, dev.contextPort, slot))
  }

  /** Called at start-up for every port found connected. */
  function ConfigurePort(d: Driver, ports: seq<PortRegister>, p: nat): (Driver, Error)
    requires Shape(d) && Registers(ports) && p < PORTS
  {
    if d.phase[p] == NotConnected then ResetPort(d, ports, p) else (d, Success)
  }

  // ---------------------------------------------------------------------------
  // The system: driver, controller and the event ring between them
  // ---------------------------------------------------------------------------

  datatype Event =
    | PortStatus(port: nat)
    | Completion(issuer: Command, slot: nat)
    | Transfer(tslot: nat, ok: bool, finishes: bool)

  datatype System = System(d: Driver, events: seq<Event>)

  function Init(): System {
    System(Driver(seq(PORTS, i => NotConnected), 0, seq(MAX_SLOTS + 1, i => None), []), [])
  }

  /** The slot a successful completion names: a fresh one for Enable Slot. */
  predicate CompletesWith(d: Driver, c: Command, slot: nat)
    requires Shape(d)
  {
    match c
    case EnableSlot => 1 <= slot <= MAX_SLOTS && d.devices[slot].None?
    case AddressDevice(s) => slot == s
    case ConfigureEndpoint(s) => slot == s
  }

  predicate CanComplete(s: System, slot: nat) {
    Shape(s.d) && |s.d.issued| > 0 && CompletesWith(s.d, s.d.issued[0], slot)
  }

  /** The controller executes the oldest command. Address Device copies the input slot context
      into the device context. */
  function Complete(s: System, slot: nat): System
    requires CanComplete(s, slot)
  {
    var c := s.d.issued[0];
    var d1 := s.d.(issued := s.d.issued[1..]);
    var d2 :=
      if c.AddressDevice? && slot <= MAX_SLOTS && d1.devices[slot].Some? then
        var dev := d1.devices[slot].value;
        d1.(devices := d1.devices[slot := Some(dev.(contextPort := dev.inputPort))])
      else d1;
    System(d2, s.events + [Completion(c, slot)])
  }

  function Post(s: System, e: Event): System {
    s.(events := s.events + [e])
  }

  predicate CanHandle(s: System, ports: seq<PortRegister>) {
    && Shape(s.d) && Registers(ports) && |s.events| > 0
    && (s.events[0].PortStatus? ==> s.events[0].port < PORTS)
    && forall slot :: 0 <= slot <= MAX_SLOTS && s.d.devices[slot].Some? ==> s.d.devices[slot].value.contextPort < PORTS
  }

  function OnEvent(d: Driver, ports: seq<PortRegister>, e: Event): (Driver, Error)
    requires CanHandle(System(d, [e]), ports)
  {
    match e
    case PortStatus(p) => OnPortStatus(d, ports, p)
    case Completion(c, slot) => OnCompletion(d, ports, c, slot)
    case Transfer(slot, ok, finishes) => OnTransfer(d, ports, slot, ok, finishes)
  }

  /** The main loop handles the oldest event and drops it. */
  function Handle(s: System, ports: seq<PortRegister>): System
    requires CanHandle(s, ports)
  {
    System(OnEvent(s.d, ports, s.events[0]).0, s.events[1..])
  }

  datatype Step =
    | CompleteStep(slot: nat)
    | PortStatusStep(port: nat)
    | TransferStep(of: nat, ok: bool, finishes: bool)
    | HandleStep(ports: seq<PortRegister>)
    | ConfigureStep(port: nat, ports: seq<PortRegister>)

  ghost predicate NextStep(s: System, s': System, step: Step) {
    match step
    case CompleteStep(slot) => CanComplete(s, slot) && s' == Complete(s, slot)
    case PortStatusStep(p) => 1 <= p < PORTS && s' == Post(s, PortStatus(p))
    case TransferStep(slot, ok, finishes) => s' == Post(s, Transfer(slot, ok, finishes))
    case HandleStep(ports) => CanHandle(s, ports) && s' == Handle(s, ports)
    case ConfigureStep(p, ports) =>
      Shape(s.d) && Registers(ports) && 1 <= p < PORTS && ports[p].connected &&
      s' == s.(d := ConfigurePort(s.d, ports, p).0)
  }

  ghost predicate Next(s: System, s': System) {
    exists step :: NextStep(s, s', step)
  }

  // ---------------------------------------------------------------------------
  // The invariant
  // ---------------------------------------------------------------------------

  /** The phases only one port may be in at a time. */
  predicate Busy(f: Phase) {
    f == ResettingPort || f == EnablingSlot || f == AddressingDevice
  }

  function Rank(f: Phase): nat {
    match f
    case NotConnected => 0
    case WaitingAddressed => 1
    case ResettingPort => 2
    case EnablingSlot => 3
    case AddressingDevice => 4
    case InitializingDevice => 5
    case ConfiguringEndpoints => 6
    case Configured => 7
  }

  ghost predicate Exclusive(d: Driver)
    requires Shape(d)
  {
    && d.phase[0] == NotConnected
    && (d.addressing != 0 ==> Busy(d.phase[d.addressing]))
    && forall p :: 0 <= p < PORTS && p != d.addressing ==> !Busy(d.phase[p])
  }

  predicate Owns(d: Driver, slot: nat, p: nat)
    requires Shape(d)
  {
    1 <= slot <= MAX_SLOTS && d.devices[slot].Some? && d.devices[slot].value.inputPort == p
  }

  ghost predicate DevicesOk(d: Driver)
    requires Shape(d)
  {
    && d.devices[0].None?
    && (forall slot :: 1 <= slot <= MAX_SLOTS && d.devices[slot].Some? ==>
          var dev := d.devices[slot].value;
          && 1 <= dev.inputPort < PORTS && Rank(d.phase[dev.inputPort]) >= 4
          && (dev.contextPort == 0 || dev.contextPort == dev.inputPort)
          && (Rank(d.phase[dev.inputPort]) >= 5 ==> dev.contextPort == dev.inputPort))
    && (forall a, b, p :: Owns(d, a, p) && Owns(d, b, p) ==> a == b)
    && (forall p :: 0 <= p < PORTS && Rank(d.phase[p]) >= 4 ==> exists slot :: Owns(d, slot, p))
  }

  /** The commands whose completion must still be on its way, told from the phases alone. */
  predicate Expected(d: Driver, c: Command)
    requires Shape(d)
  {
    match c
    case EnableSlot => d.addressing != 0 && d.phase[d.addressing] == EnablingSlot
    case AddressDevice(s) => InPhase(d, s, AddressingDevice)
    case ConfigureEndpoint(s) => InPhase(d, s, ConfiguringEndpoints)
  }

  predicate InPhase(d: Driver, slot: nat, f: Phase)
    requires Shape(d)
  {
    1 <= slot <= MAX_SLOTS && d.devices[slot].Some? &&
    d.devices[slot].value.inputPort < PORTS && d.phase[d.devices[slot].value.inputPort] == f
  }

  function Issuers(events: seq<Event>): seq<Command> {
    if events == [] then []
    else (if events[0].Completion? then [events[0].issuer] else []) + Issuers(events[1..])
  }

  /** Commands whose completion has not been handled, oldest first. */
  function Pending(s: System): seq<Command> {
    Issuers(s.events) + s.d.issued
  }

  ghost predicate EventOk(d: Driver, e: Event)
    requires Shape(d)
  {
    match e
    case PortStatus(p) => 1 <= p < PORTS
    case Completion(EnableSlot, slot) => 1 <= slot <= MAX_SLOTS && d.devices[slot].None?
    case Completion(AddressDevice(c), slot) =>
      c == slot && 1 <= slot <= MAX_SLOTS && d.devices[slot].Some? &&
      d.devices[slot].value.contextPort == d.devices[slot].value.inputPort
    case Completion(ConfigureEndpoint(c), slot) => c == slot
    case Transfer(_, _, _) => true
  }

  ghost predicate DriverInv(d: Driver) {
    Shape(d) && Exclusive(d) && DevicesOk(d)
  }

  function Count(b: bool): int {
    if b then 1 else 0
  }

  /** Every command whose completion is expected is pending exactly once, and nothing else is. */
  ghost predicate Inv(s: System) {
    && DriverInv(s.d)
    && (forall c: Command :: multiset(Pending(s))[c] == Count(Expected(s.d, c)))
    && (forall i :: 0 <= i < |s.events| ==> EventOk(s.d, s.events[i]))
  }

  lemma InitInv()
    ensures Inv(Init())
  {
  }

  // ---------------------------------------------------------------------------
  // What each handler does to the driver's part
  // ---------------------------------------------------------------------------

  /** From `d` to `e`: the completion of `done` is no longer expected, `sent` is issued. */
  ghost predicate Moves(d: Driver, e: Driver, done: Option<Command>, sent: Option<Command>)
    requires Shape(d) && Shape(e)
  {
    && e.issued == d.issued + (if sent.Some? then [sent.value] else [])
    && (forall c :: Count(Expected(e, c)) == Count(Expected(d, c)) - Count(done == Some(c)) + Count(sent == Some(c)))
  }

  ghost predicate KeepsEvents(d: Driver, e: Driver)
    requires Shape(d) && Shape(e)
  {
    forall v :: EventOk(d, v) ==> EventOk(e, v)
  }

  /** No port moves back. */
  ghost predicate Forward(d: Driver, e: Driver)
    requires Shape(d) && Shape(e)
  {
    forall p :: 0 <= p < PORTS ==> Rank(d.phase[p]) <= Rank(e.phase[p])
  }

  ghost predicate Good(d: Driver, e: Driver, done: Option<Command>, sent: Option<Command>) {
    Shape(d) && DriverInv(e) && Moves(d, e, done, sent) && Forward(d, e)
  }

  /** Ownership is untouched when no device is added and no port starts to need one. */
  lemma OwnersFrame(d: Driver, e: Driver)
    requires Shape(d) && DevicesOk(d) && Shape(e)
    requires forall slot, q :: Owns(e, slot, q) <==> Owns(d, slot, q)
    requires forall q :: 0 <= q < PORTS && Rank(e.phase[q]) >= 4 ==> Rank(d.phase[q]) >= 4
    ensures forall a, b, p :: Owns(e, a, p) && Owns(e, b, p) ==> a == b
    ensures forall p :: 0 <= p < PORTS && Rank(e.phase[p]) >= 4 ==> exists slot :: Owns(e, slot, p)
  {
    forall q | 0 <= q < PORTS && Rank(e.phase[q]) >= 4 ensures exists slot :: Owns(e, slot, q) {
      var slot :| Owns(d, slot, q);
      assert Owns(e, slot, q);
    }
  }

  lemma SetWaitingGood(d: Driver, p: nat)
    requires DriverInv(d) && 1 <= p < PORTS && Rank(d.phase[p]) <= 1 && d.addressing != 0
    ensures Good(d, SetPhase(d, p, WaitingAddressed), None, None)
    ensures KeepsEvents(d, SetPhase(d, p, WaitingAddressed))
  {
    OwnersFrame(d, SetPhase(d, p, WaitingAddressed));
  }

  lemma SetResettingGood(d: Driver, p: nat)
    requires DriverInv(d) && 1 <= p < PORTS && Rank(d.phase[p]) <= 1 && d.addressing == 0
    ensures Good(d, SetPhase(d, p, ResettingPort).(addressing := p), None, None)
    ensures KeepsEvents(d, SetPhase(d, p, ResettingPort).(addressing := p))
  {
    OwnersFrame(d, SetPhase(d, p, ResettingPort).(addressing := p));
  }

  /** Resetting a port, when asked at a point where that is legal, never reports an error. */
  lemma ResetPortGood(d: Driver, ports: seq<PortRegister>, p: nat)
    requires DriverInv(d) && Registers(ports) && 1 <= p < PORTS
    requires d.phase[p] == NotConnected || d.phase[p] == WaitingAddressed
    ensures var (e, err) := ResetPort(d, ports, p);
            err == Success && Good(d, e, None, None) && KeepsEvents(d, e) && e.devices == d.devices &&
            forall q :: 0 <= q < PORTS && q != p ==> e.phase[q] == d.phase[q]
  {
    if ports[p].connected {
      if d.addressing != 0 { SetWaitingGood(d, p); } else { SetResettingGood(d, p); }
    }
  }

  lemma EnableSlotGood(d: Driver, ports: seq<PortRegister>, p: nat)
    requires DriverInv(d) && Registers(ports) && 1 <= p < PORTS && d.phase[p] == ResettingPort
    ensures var e := EnableSlotOn(d, ports, p).0;
            KeepsEvents(d, e) &&
            (Good(d, e, None, None) || Good(d, e, None, Some(EnableSlot)))
  {
    OwnersFrame(d, EnableSlotOn(d, ports, p).0);
  }

  /** The driver once the device of a fresh slot is being addressed. */
  function Adding(d: Driver, slot: nat): Driver
    requires Shape(d) && slot <= MAX_SLOTS && d.addressing < PORTS
  {
    Issue(SetPhase(d.(devices := d.devices[slot := Some(Device(d.addressing, 0, false))]), d.addressing, AddressingDevice),
          AddressDevice(slot))
  }

  lemma AddingOwners(d: Driver, slot: nat)
    requires DriverInv(d) && Expected(d, EnableSlot) && 1 <= slot <= MAX_SLOTS && d.devices[slot].None?
    ensures var e := Adding(d, slot);
            && (forall q :: 0 <= q < PORTS && Rank(e.phase[q]) >= 4 ==> exists t :: Owns(e, t, q))
            && forall a, b, q :: Owns(e, a, q) && Owns(e, b, q) ==> a == b
  {
    var e := Adding(d, slot);
    forall q | 0 <= q < PORTS && Rank(e.phase[q]) >= 4 ensures exists t :: Owns(e, t, q) {
      if q == d.addressing {
        assert Owns(e, slot, q);
      } else {
        var t :| Owns(d, t, q);
        assert Owns(e, t, q);
      }
    }
    forall a, b, q | Owns(e, a, q) && Owns(e, b, q) ensures a == b {
      if a != slot && b != slot { assert Owns(d, a, q) && Owns(d, b, q); }
    }
  }

  lemma AddingInv(d: Driver, slot: nat)
    requires DriverInv(d) && Expected(d, EnableSlot) && 1 <= slot <= MAX_SLOTS && d.devices[slot].None?
    ensures DriverInv(Adding(d, slot))
  {
    AddingOwners(d, slot);
  }

  lemma AddingMoves(d: Driver, slot: nat)
    requires DriverInv(d) && Expected(d, EnableSlot) && 1 <= slot <= MAX_SLOTS && d.devices[slot].None?
    ensures Moves(d, Adding(d, slot), Some(EnableSlot), Some(AddressDevice(slot))) && Forward(d, Adding(d, slot))
    ensures forall v :: EventOk(d, v) && !(v.Completion? && v.issuer == EnableSlot) ==> EventOk(Adding(d, slot), v)
  {
  }

  /** The slot is fresh, so the device object is new and belongs to the addressing port. */
  lemma AddressDeviceGood(d: Driver, slot: nat)
    requires DriverInv(d) && Expected(d, EnableSlot) && 1 <= slot <= MAX_SLOTS && d.devices[slot].None?
    ensures var (e, err) := AddressDeviceOn(d, d.addressing, slot);
            err == Success && Good(d, e, Some(EnableSlot), Some(AddressDevice(slot))) &&
            forall v :: EventOk(d, v) && !(v.Completion? && v.issuer == EnableSlot) ==> EventOk(e, v)
  {
    AddingInv(d, slot);
    AddingMoves(d, slot);
    assert d.devices[slot := Some(Device(0, 0, false))][slot := Some(Device(d.addressing, 0, false))]
        == d.devices[slot := Some(Device(d.addressing, 0, false))];
    assert AddressDeviceOn(d, d.addressing, slot).0 == Adding(d, slot);
  }

  lemma OnlyOwner(d: Driver, slot: nat)
    requires DriverInv(d) && 1 <= slot <= MAX_SLOTS && d.devices[slot].Some?
    ensures forall t :: 1 <= t <= MAX_SLOTS && d.devices[t].Some? && t != slot ==>
              d.devices[t].value.inputPort != d.devices[slot].value.inputPort
  {
    assert Owns(d, slot, d.devices[slot].value.inputPort);
    forall t | 1 <= t <= MAX_SLOTS && d.devices[t].Some? && t != slot
      ensures d.devices[t].value.inputPort != d.devices[slot].value.inputPort
    {
      assert Owns(d, t, d.devices[t].value.inputPort);
    }
  }

  /** The driver once the port of a slot is configured. */
  function Completed(d: Driver, slot: nat): Driver
    requires Shape(d) && slot <= MAX_SLOTS && d.devices[slot].Some? && d.devices[slot].value.contextPort < PORTS
  {
    SetPhase(d, d.devices[slot].value.contextPort, Configured)
  }

  lemma CompletedInv(d: Driver, slot: nat)
    requires DriverInv(d) && Expected(d, ConfigureEndpoint(slot))
    ensures d.devices[slot].value.contextPort == d.devices[slot].value.inputPort < PORTS && DriverInv(Completed(d, slot))
  {
    OwnersFrame(d, Completed(d, slot));
  }

  lemma CompletedMoves(d: Driver, slot: nat)
    requires DriverInv(d) && Expected(d, ConfigureEndpoint(slot))
    requires d.devices[slot].value.contextPort == d.devices[slot].value.inputPort < PORTS
    ensures Moves(d, Completed(d, slot), Some(ConfigureEndpoint(slot)), None)
    ensures Forward(d, Completed(d, slot)) && KeepsEvents(d, Completed(d, slot))
  {
    OnlyOwner(d, slot);
  }

  lemma CompleteConfigurationGood(d: Driver, slot: nat)
    requires DriverInv(d) && Expected(d, ConfigureEndpoint(slot))
    ensures var dev := d.devices[slot].value;
            dev.contextPort == dev.inputPort < PORTS &&
            var (e, err) := CompleteConfiguration(d, dev.contextPort, slot);
            err == Success && Good(d, e, Some(ConfigureEndpoint(slot)), None) && KeepsEvents(d, e)
  {
    CompletedInv(d, slot);
    CompletedMoves(d, slot);
  }

  // ---------------------------------------------------------------------------
  // Address Device completed: the invariant is broken and restored
  // ---------------------------------------------------------------------------

  /** Clearing `addressing` while its port is still in AddressingDevice breaks exclusivity. */
  lemma ClearingBreaks(d: Driver)
    requires DriverInv(d) && d.addressing != 0
    ensures !Exclusive(d.(addressing := 0))
  {
  }

  /** The driver as it would be had the addressed port moved on before the hand-over. */
  function Released(d: Driver, slot: nat): Driver
    requires Shape(d) && slot <= MAX_SLOTS && d.devices[slot].Some? && d.addressing < PORTS
  {
    SetPhase(d, d.addressing, InitializingDevice).(
      addressing := 0, devices := d.devices[slot := Some(d.devices[slot].value.(initialized := false))])
  }

  lemma ReleasedInv(d: Driver, slot: nat)
    requires DriverInv(d) && Expected(d, AddressDevice(slot)) && d.devices[slot].value.contextPort == d.devices[slot].value.inputPort
    ensures d.devices[slot].value.contextPort == d.addressing && d.phase[d.addressing] == AddressingDevice
    ensures DriverInv(Released(d, slot))
  {
    OnlyOwner(d, slot);
    OwnersFrame(d, Released(d, slot));
  }

  lemma ReleasedMoves(d: Driver, slot: nat)
    requires DriverInv(d) && Expected(d, AddressDevice(slot)) && d.phase[d.addressing] == AddressingDevice
    ensures Moves(d, Released(d, slot), Some(AddressDevice(slot)), None)
    ensures Forward(d, Released(d, slot)) && KeepsEvents(d, Released(d, slot))
  {
    OnlyOwner(d, slot);
  }

  lemma ReleasedGood(d: Driver, slot: nat)
    requires DriverInv(d) && Expected(d, AddressDevice(slot)) && d.devices[slot].value.contextPort == d.devices[slot].value.inputPort
    ensures d.devices[slot].value.contextPort == d.addressing && d.phase[d.addressing] == AddressingDevice
    ensures Good(d, Released(d, slot), Some(AddressDevice(slot)), None) && KeepsEvents(d, Released(d, slot))
  {
    ReleasedInv(d, slot);
    ReleasedMoves(d, slot);
  }

  lemma FirstWaitingSame(a: seq<Phase>, b: seq<Phase>, from: nat)
    requires |a| == |b| && from <= |a|
    requires forall k :: 0 <= k < |a| ==> (a[k] == WaitingAddressed <==> b[k] == WaitingAddressed)
    ensures FirstWaiting(a, from) == FirstWaiting(b, from)
    decreases |a| - from
  {
  }

  /** Handing over first and moving the port on afterwards comes to the same. */
  lemma HandOverCommutes(d: Driver, ports: seq<PortRegister>, slot: nat)
    requires Registers(ports) && DriverInv(d) && 1 <= slot <= MAX_SLOTS && d.devices[slot].Some?
    requires d.addressing != 0 && d.phase[d.addressing] == AddressingDevice
    ensures HandOver(d, ports).1 == Success && Shape(HandOver(d, ports).0)
    ensures InitializeDevice(HandOver(d, ports).0, d.addressing, slot) == (HandOver(Released(d, slot), ports).0, Success)
    ensures FirstWaiting(d.phase, 0) == FirstWaiting(Released(d, slot).phase, 0)
  {
    var i, j := FirstWaiting(d.phase, 0), FirstWaiting(Released(d, slot).phase, 0);
    assert forall k :: 0 <= k < PORTS ==> (d.phase[k] == WaitingAddressed <==> Released(d, slot).phase[k] == WaitingAddressed);
    FirstWaitingSame(d.phase, Released(d, slot).phase, 0);
    var (d1, err) := HandOver(d, ports);
    assert d1.devices == d.devices;
    if i < PORTS && ports[i].connected {
      assert d.phase[i := ResettingPort][d.addressing := InitializingDevice]
          == d.phase[d.addressing := InitializingDevice][i := ResettingPort];
    }
  }

  lemma HandOverGood(d: Driver, ports: seq<PortRegister>)
    requires DriverInv(d) && Registers(ports) && d.addressing == 0
    ensures var (e, err) := HandOver(d, ports);
            err == Success && Good(d, e, None, None) && KeepsEvents(d, e)
  {
    assert d.(addressing := 0) == d;
    var i := FirstWaiting(d.phase, 0);
    if i < PORTS { ResetPortGood(d, ports, i); }
  }

  lemma GoodTrans(a: Driver, b: Driver, c: Driver, done: Option<Command>)
    requires Good(a, b, done, None) && Good(b, c, None, None)
    ensures Good(a, c, done, None)
  {
  }

  /** The handler of a completed Address Device succeeds: none of its error returns is taken,
      and the invariant it breaks holds again when it returns. */
  lemma AddressedGood(d: Driver, ports: seq<PortRegister>, slot: nat)
    requires DriverInv(d) && Registers(ports) && Expected(d, AddressDevice(slot))
    requires d.devices[slot].value.contextPort == d.devices[slot].value.inputPort
    ensures var (e, err) := OnCompletion(d, ports, AddressDevice(slot), slot);
            err == Success && Good(d, e, Some(AddressDevice(slot)), None) && KeepsEvents(d, e) &&
            e == HandOver(Released(d, slot), ports).0
  {
    ReleasedGood(d, slot);
    HandOverCommutes(d, ports, slot);
    HandOverGood(Released(d, slot), ports);
    GoodTrans(d, Released(d, slot), HandOver(Released(d, slot), ports).0, Some(AddressDevice(slot)));
  }

  /** The hand-over picks the lowest waiting port and leaves all others alone; nobody is left
      waiting without a port being addressed exactly when no port waits or that lowest one is
      still connected. */
  lemma HandOverExact(d: Driver, ports: seq<PortRegister>, slot: nat)
    requires DriverInv(d) && Registers(ports) && Expected(d, AddressDevice(slot))
    requires d.devices[slot].value.contextPort == d.devices[slot].value.inputPort
    ensures var e := OnCompletion(d, ports, AddressDevice(slot), slot).0;
            var i := FirstWaiting(d.phase, 0);
            && |e.phase| == PORTS
            && (i < PORTS && ports[i].connected ==> e.addressing == i && e.phase[i] == ResettingPort)
            && (i == PORTS || !ports[i].connected ==> e.addressing == 0)
            && ((forall p :: 0 <= p < PORTS && e.phase[p] == WaitingAddressed ==> e.addressing != 0)
                <==> (i == PORTS || ports[i].connected))
  {
    ReleasedGood(d, slot);
    HandOverCommutes(d, ports, slot);
    AddressedGood(d, ports, slot);
    var i := FirstWaiting(d.phase, 0);
    var e := OnCompletion(d, ports, AddressDevice(slot), slot).0;
    if i < PORTS && !ports[i].connected {
      assert e.phase[i] == WaitingAddressed;
    }
  }

  // ---------------------------------------------------------------------------
  // Transfers
  // ---------------------------------------------------------------------------

  /** The device object of `slot` with its flag set, and its input context refreshed or not. */
  function Touched(d: Driver, slot: nat, finishes: bool): Driver
    requires Shape(d) && slot <= MAX_SLOTS && d.devices[slot].Some?
  {
    var dev := d.devices[slot].value;
    d.(devices := d.devices[slot := Some(dev.(initialized := dev.initialized || finishes))])
  }

  lemma TouchedMoves(d: Driver, slot: nat, finishes: bool)
    requires DriverInv(d) && slot <= MAX_SLOTS && d.devices[slot].Some?
    ensures Moves(d, Touched(d, slot, finishes), None, None)
    ensures Forward(d, Touched(d, slot, finishes)) && KeepsEvents(d, Touched(d, slot, finishes))
  {
  }

  lemma TouchedGood(d: Driver, slot: nat, finishes: bool)
    requires DriverInv(d) && slot <= MAX_SLOTS && d.devices[slot].Some?
    ensures Good(d, Touched(d, slot, finishes), None, None) && KeepsEvents(d, Touched(d, slot, finishes))
  {
    OwnersFrame(d, Touched(d, slot, finishes));
    TouchedMoves(d, slot, finishes);
  }

  /** The driver once the Configure Endpoint command of a slot is issued. */
  function Sending(d: Driver, slot: nat, p: nat): Driver
    requires Shape(d) && p < PORTS
  {
    Issue(SetPhase(d, p, ConfiguringEndpoints), ConfigureEndpoint(slot))
  }

  lemma SendingInv(d: Driver, slot: nat, p: nat)
    requires DriverInv(d) && InPhase(d, slot, InitializingDevice) && d.devices[slot].value.inputPort == p
    ensures DriverInv(Sending(d, slot, p))
  {
    OnlyOwner(d, slot);
    OwnersFrame(d, Sending(d, slot, p));
  }

  lemma SendingMoves(d: Driver, slot: nat, p: nat)
    requires DriverInv(d) && InPhase(d, slot, InitializingDevice) && d.devices[slot].value.inputPort == p
    ensures Moves(d, Sending(d, slot, p), None, Some(ConfigureEndpoint(slot)))
    ensures Forward(d, Sending(d, slot, p)) && KeepsEvents(d, Sending(d, slot, p))
  {
    OnlyOwner(d, slot);
  }

  lemma SendConfigureGood(d: Driver, slot: nat, p: nat)
    requires DriverInv(d) && InPhase(d, slot, InitializingDevice) && d.devices[slot].value.inputPort == p
    ensures Good(d, Sending(d, slot, p), None, Some(ConfigureEndpoint(slot))) && KeepsEvents(d, Sending(d, slot, p))
  {
    SendingInv(d, slot, p);
    SendingMoves(d, slot, p);
  }

  lemma ConfigureEndpointsGood(d: Driver, ports: seq<PortRegister>, slot: nat)
    requires DriverInv(d) && Registers(ports) && slot <= MAX_SLOTS && d.devices[slot].Some?
    requires d.devices[slot].value.contextPort < PORTS && d.phase[d.devices[slot].value.contextPort] == InitializingDevice
    ensures var (e, err) := ConfigureEndpoints(d, ports, slot, d.devices[slot].value);
            KeepsEvents(d, e) &&
            (if err == Success then Good(d, e, None, Some(ConfigureEndpoint(slot))) else e == d)
  {
    var dev := d.devices[slot].value;
    assert dev.contextPort == dev.inputPort;
    assert d.devices[slot := Some(dev.(inputPort := dev.contextPort))] == d.devices;
    SendConfigureGood(d, slot, dev.inputPort);
  }

  lemma OnTransferGood(d: Driver, ports: seq<PortRegister>, slot: nat, ok: bool, finishes: bool)
    requires DriverInv(d) && Registers(ports)
    ensures FindBySlot(d, slot).Some? ==> FindBySlot(d, slot).value.contextPort < PORTS
    ensures var e := OnTransfer(d, ports, slot, ok, finishes).0;
            KeepsEvents(d, e) &&
            (Good(d, e, None, None) || Good(d, e, None, Some(ConfigureEndpoint(slot))))
  {
    if slot <= MAX_SLOTS && d.devices[slot].Some? && ok {
      var t := Touched(d, slot, finishes);
      TouchedGood(d, slot, finishes);
      if t.devices[slot].value.initialized && t.phase[t.devices[slot].value.contextPort] == InitializingDevice {
        ConfigureEndpointsGood(t, ports, slot);
        GoodAfterTouch(d, t, ConfigureEndpoints(t, ports, slot, t.devices[slot].value).0, slot);
      }
    }
  }

  lemma GoodAfterTouch(a: Driver, b: Driver, c: Driver, slot: nat)
    requires Good(a, b, None, None) && (c == b || Good(b, c, None, Some(ConfigureEndpoint(slot))))
    ensures c == b || Good(a, c, None, Some(ConfigureEndpoint(slot)))
  {
  }

  // ---------------------------------------------------------------------------
  // Steps of the system
  // ---------------------------------------------------------------------------

  lemma {:induction false} IssuersAppend(a: seq<Event>, b: seq<Event>)
    ensures Issuers(a + b) == Issuers(a) + Issuers(b)
  {
    if a == [] {
      assert a + b == b;
    } else {
      var head := if a[0].Completion? then [a[0].issuer] else [];
      assert (a + b)[0] == a[0] && (a + b)[1..] == a[1..] + b;
      IssuersAppend(a[1..], b);
      assert Issuers(a) == head + Issuers(a[1..]);
      assert Issuers(a + b) == head + Issuers(a[1..] + b);
    }
  }

  lemma {:induction false} IssuersContains(events: seq<Event>, i: nat)
    requires i < |events| && events[i].Completion?
    ensures events[i].issuer in Issuers(events)
  {
    if i > 0 { IssuersContains(events[1..], i - 1); }
  }

  /** Taking the oldest event takes its issuer, if it has one, off the pending commands. */
  lemma PendingAfterPop(s: System, e: Driver)
    requires |s.events| > 0
    ensures multiset(Pending(s)) + multiset(e.issued) ==
            multiset(if s.events[0].Completion? then [s.events[0].issuer] else []) +
            multiset(Pending(System(e, s.events[1..]))) + multiset(s.d.issued)
  {
  }

  lemma HandleFrame(s: System, e: Driver, done: Option<Command>, sent: Option<Command>)
    requires Inv(s) && |s.events| > 0 && Good(s.d, e, done, sent)
    requires done == if s.events[0].Completion? then Some(s.events[0].issuer) else None
    requires forall i :: 1 <= i < |s.events| ==> EventOk(e, s.events[i])
    ensures Inv(System(e, s.events[1..]))
  {
    var t := System(e, s.events[1..]);
    forall c: Command ensures multiset(Pending(t))[c] == Count(Expected(e, c)) {
      PendingAfterPop(s, e);
      assert multiset(Pending(s))[c] == Count(Expected(s.d, c));
    }
  }

  /** The completion at the head of the queue was expected, and is no longer pending after. */
  lemma HeadIsExpected(s: System)
    requires Inv(s) && |s.events| > 0 && s.events[0].Completion?
    ensures Expected(s.d, s.events[0].issuer)
    ensures forall i :: 1 <= i < |s.events| && s.events[i].Completion? ==> s.events[i].issuer != s.events[0].issuer
  {
    var c := s.events[0].issuer;
    assert Pending(s) == [c] + (Issuers(s.events[1..]) + s.d.issued);
    assert multiset(Pending(s))[c] == 1 + multiset(Issuers(s.events[1..]) + s.d.issued)[c];
    forall i | 1 <= i < |s.events| && s.events[i].Completion? ensures s.events[i].issuer != c {
      IssuersContains(s.events[1..], i - 1);
      assert c !in Issuers(s.events[1..]) + s.d.issued;
      assert s.events[i].issuer in Issuers(s.events[1..]) + s.d.issued;
    }
  }

  lemma HandleEnableSlot(s: System, ports: seq<PortRegister>)
    requires Inv(s) && CanHandle(s, ports) && s.events[0].Completion? && s.events[0].issuer.EnableSlot?
    ensures Inv(Handle(s, ports)) && Forward(s.d, Handle(s, ports).d)
    ensures OnEvent(s.d, ports, s.events[0]).1 == Success
  {
    HeadIsExpected(s);
    var slot := s.events[0].slot;
    assert EventOk(s.d, s.events[0]);
    AddressDeviceGood(s.d, slot);
    HandleFrame(s, OnEvent(s.d, ports, s.events[0]).0, Some(EnableSlot), Some(AddressDevice(slot)));
  }

  lemma HandleAddressDevice(s: System, ports: seq<PortRegister>)
    requires Inv(s) && CanHandle(s, ports) && s.events[0].Completion? && s.events[0].issuer.AddressDevice?
    ensures Inv(Handle(s, ports)) && Forward(s.d, Handle(s, ports).d)
    ensures OnEvent(s.d, ports, s.events[0]).1 == Success
  {
    HeadIsExpected(s);
    var slot := s.events[0].slot;
    assert EventOk(s.d, s.events[0]);
    AddressedGood(s.d, ports, slot);
    HandleFrame(s, OnEvent(s.d, ports, s.events[0]).0, Some(AddressDevice(slot)), None);
  }

  lemma HandleConfigureEndpoint(s: System, ports: seq<PortRegister>)
    requires Inv(s) && CanHandle(s, ports) && s.events[0].Completion? && s.events[0].issuer.ConfigureEndpoint?
    ensures Inv(Handle(s, ports)) && Forward(s.d, Handle(s, ports).d)
    ensures OnEvent(s.d, ports, s.events[0]).1 == Success
  {
    HeadIsExpected(s);
    var slot := s.events[0].slot;
    assert EventOk(s.d, s.events[0]);
    CompleteConfigurationGood(s.d, slot);
    HandleFrame(s, OnEvent(s.d, ports, s.events[0]).0, Some(ConfigureEndpoint(slot)), None);
  }

  lemma SameGood(d: Driver)
    requires DriverInv(d)
    ensures Good(d, d, None, None)
  {
  }

  lemma HandlePortStatus(s: System, ports: seq<PortRegister>)
    requires Inv(s) && CanHandle(s, ports) && s.events[0].PortStatus?
    ensures Inv(Handle(s, ports)) && Forward(s.d, Handle(s, ports).d)
  {
    assert EventOk(s.d, s.events[0]);
    var p := s.events[0].port;
    var e := OnPortStatus(s.d, ports, p).0;
    if s.d.phase[p] == NotConnected {
      ResetPortGood(s.d, ports, p);
    } else if s.d.phase[p] == ResettingPort {
      EnableSlotGood(s.d, ports, p);
    } else {
      SameGood(s.d);
    }
    HandleFrame(s, e, None, if Good(s.d, e, None, None) then None else Some(EnableSlot));
  }

  lemma HandleTransfer(s: System, ports: seq<PortRegister>)
    requires Inv(s) && CanHandle(s, ports) && s.events[0].Transfer?
    ensures Inv(Handle(s, ports)) && Forward(s.d, Handle(s, ports).d)
  {
    var v := s.events[0];
    OnTransferGood(s.d, ports, v.tslot, v.ok, v.finishes);
    var e := OnTransfer(s.d, ports, v.tslot, v.ok, v.finishes).0;
    HandleFrame(s, e, None, if Good(s.d, e, None, None) then None else Some(ConfigureEndpoint(v.tslot)));
  }

  /** Handling the oldest event keeps the invariant, and a completion never ends in an error. */
  lemma HandleInv(s: System, ports: seq<PortRegister>)
    requires Inv(s) && CanHandle(s, ports)
    ensures Inv(Handle(s, ports)) && Forward(s.d, Handle(s, ports).d)
    ensures s.events[0].Completion? ==> OnEvent(s.d, ports, s.events[0]).1 == Success
  {
    match s.events[0]
    case PortStatus(_) => HandlePortStatus(s, ports);
    case Transfer(_, _, _) => HandleTransfer(s, ports);
    case Completion(EnableSlot, _) => HandleEnableSlot(s, ports);
    case Completion(AddressDevice(_), _) => HandleAddressDevice(s, ports);
    case Completion(ConfigureEndpoint(_), _) => HandleConfigureEndpoint(s, ports);
  }

  lemma PostKeepsPending(s: System, v: Event)
    requires !v.Completion?
    ensures Pending(Post(s, v)) == Pending(s)
  {
    IssuersAppend(s.events, [v]);
    assert Issuers([v]) == [];
  }

  lemma PostInv(s: System, v: Event)
    requires Inv(s) && !v.Completion? && EventOk(s.d, v)
    ensures Inv(Post(s, v))
  {
    PostKeepsPending(s, v);
  }

  /** Completing the oldest command only moves it from the ring to the events. */
  lemma CompleteKeepsPending(s: System, slot: nat)
    requires CanComplete(s, slot)
    ensures Pending(Complete(s, slot)) == Pending(s)
  {
    var c := s.d.issued[0];
    IssuersAppend(s.events, [Completion(c, slot)]);
    assert Issuers([Completion(c, slot)]) == [c];
    assert s.d.issued == [c] + s.d.issued[1..];
  }

  /** Address Device fills in the port number of the device context. */
  function CopyContext(d: Driver, slot: nat): Driver
    requires Shape(d) && slot <= MAX_SLOTS && d.devices[slot].Some?
  {
    var dev := d.devices[slot].value;
    d.(devices := d.devices[slot := Some(dev.(contextPort := dev.inputPort))])
  }

  lemma CopyContextGood(d: Driver, slot: nat)
    requires DriverInv(d) && slot <= MAX_SLOTS && d.devices[slot].Some?
    ensures Good(d, CopyContext(d, slot), None, None) && KeepsEvents(d, CopyContext(d, slot))
  {
    OwnersFrame(d, CopyContext(d, slot));
  }

  lemma DropIssuedGood(d: Driver, q: seq<Command>)
    requires DriverInv(d)
    ensures DriverInv(d.(issued := q)) && Forward(d, d.(issued := q)) && KeepsEvents(d, d.(issued := q))
    ensures forall c :: Expected(d.(issued := q), c) == Expected(d, c)
  {
    OwnersFrame(d, d.(issued := q));
  }

  lemma CompleteDriver(s: System, slot: nat)
    requires Inv(s) && CanComplete(s, slot) && Expected(s.d, s.d.issued[0])
    ensures var e := Complete(s, slot).d;
            DriverInv(e) && Forward(s.d, e) && KeepsEvents(s.d, e) &&
            (forall c :: Expected(e, c) == Expected(s.d, c)) &&
            EventOk(e, Completion(s.d.issued[0], slot))
  {
    var q := s.d.issued[1..];
    if s.d.issued[0].AddressDevice? {
      CopyContextGood(s.d, slot);
      DropIssuedGood(CopyContext(s.d, slot), q);
      assert Complete(s, slot).d == CopyContext(s.d, slot).(issued := q);
    } else {
      DropIssuedGood(s.d, q);
      assert Complete(s, slot).d == s.d.(issued := q);
    }
  }

  lemma CompleteInv(s: System, slot: nat)
    requires Inv(s) && CanComplete(s, slot)
    ensures Inv(Complete(s, slot)) && Forward(s.d, Complete(s, slot).d)
  {
    assert s.d.issued[0] in Pending(s);
    CompleteDriver(s, slot);
    CompleteKeepsPending(s, slot);
  }

  lemma ConfigureInv(s: System, p: nat, ports: seq<PortRegister>)
    requires Inv(s) && Registers(ports) && 1 <= p < PORTS
    ensures var t := s.(d := ConfigurePort(s.d, ports, p).0); Inv(t) && Forward(s.d, t.d)
  {
    if s.d.phase[p] == NotConnected {
      ResetPortGood(s.d, ports, p);
      var e := ResetPort(s.d, ports, p).0;
      assert forall i :: 0 <= i < |s.events| ==> EventOk(s.d, s.events[i]);
      assert Pending(s.(d := e)) == Pending(s);
    }
  }

  lemma NextInv(s: System, t: System)
    requires Inv(s) && Next(s, t)
    ensures Inv(t) && Forward(s.d, t.d)
  {
    var step :| NextStep(s, t, step);
    match step
    case CompleteStep(slot) => CompleteInv(s, slot);
    case PortStatusStep(p) => PostInv(s, PortStatus(p));
    case TransferStep(slot, ok, finishes) => PostInv(s, Transfer(slot, ok, finishes));
    case HandleStep(ports) => HandleInv(s, ports);
    case ConfigureStep(p, ports) => ConfigureInv(s, p, ports);
  }

  // ---------------------------------------------------------------------------
  // Whole runs
  // ---------------------------------------------------------------------------

  ghost predicate StepAt(run: seq<System>, i: nat)
    requires i + 1 < |run|
  {
    Next(run[i], run[i + 1])
  }

  ghost predicate IsRun(run: seq<System>) {
    |run| > 0 && run[0] == Init() && forall i :: 0 <= i < |run| - 1 ==> StepAt(run, i)
  }

  /** In every reachable state between events, `addressing` is 0 and no port is resetting,
      enabling a slot or being addressed, or it names the only such port. */
  lemma {:induction false} RunInv(run: seq<System>, i: nat)
    requires IsRun(run) && i < |run|
    ensures Inv(run[i])
    ensures forall p :: 0 <= p < PORTS && Busy(run[i].d.phase[p]) ==> p == run[i].d.addressing
    ensures run[i].d.addressing != 0 ==> Busy(run[i].d.phase[run[i].d.addressing])
  {
    if i == 0 {
      InitInv();
    } else {
      RunInv(run, i - 1);
      assert StepAt(run, i - 1);
      NextInv(run[i - 1], run[i]);
    }
  }

  lemma RunStep(run: seq<System>, i: nat)
    requires IsRun(run) && i + 1 < |run|
    ensures Shape(run[i].d) && Shape(run[i + 1].d) && Forward(run[i].d, run[i + 1].d)
  {
    RunInv(run, i);
    assert StepAt(run, i);
    NextInv(run[i], run[i + 1]);
  }

  /** No port's phase rank ever decreases. */
  lemma {:induction false} RunForward(run: seq<System>, i: nat, j: nat, p: nat)
    requires IsRun(run) && i <= j < |run| && p < PORTS
    ensures |run[i].d.phase| == |run[j].d.phase| == PORTS
    ensures Rank(run[i].d.phase[p]) <= Rank(run[j].d.phase[p])
    decreases j
  {
    if i < j {
      RunForward(run, i, j - 1, p);
      RunStep(run, j - 1);
    } else {
      RunInv(run, i);
    }
  }

  /** How often port `p` changed phase in the first `j` steps. */
  ghost function Changes(run: seq<System>, p: nat, j: nat): nat
    requires j < |run|
  {
    if j == 0 then 0
    else Changes(run, p, j - 1) +
         (if |run[j].d.phase| == |run[j - 1].d.phase| == PORTS && p < PORTS && run[j].d.phase[p] != run[j - 1].d.phase[p] then 1 else 0)
  }

  lemma RankInjective(f: Phase, g: Phase)
    requires Rank(f) == Rank(g)
    ensures f == g
  {
  }

  lemma {:induction false} ChangesBelowRank(run: seq<System>, p: nat, j: nat)
    requires IsRun(run) && j < |run| && p < PORTS
    ensures Shape(run[j].d) && Changes(run, p, j) <= Rank(run[j].d.phase[p])
  {
    RunInv(run, j);
    if j > 0 {
      ChangesBelowRank(run, p, j - 1);
      RunStep(run, j - 1);
      if run[j].d.phase[p] != run[j - 1].d.phase[p] {
        assert Rank(run[j].d.phase[p]) != Rank(run[j - 1].d.phase[p]) by {
          if Rank(run[j].d.phase[p]) == Rank(run[j - 1].d.phase[p]) {
            RankInjective(run[j].d.phase[p], run[j - 1].d.phase[p]);
          }
        }
      }
    }
  }

  /** Enumeration makes no endless detours: a port changes phase at most seven times. */
  lemma AtMostSevenChanges(run: seq<System>, p: nat)
    requires IsRun(run) && p < PORTS
    ensures Changes(run, p, |run| - 1) <= 7
  {
    ChangesBelowRank(run, p, |run| - 1);
  }

  // ---------------------------------------------------------------------------
  // Outstanding commands are ports
  // ---------------------------------------------------------------------------

  function PortOf(d: Driver, c: Command): nat
    requires Shape(d) && Expected(d, c)
  {
    match c
    case EnableSlot => d.addressing
    case AddressDevice(s) => d.devices[s].value.inputPort
    case ConfigureEndpoint(s) => d.devices[s].value.inputPort
  }

  function PhaseOf(c: Command): Phase {
    match c
    case EnableSlot => EnablingSlot
    case AddressDevice(_) => AddressingDevice
    case ConfigureEndpoint(_) => ConfiguringEndpoints
  }

  lemma PendingExpected(s: System, c: Command)
    requires Inv(s)
    ensures c in Pending(s) <==> Expected(s.d, c)
  {
    assert c in Pending(s) <==> multiset(Pending(s))[c] > 0;
  }

  /** Outstanding commands and ports in EnablingSlot, AddressingDevice or ConfiguringEndpoints
      correspond one to one: every command is outstanding once and belongs to one such port,
      different commands to different ports, and every such port has its command. */
  lemma CommandsArePorts(s: System)
    requires Inv(s)
    ensures forall i, j :: 0 <= i < j < |Pending(s)| ==> Pending(s)[i] != Pending(s)[j]
    ensures forall c :: c in Pending(s) ==>
              Expected(s.d, c) && 1 <= PortOf(s.d, c) < PORTS && s.d.phase[PortOf(s.d, c)] == PhaseOf(c)
    ensures forall c, e :: c in Pending(s) && e in Pending(s) && PortOf(s.d, c) == PortOf(s.d, e) ==> c == e
    ensures forall p :: 0 <= p < PORTS && s.d.phase[p] in {EnablingSlot, AddressingDevice, ConfiguringEndpoints} ==>
              exists c :: c in Pending(s) && PortOf(s.d, c) == p
  {
    var q := Pending(s);
    PendingDistinct(s);
    forall c ensures c in q <==> Expected(s.d, c) { PendingExpected(s, c); }
    forall c, e | c in q && e in q && PortOf(s.d, c) == PortOf(s.d, e) ensures c == e {
      SamePortSameCommand(s.d, c, e);
    }
    forall p | 0 <= p < PORTS && s.d.phase[p] in {EnablingSlot, AddressingDevice, ConfiguringEndpoints}
      ensures exists c :: c in q && PortOf(s.d, c) == p
    {
      var c := CommandOf(s.d, p);
      assert c in q && PortOf(s.d, c) == p;
    }
  }

  /** The command a port in one of the three phases has outstanding. */
  lemma CommandOf(d: Driver, p: nat) returns (c: Command)
    requires DriverInv(d) && p < PORTS && d.phase[p] in {EnablingSlot, AddressingDevice, ConfiguringEndpoints}
    ensures Expected(d, c) && PortOf(d, c) == p
  {
    if d.phase[p] == EnablingSlot {
      c := EnableSlot;
    } else {
      var slot :| Owns(d, slot, p);
      c := if d.phase[p] == AddressingDevice then AddressDevice(slot) else ConfigureEndpoint(slot);
    }
  }

  lemma PendingDistinct(s: System)
    requires Inv(s)
    ensures forall i, j :: 0 <= i < j < |Pending(s)| ==> Pending(s)[i] != Pending(s)[j]
  {
    var q := Pending(s);
    forall i, j | 0 <= i < j < |q| ensures q[i] != q[j] {
      DuplicateCounts(q, i, j);
    }
  }

  lemma DuplicateCounts(q: seq<Command>, i: nat, j: nat)
    requires i < j < |q| && multiset(q)[q[i]] <= 1
    ensures q[i] != q[j]
  {
    assert q == q[..j] + q[j..];
    assert q[i] in q[..j] && q[j] in q[j..];
    assert multiset(q) == multiset(q[..j]) + multiset(q[j..]);
  }

  lemma SamePortSameCommand(d: Driver, c: Command, e: Command)
    requires DriverInv(d) && Expected(d, c) && Expected(d, e) && PortOf(d, c) == PortOf(d, e)
    ensures c == e
  {
    assert !c.EnableSlot? ==> Owns(d, c.slot, PortOf(d, c));
    assert !e.EnableSlot? ==> Owns(d, e.slot, PortOf(d, e));
  }

  /** The slot a command is about, 0 for Enable Slot. */
  function SlotOf(c: Command): nat {
    match c
    case EnableSlot => 0
    case AddressDevice(s) => s
    case ConfigureEndpoint(s) => s
  }

  lemma {:induction false} DistinctBelow(q: seq<Command>, n: nat)
    requires forall i :: 0 <= i < |q| ==> SlotOf(q[i]) < n
    requires forall i, j :: 0 <= i < j < |q| ==> SlotOf(q[i]) != SlotOf(q[j])
    ensures |q| <= n
    decreases n
  {
    if n == 0 {
      assert |q| > 0 ==> SlotOf(q[0]) < 0;
    } else if k :| 0 <= k < |q| && SlotOf(q[k]) == n - 1 {
      var rest := q[..k] + q[k + 1..];
      forall i | 0 <= i < |rest| ensures SlotOf(rest[i]) < n - 1 {
        assert rest[i] == q[if i < k then i else i + 1];
      }
      forall i, j | 0 <= i < j < |rest| ensures SlotOf(rest[i]) != SlotOf(rest[j]) {
        assert rest[i] == q[if i < k then i else i + 1] && rest[j] == q[if j < k then j else j + 1];
      }
      DistinctBelow(rest, n - 1);
    } else {
      DistinctBelow(q, n - 1);
    }
  }

  /** Eight slots allow at most nine outstanding commands. */
  lemma AtMostNinePending(s: System)
    requires Inv(s)
    ensures |Pending(s)| <= MAX_SLOTS + 1
  {
    var q := Pending(s);
    PendingDistinct(s);
    forall i | 0 <= i < |q| ensures Expected(s.d, q[i]) && SlotOf(q[i]) < MAX_SLOTS + 1 {
      PendingExpected(s, q[i]);
    }
    forall i, j | 0 <= i < j < |q| ensures SlotOf(q[i]) != SlotOf(q[j]) {
      assert q[i] != q[j] && Expected(s.d, q[i]) && Expected(s.d, q[j]);
    }
    DistinctBelow(q, MAX_SLOTS + 1);
  }

  // ---------------------------------------------------------------------------
  // Nobody waits in vain while the waiting ports stay connected
  // ---------------------------------------------------------------------------

  ghost predicate WaitersServed(d: Driver) {
    forall p :: 0 <= p < |d.phase| && d.phase[p] == WaitingAddressed ==> d.addressing != 0
  }

  /** A step that finds every waiting port still connected. */
  ghost predicate ConnectedStep(s: System, step: Step) {
    step.HandleStep? ==>
      forall p :: 0 <= p < |s.d.phase| && p < |step.ports| && s.d.phase[p] == WaitingAddressed ==> step.ports[p].connected
  }

  lemma ServedStatus(d: Driver, ports: seq<PortRegister>, p: nat)
    requires DriverInv(d) && WaitersServed(d) && Registers(ports) && 1 <= p < PORTS
    ensures WaitersServed(OnPortStatus(d, ports, p).0)
  {
  }

  lemma ServedTransfer(d: Driver, ports: seq<PortRegister>, slot: nat, ok: bool, finishes: bool)
    requires DriverInv(d) && WaitersServed(d) && Registers(ports)
    requires FindBySlot(d, slot).Some? ==> FindBySlot(d, slot).value.contextPort < PORTS
    ensures WaitersServed(OnTransfer(d, ports, slot, ok, finishes).0)
  {
  }

  lemma ServedCompletion(s: System, ports: seq<PortRegister>)
    requires Inv(s) && CanHandle(s, ports) && s.events[0].Completion? && WaitersServed(s.d)
    requires forall p :: 0 <= p < PORTS && s.d.phase[p] == WaitingAddressed ==> ports[p].connected
    ensures WaitersServed(OnCompletion(s.d, ports, s.events[0].issuer, s.events[0].slot).0)
  {
    HeadIsExpected(s);
    assert EventOk(s.d, s.events[0]);
    if s.events[0].issuer.AddressDevice? {
      HandOverExact(s.d, ports, s.events[0].slot);
    }
  }

  lemma ServedStep(s: System, t: System, step: Step)
    requires Inv(s) && NextStep(s, t, step) && ConnectedStep(s, step) && WaitersServed(s.d)
    ensures WaitersServed(t.d)
  {
    if step.HandleStep? {
      assert EventOk(s.d, s.events[0]);
      match s.events[0]
      case PortStatus(p) => ServedStatus(s.d, step.ports, p);
      case Transfer(slot, ok, finishes) => ServedTransfer(s.d, step.ports, slot, ok, finishes);
      case Completion(_, _) => ServedCompletion(s, step.ports);
    }
  }

  ghost predicate ConnectedStepAt(run: seq<System>, steps: seq<Step>, i: nat)
    requires i < |steps| < |run|
  {
    NextStep(run[i], run[i + 1], steps[i]) && ConnectedStep(run[i], steps[i])
  }

  ghost predicate IsConnectedRun(run: seq<System>, steps: seq<Step>) {
    |run| == |steps| + 1 && run[0] == Init() && forall i :: 0 <= i < |steps| ==> ConnectedStepAt(run, steps, i)
  }

  /** Over every run in which waiting ports stay connected, a waiting port implies that some
      port is being addressed, so a hand-over is still to come. */
  lemma {:induction false} RunServed(run: seq<System>, steps: seq<Step>, i: nat)
    requires IsConnectedRun(run, steps) && i < |run|
    ensures Inv(run[i]) && WaitersServed(run[i].d)
  {
    if i == 0 {
      InitInv();
    } else {
      RunServed(run, steps, i - 1);
      assert ConnectedStepAt(run, steps, i - 1);
      assert Next(run[i - 1], run[i]);
      NextInv(run[i - 1], run[i]);
      ServedStep(run[i - 1], run[i], steps[i - 1]);
    }
  }
}
