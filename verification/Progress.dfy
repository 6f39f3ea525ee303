/** Enumeration gets on: the event a port waits for moves it exactly one phase on, and when
    nothing is waited for any more every port is done. */
module Progress {
  import opened Enumeration

  /** The event that a port in its present phase waits for, from hardware that does its part. */
  predicate Awaits(d: Driver, ports: seq<PortRegister>, p: nat, e: Event)
    requires Shape(d) && Registers(ports) && p < PORTS
  {
    match d.phase[p]
    case NotConnected => e == PortStatus(p) && ports[p].connected
    case WaitingAddressed => false
    case ResettingPort => e == PortStatus(p) && ports[p].enabled && ports[p].resetChanged
    case InitializingDevice =>
      e.Transfer? && e.ok && e.finishes && Owns(d, e.tslot, p) && 1 <= ports[p].speed <= SUPER_SPEED_PLUS
    case Configured => false
    case _ => e.Completion? && Expected(d, e.issuer) && PortOf(d, e.issuer) == p
  }

  /** One phase on; a port found connected waits when another is being addressed. */
  function Successor(d: Driver, p: nat): Phase
    requires Shape(d) && p < PORTS
  {
    match d.phase[p]
    case NotConnected => if d.addressing != 0 then WaitingAddressed else ResettingPort
    case WaitingAddressed => ResettingPort
    case ResettingPort => EnablingSlot
    case EnablingSlot => AddressingDevice
    case AddressingDevice => InitializingDevice
    case InitializingDevice => ConfiguringEndpoints
    case ConfiguringEndpoints => Configured
    case Configured => Configured
  }

  lemma SuccessorRanks(d: Driver, p: nat)
    requires Shape(d) && p < PORTS && d.phase[p] != Configured
    ensures Rank(Successor(d, p)) > Rank(d.phase[p])
  {
  }

  /** The commands that the move takes. */
  function Sent(d: Driver, p: nat, e: Event): seq<Command>
    requires Shape(d) && p < PORTS
  {
    match d.phase[p]
    case ResettingPort => [EnableSlot]
    case EnablingSlot => if e.Completion? then [AddressDevice(e.slot)] else []
    case InitializingDevice => if e.Transfer? then [ConfigureEndpoint(e.tslot)] else []
    case _ => []
  }

  /** The port moves on, its command is sent, and other ports stay as they are. */
  ghost predicate MovesOn(d: Driver, d': Driver, p: nat, sent: seq<Command>)
    requires Shape(d) && p < PORTS
  {
    && Shape(d') && d'.phase[p] == Successor(d, p) && d'.issued == d.issued + sent
    && forall q :: 0 <= q < PORTS && q != p ==> d'.phase[q] == d.phase[q]
  }

  /** The same, but for a hand-over to the lowest waiting port when an address is assigned. */
  ghost predicate Advances(d: Driver, d': Driver, p: nat, sent: seq<Command>)
    requires Shape(d) && p < PORTS
  {
    && Shape(d') && d'.phase[p] == Successor(d, p) && d'.issued == d.issued + sent
    && forall q :: 0 <= q < PORTS && q != p ==>
         d'.phase[q] == d.phase[q]
         || (d.phase[p] == AddressingDevice && q == FirstWaiting(d.phase, 0) && d'.phase[q] == ResettingPort)
  }

  lemma StatusAdvances(d: Driver, ports: seq<PortRegister>, p: nat)
    requires DriverInv(d) && Registers(ports) && 1 <= p < PORTS && Awaits(d, ports, p, PortStatus(p))
    ensures var (e, err) := OnPortStatus(d, ports, p);
            && err == Success && MovesOn(d, e, p, Sent(d, p, PortStatus(p)))
            && (d.phase[p] == NotConnected ==> e.addressing == if d.addressing != 0 then d.addressing else p)
  {
  }

  /** The new device belongs to the port that was enabling its slot. */
  lemma EnableSlotAdvances(d: Driver, ports: seq<PortRegister>, slot: nat)
    requires DriverInv(d) && Registers(ports) && Expected(d, EnableSlot) && 1 <= slot <= MAX_SLOTS && d.devices[slot].None?
    ensures var (e, err) := OnCompletion(d, ports, EnableSlot, slot);
            && err == Success && MovesOn(d, e, d.addressing, [AddressDevice(slot)])
            && Owns(e, slot, d.addressing) && !e.devices[slot].value.initialized
  {
  }

  /** The addressed port starts its initialization; the lowest waiting port, if connected, starts its reset. */
  lemma AddressAdvances(d: Driver, ports: seq<PortRegister>, slot: nat)
    requires DriverInv(d) && Registers(ports) && Expected(d, AddressDevice(slot))
    requires d.devices[slot].value.contextPort == d.devices[slot].value.inputPort < PORTS
    ensures var (e, err) := OnCompletion(d, ports, AddressDevice(slot), slot);
            var p, i := d.addressing, FirstWaiting(d.phase, 0);
            && err == Success
            && Advances(d, e, p, [])
            && (i < PORTS ==> i != p && e.phase[i] == if ports[i].connected then ResettingPort else WaitingAddressed)
            && e.addressing == if i < PORTS && ports[i].connected then i else 0
  {
    AddressedGood(d, ports, slot);
    ReleasedGood(d, slot);
    HandOverCommutes(d, ports, slot);
  }

  lemma ConfigureAdvances(d: Driver, ports: seq<PortRegister>, slot: nat)
    requires DriverInv(d) && Registers(ports) && Expected(d, ConfigureEndpoint(slot))
    requires d.devices[slot].value.contextPort < PORTS
    ensures var (e, err) := OnCompletion(d, ports, ConfigureEndpoint(slot), slot);
            err == Success && MovesOn(d, e, d.devices[slot].value.inputPort, [])
  {
  }

  lemma TransferAdvances(d: Driver, ports: seq<PortRegister>, p: nat, slot: nat)
    requires DriverInv(d) && Registers(ports) && p < PORTS && Awaits(d, ports, p, Transfer(slot, true, true))
    ensures d.devices[slot].value.contextPort == p
    ensures var (e, err) := OnTransfer(d, ports, slot, true, true);
            err == Success && MovesOn(d, e, p, [ConfigureEndpoint(slot)])
  {
  }

  lemma CompletionAdvances(d: Driver, ports: seq<PortRegister>, p: nat, c: Command, slot: nat)
    requires DriverInv(d) && Registers(ports) && EventOk(d, Completion(c, slot)) && 1 <= p < PORTS
    requires Awaits(d, ports, p, Completion(c, slot))
    requires FindBySlot(d, slot).Some? ==> FindBySlot(d, slot).value.contextPort < PORTS
    ensures OnCompletion(d, ports, c, slot).1 == Success
    ensures Advances(d, OnCompletion(d, ports, c, slot).0, p, Sent(d, p, Completion(c, slot)))
  {
    match c
    case EnableSlot => EnableSlotAdvances(d, ports, slot);
    case AddressDevice(_) => AddressAdvances(d, ports, slot);
    case ConfigureEndpoint(_) => ConfigureAdvances(d, ports, slot);
  }

  /**
   * Whatever its phase, the event that a port waits for is handled without error and moves it
   * one phase on; a hand-over besides moves the lowest waiting port.
   */
  lemma EventAdvances(d: Driver, ports: seq<PortRegister>, p: nat, e: Event)
    requires DriverInv(d) && EventOk(d, e) && CanHandle(System(d, [e]), ports)
    requires 1 <= p < PORTS && Awaits(d, ports, p, e)
    ensures OnEvent(d, ports, e).1 == Success && Advances(d, OnEvent(d, ports, e).0, p, Sent(d, p, e))
  {
    match e
    case PortStatus(_) => StatusAdvances(d, ports, p);
    case Transfer(slot, _, _) => TransferAdvances(d, ports, p, slot);
    case Completion(c, slot) => CompletionAdvances(d, ports, p, c, slot);
  }

  /**
   * Nothing is stranded: in a state where waiting ports are served, with no command or
   * completion outstanding, no reset and no descriptor exchange under way, every port has
   * either never been connected or is configured.
   */
  lemma QuietMeansDone(s: System, p: nat)
    requires Inv(s) && WaitersServed(s.d) && Pending(s) == [] && p < PORTS
    requires forall q :: 0 <= q < PORTS ==> s.d.phase[q] != ResettingPort && s.d.phase[q] != InitializingDevice
    ensures s.d.phase[p] == NotConnected || s.d.phase[p] == Configured
  {
    CommandsArePorts(s);
  }
}
