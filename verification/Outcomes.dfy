/** What each handler does from any state of the driver, reachable or not, case by case, and
    what follows for runs: no device is configured before its descriptors are read. */
module Outcomes {
  import opened Enumeration
  import opened Wrappers

  /** Only this port may have changed. */
  ghost predicate OthersKept(d: Driver, e: Driver, p: nat)
    requires Shape(d)
  {
    |e.phase| == PORTS && forall q :: 0 <= q < PORTS && q != p ==> e.phase[q] == d.phase[q]
  }

  ghost predicate OtherDevicesKept(d: Driver, e: Driver, slot: nat)
    requires Shape(d)
  {
    |e.devices| == MAX_SLOTS + 1 && forall t :: 0 <= t <= MAX_SLOTS && t != slot ==> e.devices[t] == d.devices[t]
  }

  /** The device object of a slot, as the lookup by slot number finds it. */
  predicate HasDevice(d: Driver, slot: nat)
    requires Shape(d)
  {
    slot <= 8 && d.devices[slot].Some?
  }

  /** Of a connected port the reset starts, waits or is out of turn; an unplugged one is left alone. */
  lemma ResetPortExactly(d: Driver, ports: seq<PortRegister>, p: nat)
    requires Shape(d) && Registers(ports) && p < PORTS
    ensures var (e, err) := ResetPort(d, ports, p);
            var legal := d.phase[p] == NotConnected || d.phase[p] == WaitingAddressed;
            && OthersKept(d, e, p) && e.devices == d.devices && e.issued == d.issued
            && (err == Success || (err == InvalidPhase && e == d))
            && (err == InvalidPhase <==> ports[p].connected && d.addressing == 0 && !legal)
            && (ports[p].connected && d.addressing == 0 && legal ==> e == d.(phase := d.phase[p := ResettingPort], addressing := p))
            && (ports[p].connected && d.addressing != 0 ==> e == d.(phase := d.phase[p := WaitingAddressed]))
            && (!ports[p].connected ==> e == d)
  {
  }

  /** The command is sent if and only if the port is enabled and reports the end of its reset. */
  lemma EnableSlotExactly(d: Driver, ports: seq<PortRegister>, p: nat)
    requires Shape(d) && Registers(ports) && p < PORTS
    ensures var (e, err) := EnableSlotOn(d, ports, p);
            && err == Success && OthersKept(d, e, p) && e.devices == d.devices && e.addressing == d.addressing
            && (e.issued == d.issued + [EnableSlot] <==> ports[p].enabled && ports[p].resetChanged)
            && (e.issued != d.issued ==> e.phase[p] == EnablingSlot)
            && (!(ports[p].enabled && ports[p].resetChanged) ==> e == d)
  {
    assert |d.issued + [EnableSlot]| == |d.issued| + 1;
  }

  /** A status change is an error if and only if the port awaits none. */
  lemma PortStatusExactly(d: Driver, ports: seq<PortRegister>, p: nat)
    requires Shape(d) && Registers(ports) && p < PORTS
    ensures var (e, err) := OnPortStatus(d, ports, p);
            && OthersKept(d, e, p) && e.devices == d.devices
            && (err == InvalidPhase <==> d.phase[p] != NotConnected && d.phase[p] != ResettingPort)
            && (err == Success || e == d)
            && (e.issued == d.issued + [EnableSlot] <==>
                  d.phase[p] == ResettingPort && ports[p].enabled && ports[p].resetChanged)
            && (d.phase[p] == NotConnected ==>
                  e.phase[p] == if !ports[p].connected then NotConnected
                                else if d.addressing != 0 then WaitingAddressed else ResettingPort)
  {
    assert |d.issued + [EnableSlot]| == |d.issued| + 1;
  }

  /** The device sends Configure Endpoint: its descriptors are read now, and its port expects it. */
  predicate Sends(d: Driver, ports: seq<PortRegister>, slot: nat, ok: bool, finishes: bool)
    requires Shape(d) && Registers(ports) && HasDevice(d, slot) && d.devices[slot].value.contextPort < PORTS
  {
    var dev := d.devices[slot].value;
    ok && (dev.initialized || finishes) && d.phase[dev.contextPort] == InitializingDevice
    && 1 <= ports[dev.contextPort].speed <= 5
  }

  /**
   * A transfer event sends Configure Endpoint if and only if the device says that the transfer
   * was good and that all its descriptors are read, its port is the one being initialized and
   * the port's speed is a known one. In all other cases no phase changes and nothing is sent.
   */
  lemma TransferExactly(d: Driver, ports: seq<PortRegister>, slot: nat, ok: bool, finishes: bool)
    requires Shape(d) && Registers(ports) && HasDevice(d, slot) && d.devices[slot].value.contextPort < PORTS
    ensures var (e, err) := OnTransfer(d, ports, slot, ok, finishes);
            var dev, sends := d.devices[slot].value, Sends(d, ports, slot, ok, finishes);
            && (e.issued == d.issued + [ConfigureEndpoint(slot)] <==> sends)
            && (e.issued == d.issued <==> !sends)
            && e.phase == (if sends then d.phase[dev.contextPort := ConfiguringEndpoints] else d.phase)
            && e.addressing == d.addressing && OtherDevicesKept(d, e, slot) && HasDevice(e, slot)
            && (e.devices[slot].value.initialized <==> dev.initialized || (ok && finishes))
            && e.devices[slot].value.contextPort == dev.contextPort
            && e.devices[slot].value.inputPort == (if sends || err == UnknownSpeed then dev.contextPort else dev.inputPort)
            && (err == TransferFailed <==> !ok) && (err == TransferFailed ==> e == d)
            && (err == Success || err == TransferFailed || err == UnknownSpeed) && (sends ==> err == Success)
            && (err == UnknownSpeed <==>
                  ok && (dev.initialized || finishes) && d.phase[dev.contextPort] == InitializingDevice && !sends)
  {
    assert |d.issued + [ConfigureEndpoint(slot)]| == |d.issued| + 1;
  }

  lemma TransferUnknown(d: Driver, ports: seq<PortRegister>, slot: nat, ok: bool, finishes: bool)
    requires Shape(d) && Registers(ports) && !HasDevice(d, slot)
    ensures OnTransfer(d, ports, slot, ok, finishes) == (d, InvalidSlotId)
  {
  }

  /** A slot enabled: out of turn it is an error; otherwise its device is addressed, on the addressing port. */
  lemma EnabledExactly(d: Driver, ports: seq<PortRegister>, slot: nat)
    requires Shape(d) && Registers(ports) && (HasDevice(d, slot) ==> d.devices[slot].value.contextPort < PORTS)
    ensures var (e, err) := OnCompletion(d, ports, EnableSlot, slot);
            var expected := d.phase[d.addressing] == EnablingSlot;
            && (err == InvalidPhase <==> !expected) && (err == InvalidSlotId <==> expected && slot > 8)
            && (err == Success <==> expected && slot <= 8) && (err != Success ==> e == d)
            && (err == Success ==>
                  && e.issued == d.issued + [AddressDevice(slot)] && e.addressing == d.addressing
                  && e.phase == d.phase[d.addressing := AddressingDevice]
                  && OtherDevicesKept(d, e, slot) && HasDevice(e, slot)
                  && e.devices[slot].value == (if HasDevice(d, slot) then d.devices[slot].value.(inputPort := d.addressing)
                                               else Device(d.addressing, 0, false)))
  {
  }

  /**
   * An address assigned: an error unless the device's port is the one being addressed.
   * Otherwise that port starts to be initialized, with nothing read yet, and the lowest waiting
   * port is reset if it is connected.
   */
  lemma AddressedExactly(d: Driver, ports: seq<PortRegister>, s: nat, slot: nat)
    requires Shape(d) && Registers(ports) && (HasDevice(d, slot) ==> d.devices[slot].value.contextPort < PORTS)
    ensures var (e, err) := OnCompletion(d, ports, AddressDevice(s), slot);
            var found := HasDevice(d, slot);
            var p := if found then d.devices[slot].value.contextPort else 0;
            var expected := found && p == d.addressing && d.phase[p] == AddressingDevice;
            var i := FirstWaiting(d.phase, 0);
            && (err == InvalidSlotId <==> !found) && (err == InvalidPhase <==> found && !expected)
            && (err == Success <==> expected) && (err != Success ==> e == d)
            && (err == Success ==>
                  && e.issued == d.issued && |e.phase| == PORTS && e.phase[p] == InitializingDevice
                  && OtherDevicesKept(d, e, slot)
                  && e.devices[slot] == Some(d.devices[slot].value.(initialized := false))
                  && e.addressing == (if i < PORTS && ports[i].connected then i else 0)
                  && (forall q :: 0 <= q < PORTS && q != p ==>
                        e.phase[q] == if q == i && ports[i].connected then ResettingPort else d.phase[q]))
  {
  }

  /** Endpoints configured: an error unless the device's port waits for it; otherwise that port is done. */
  lemma ConfiguredExactly(d: Driver, ports: seq<PortRegister>, s: nat, slot: nat)
    requires Shape(d) && Registers(ports) && (HasDevice(d, slot) ==> d.devices[slot].value.contextPort < PORTS)
    ensures var (e, err) := OnCompletion(d, ports, ConfigureEndpoint(s), slot);
            var found := HasDevice(d, slot);
            var p := if found then d.devices[slot].value.contextPort else 0;
            && (err == InvalidSlotId <==> !found)
            && (err == InvalidPhase <==> found && d.phase[p] != ConfiguringEndpoints)
            && (err == Success <==> found && d.phase[p] == ConfiguringEndpoints)
            && e == if err == Success then d.(phase := d.phase[p := Configured]) else d
  {
  }

  // ---------------------------------------------------------------------------
  // Descriptors are read first
  // ---------------------------------------------------------------------------

  /** The port of the slot's device is being configured, or is configured. */
  predicate PastInitialization(d: Driver, slot: nat)
    requires Shape(d)
  {
    && 1 <= slot && HasDevice(d, slot) && d.devices[slot].value.inputPort < PORTS
    && Rank(d.phase[d.devices[slot].value.inputPort]) >= 6
  }

  /** Such a device has read its descriptors. */
  ghost predicate ReadFirst(d: Driver)
    requires Shape(d)
  {
    forall slot: nat :: PastInitialization(d, slot) ==> d.devices[slot].value.initialized
  }

  /** The same devices, and no port is past its initialization that was not before. */
  lemma ReadFirstFrame(d: Driver, e: Driver)
    requires Shape(d) && Shape(e) && ReadFirst(d) && e.devices == d.devices
    requires forall q :: 0 <= q < PORTS && Rank(e.phase[q]) >= 6 ==> Rank(d.phase[q]) >= 6
    ensures ReadFirst(e)
  {
  }

  lemma StatusReadFirst(d: Driver, ports: seq<PortRegister>, p: nat)
    requires Shape(d) && Registers(ports) && p < PORTS && ReadFirst(d)
    ensures Shape(OnPortStatus(d, ports, p).0) && ReadFirst(OnPortStatus(d, ports, p).0)
    ensures Rank(d.phase[p]) <= 1 ==> Shape(ResetPort(d, ports, p).0) && ReadFirst(ResetPort(d, ports, p).0)
  {
    ReadFirstFrame(d, OnPortStatus(d, ports, p).0);
    if Rank(d.phase[p]) <= 1 { ReadFirstFrame(d, ResetPort(d, ports, p).0); }
  }

  lemma TransferReadFirst(d: Driver, ports: seq<PortRegister>, slot: nat, ok: bool, finishes: bool)
    requires DriverInv(d) && Registers(ports) && ReadFirst(d)
    requires HasDevice(d, slot) ==> d.devices[slot].value.contextPort < PORTS
    ensures Shape(OnTransfer(d, ports, slot, ok, finishes).0) && ReadFirst(OnTransfer(d, ports, slot, ok, finishes).0)
  {
    if HasDevice(d, slot) {
      TransferExactly(d, ports, slot, ok, finishes);
      OnlyOwner(d, slot);
    } else {
      TransferUnknown(d, ports, slot, ok, finishes);
    }
  }

  lemma AddressedReadFirst(d: Driver, ports: seq<PortRegister>, s: nat, slot: nat)
    requires DriverInv(d) && Registers(ports) && ReadFirst(d)
    requires HasDevice(d, slot) ==> d.devices[slot].value.contextPort < PORTS
    ensures var e := OnCompletion(d, ports, AddressDevice(s), slot).0; Shape(e) && ReadFirst(e)
  {
    AddressedExactly(d, ports, s, slot);
  }

  lemma CompletionReadFirst(d: Driver, ports: seq<PortRegister>, c: Command, slot: nat)
    requires DriverInv(d) && Registers(ports) && ReadFirst(d) && EventOk(d, Completion(c, slot))
    requires HasDevice(d, slot) ==> d.devices[slot].value.contextPort < PORTS
    ensures Shape(OnCompletion(d, ports, c, slot).0) && ReadFirst(OnCompletion(d, ports, c, slot).0)
  {
    match c
    case EnableSlot => EnabledExactly(d, ports, slot);
    case AddressDevice(s) => AddressedReadFirst(d, ports, s, slot);
    case ConfigureEndpoint(s) => ConfiguredExactly(d, ports, s, slot);
  }

  lemma StepReadFirst(s: System, t: System, step: Step)
    requires Inv(s) && NextStep(s, t, step) && ReadFirst(s.d)
    ensures Shape(t.d) && ReadFirst(t.d)
  {
    match step
    case CompleteStep(_) =>
    case PortStatusStep(_) =>
    case TransferStep(_, _, _) =>
    case ConfigureStep(p, ports) => if s.d.phase[p] == NotConnected { StatusReadFirst(s.d, ports, p); }
    case HandleStep(ports) =>
      match s.events[0] {
        case PortStatus(p) => StatusReadFirst(s.d, ports, p);
        case Transfer(slot, ok, finishes) => TransferReadFirst(s.d, ports, slot, ok, finishes);
        case Completion(c, slot) => CompletionReadFirst(s.d, ports, c, slot);
      }
  }

  ghost predicate ReadInv(s: System) {
    Inv(s) && ReadFirst(s.d)
  }

  lemma NextReadInv(s: System, t: System)
    requires ReadInv(s) && Next(s, t)
    ensures ReadInv(t)
  {
    NextInv(s, t);
    var step :| NextStep(s, t, step);
    StepReadFirst(s, t, step);
  }

  lemma RunReadInv(run: seq<System>, i: nat)
    requires IsRun(run) && i < |run|
    ensures ReadInv(run[i])
  {
    InitInv();
    forall s: System, t: System | ReadInv(s) && Next(s, t) ensures ReadInv(t) { NextReadInv(s, t); }
    forall k | 0 <= k < |run| - 1 ensures Next(run[k], run[k + 1]) { assert StepAt(run, k); }
    RunInduction(run, (s: System, t: System) => Next(s, t), (s: System) => ReadInv(s), i);
  }

  /** Over every run: a Configure Endpoint command is outstanding only for a device that has
      read its descriptors, and only such a device's port gets configured. */
  lemma RunReadsFirst(run: seq<System>, i: nat, slot: nat)
    requires IsRun(run) && i < |run| && Shape(run[i].d)
    ensures ConfigureEndpoint(slot) in Pending(run[i]) ==>
              HasDevice(run[i].d, slot) && run[i].d.devices[slot].value.initialized
    ensures PastInitialization(run[i].d, slot) ==> run[i].d.devices[slot].value.initialized
  {
    RunReadInv(run, i);
    var c := ConfigureEndpoint(slot);
    assert c in Pending(run[i]) ==> multiset(Pending(run[i]))[c] > 0;
    assert multiset(Pending(run[i]))[c] == Count(Expected(run[i].d, c));
  }
}
