/** The enumeration code as it stands: globals updated in place, event by event. Every
    handler is proved to compute the function of the same name in `Enumeration`. */
module Controllers {
  import opened Wrappers
  import opened Enumeration
  import opened Trb
  import EventRings

  const TRANSFER_EVENT := 32
  const COMMAND_COMPLETION_EVENT := 33
  const PORT_STATUS_CHANGE_EVENT := 34

  predicate ContextsInRange(d: Driver)
    requires Shape(d)
  {
    forall slot :: 0 <= slot <= MAX_SLOTS && d.devices[slot].Some? ==> d.devices[slot].value.contextPort < PORTS
  }

  /** The 16-byte aligned address in a completion event. */
  function PointerOf(t: Trb): nat {
    (t.w0 + TWO_TO_THE_32 * t.w1) / 16 * 16
  }

  /**
   * What handling an event TRB comes to. The command completed is read from memory, `ok` and
   * `finishes` are the device object's verdict on a transfer.
   */
  function Handled(d: Driver, ports: seq<PortRegister>, t: Trb, memory: nat -> Trb, ok: bool, finishes: bool): (Driver, Error)
    requires Shape(d) && Registers(ports) && ContextsInRange(d)
  {
    var slot := t.ctl.upper / 256;
    if t.ctl.trbType == TRANSFER_EVENT then OnTransfer(d, ports, slot, ok, finishes)
    else if t.ctl.trbType == PORT_STATUS_CHANGE_EVENT then OnPortStatus(d, ports, t.w0 / 0x100_0000)
    else if t.ctl.trbType == COMMAND_COMPLETION_EVENT then
      match Issuer(memory(PointerOf(t)).ctl.trbType, slot)
      case Some(c) => OnCompletion(d, ports, c, slot)
      case None => (d, InvalidPhase)
    else (d, NotImplemented)
  }

  class Controller {
    var portConfigPhase: array<Phase>
    var addressingPort: nat
    var devices: array<Option<Device>>
    /** The commands pushed to the command ring and not completed yet. */
    var issued: seq<Command>

    ghost predicate Valid()
      reads this
    {
      portConfigPhase.Length == PORTS && devices.Length == MAX_SLOTS + 1 && addressingPort < PORTS
    }

    ghost function View(): Driver
      reads this, portConfigPhase, devices
    {
      Driver(portConfigPhase[..], addressingPort, devices[..], issued)
    }

    constructor ()
      ensures Valid() && View() == Init().d && fresh(portConfigPhase) && fresh(devices)
    {
      portConfigPhase := new Phase[PORTS](_ => NotConnected);
      devices := new Option<Device>[MAX_SLOTS + 1](_ => None);
      addressingPort := 0;
      issued := [];
      new;
      assert View().phase == Init().d.phase && View().devices == Init().d.devices;
    }

    method ResetPort(ports: seq<PortRegister>, p: nat) returns (err: Error)
      requires Valid() && Registers(ports) && p < PORTS
      modifies this`addressingPort, portConfigPhase
      ensures Valid() && (View(), err) == Enumeration.ResetPort(old(View()), ports, p)
    {
      if !ports[p].connected {
        return Success;
      }
      if addressingPort != 0 {
        portConfigPhase[p] := WaitingAddressed;
      } else {
        var phase := portConfigPhase[p];
        if phase != NotConnected && phase != WaitingAddressed {
          return InvalidPhase;
        }
        addressingPort := p;
        portConfigPhase[p] := ResettingPort;
      }
      return Success;
    }

    method EnableSlot(ports: seq<PortRegister>, p: nat) returns (err: Error)
      requires Valid() && Registers(ports) && p < PORTS
      modifies this`issued, portConfigPhase
      ensures Valid() && (View(), err) == EnableSlotOn(old(View()), ports, p)
    {
      if ports[p].enabled && ports[p].resetChanged {
        portConfigPhase[p] := EnablingSlot;
        issued := issued + [Command.EnableSlot];
      }
      return Success;
    }

    method AllocDevice(slot: nat) returns (err: Error)
      requires Valid()
      modifies devices
      ensures Valid() && View() == Enumeration.AllocDevice(old(View()), slot)
      ensures err == if slot > MAX_SLOTS then InvalidSlotId
                     else if old(devices[slot]).Some? then AlreadyAllocated else Success
    {
      if slot > MAX_SLOTS {
        return InvalidSlotId;
      }
      if devices[slot].Some? {
        return AlreadyAllocated;
      }
      devices[slot] := Some(Device(0, 0, false));
      return Success;
    }

    method AddressDevice(p: nat, slot: nat) returns (err: Error)
      requires Valid() && p < PORTS
      modifies this`issued, portConfigPhase, devices
      ensures Valid() && (View(), err) == AddressDeviceOn(old(View()), p, slot)
    {
      var _ := AllocDevice(slot);
      if slot > MAX_SLOTS || devices[slot].None? {
        return InvalidSlotId;
      }
      devices[slot] := Some(devices[slot].value.(inputPort := p));
      portConfigPhase[p] := AddressingDevice;
      issued := issued + [Command.AddressDevice(slot)];
      return Success;
    }

    method InitializeDevice(p: nat, slot: nat) returns (err: Error)
      requires Valid() && p < PORTS
      modifies portConfigPhase, devices
      ensures Valid() && (View(), err) == Enumeration.InitializeDevice(old(View()), p, slot)
    {
      if slot > MAX_SLOTS || devices[slot].None? {
        return InvalidSlotId;
      }
      portConfigPhase[p] := InitializingDevice;
      devices[slot] := Some(devices[slot].value.(initialized := false));
      return Success;
    }

    method CompleteConfiguration(p: nat, slot: nat) returns (err: Error)
      requires Valid() && p < PORTS
      modifies portConfigPhase
      ensures Valid() && (View(), err) == Enumeration.CompleteConfiguration(old(View()), p, slot)
    {
      if slot > MAX_SLOTS || devices[slot].None? {
        return InvalidSlotId;
      }
      portConfigPhase[p] := Configured;
      return Success;
    }

    method ConfigureEndpoints(ports: seq<PortRegister>, slot: nat) returns (err: Error)
      requires Valid() && Registers(ports) && slot <= MAX_SLOTS
      requires devices[slot].Some? && devices[slot].value.contextPort < PORTS
      modifies this`issued, portConfigPhase, devices
      ensures Valid()
      ensures (View(), err) == Enumeration.ConfigureEndpoints(old(View()), ports, slot, old(devices[slot].value))
    {
      var dev := devices[slot].value;
      devices[slot] := Some(dev.(inputPort := dev.contextPort));
      var p := dev.contextPort;
      var speed := ports[p].speed;
      if speed == 0 || speed > SUPER_SPEED_PLUS {
        return UnknownSpeed;
      }
      portConfigPhase[p] := ConfiguringEndpoints;
      issued := issued + [ConfigureEndpoint(slot)];
      return Success;
    }

    method OnPortStatusChange(ports: seq<PortRegister>, p: nat) returns (err: Error)
      requires Valid() && Registers(ports) && p < PORTS
      modifies this`addressingPort, this`issued, portConfigPhase
      ensures Valid() && (View(), err) == OnPortStatus(old(View()), ports, p)
    {
      match portConfigPhase[p]
      case NotConnected => err := ResetPort(ports, p);
      case ResettingPort => err := EnableSlot(ports, p);
      case _ => err := InvalidPhase;
    }

    method OnTransferEvent(ports: seq<PortRegister>, slot: nat, ok: bool, finishes: bool) returns (err: Error)
      requires Valid() && Registers(ports) && ContextsInRange(View())
      modifies this`issued, portConfigPhase, devices
      ensures Valid() && (View(), err) == OnTransfer(old(View()), ports, slot, ok, finishes)
    {
      if slot > MAX_SLOTS || devices[slot].None? {
        return InvalidSlotId;
      }
      if !ok {
        return TransferFailed;
      }
      var dev := devices[slot].value;
      devices[slot] := Some(dev.(initialized := dev.initialized || finishes));
      if devices[slot].value.initialized && portConfigPhase[dev.contextPort] == InitializingDevice {
        err := ConfigureEndpoints(ports, slot);
        return;
      }
      return Success;
    }

    /** The search loop for the next port to address. */
    method AddressNextWaiting(ports: seq<PortRegister>) returns (err: Error)
      requires Valid() && Registers(ports)
      modifies this`addressingPort, portConfigPhase
      ensures Valid() && (View(), err) == HandOver(old(View()), ports)
    {
      addressingPort := 0;
      ghost var before := View();
      var i := 0;
      while i < portConfigPhase.Length
        invariant i <= PORTS && Valid() && View() == before
        invariant FirstWaiting(before.phase, 0) == FirstWaiting(before.phase, i)
      {
        if portConfigPhase[i] == WaitingAddressed {
          err := ResetPort(ports, i);
          return;
        }
        i := i + 1;
      }
      return Success;
    }

    method OnCommandCompletion(ports: seq<PortRegister>, issuerType: nat, slot: nat) returns (err: Error)
      requires Valid() && Registers(ports) && ContextsInRange(View())
      modifies this`addressingPort, this`issued, portConfigPhase, devices
      ensures Valid()
      ensures match Issuer(issuerType, slot)
              case Some(c) => (View(), err) == OnCompletion(old(View()), ports, c, slot)
              case None => View() == old(View()) && err == InvalidPhase
    {
      if issuerType == ENABLE_SLOT_COMMAND {
        if portConfigPhase[addressingPort] != EnablingSlot {
          return InvalidPhase;
        }
        err := AddressDevice(addressingPort, slot);
      } else if issuerType == ADDRESS_DEVICE_COMMAND {
        if slot > MAX_SLOTS || devices[slot].None? {
          return InvalidSlotId;
        }
        var p := devices[slot].value.contextPort;
        if p != addressingPort {
          return InvalidPhase;
        }
        if portConfigPhase[p] != AddressingDevice {
          return InvalidPhase;
        }
        err := AddressNextWaiting(ports);
        if err != Success {
          return;
        }
        err := InitializeDevice(p, slot);
      } else if issuerType == CONFIGURE_ENDPOINT_COMMAND {
        if slot > MAX_SLOTS || devices[slot].None? {
          return InvalidSlotId;
        }
        var p := devices[slot].value.contextPort;
        if portConfigPhase[p] != ConfiguringEndpoints {
          return InvalidPhase;
        }
        err := CompleteConfiguration(p, slot);
      } else {
        err := InvalidPhase;
      }
    }

    method ConfigurePort(ports: seq<PortRegister>, p: nat) returns (err: Error)
      requires Valid() && Registers(ports) && p < PORTS
      modifies this`addressingPort, portConfigPhase
      ensures Valid() && (View(), err) == Enumeration.ConfigurePort(old(View()), ports, p)
    {
      if portConfigPhase[p] == NotConnected {
        err := ResetPort(ports, p);
      } else {
        err := Success;
      }
    }

    /** Handles the event at the front of the ring, if there is one, and drops exactly that
        event, whatever the handler says and even if no handler knows it. */
    method ProcessEvent(er: EventRings.EventRing, ports: seq<PortRegister>, memory: nat -> Trb, ok: bool, finishes: bool)
      returns (err: Error)
      requires Valid() && Registers(ports) && ContextsInRange(View()) && er.Valid()
      modifies this`addressingPort, this`issued, portConfigPhase, devices, er`cycleBit, er.interrupter
      ensures Valid() && er.Valid()
      ensures if !EventRings.SeesFront(old(er.View())) then
                err == Success && View() == old(View()) && er.View() == old(er.View())
              else
                && er.View() == EventRings.PopFrom(old(er.View()))
                && (View(), err) == Handled(old(View()), ports, EventRings.AtFront(old(er.View())), memory, ok, finishes)
    {
      var seen := er.HasFront();
      if !seen {
        return Success;
      }
      var t := er.Front();
      err := NotImplemented;
      if t.ctl.trbType == TRANSFER_EVENT {
        err := OnTransferEvent(ports, t.ctl.upper / 256, ok, finishes);
      } else if t.ctl.trbType == PORT_STATUS_CHANGE_EVENT {
        err := OnPortStatusChange(ports, t.w0 / 0x100_0000);
      } else if t.ctl.trbType == COMMAND_COMPLETION_EVENT {
        err := OnCommandCompletion(ports, memory(PointerOf(t)).ctl.trbType, t.ctl.upper / 256);
      }
      er.Pop();
    }
  }
}
