/** From the words of an event TRB to the handler that gets it. The events are written as
    section 6.4.2 of the xHCI specification lays them out, with anything in the other bits. */
module Dispatch {
  import C = CommandRing
  import R = TransferRing
  import opened Controllers
  import opened Enumeration
  import opened Trb
  import opened Wrappers

  datatype Words = Words(w0: Word, w1: Word, w2: Word, w3: Word)

  /** What the driver sees of four words in memory. */
  function TrbOf(w: Words): Trb {
    Trb(w.w0, w.w1, w.w2, UnpackControl(w.w3))
  }

  /** A last word: ten bits, the type in bits 10 to 15, and sixteen bits. */
  function LastWord(low: nat, trbType: nat, high: nat): Word
    requires low < 0x400 && trbType < 64 && high < TWO_TO_THE_16
  {
    low + 0x400 * trbType + TWO_TO_THE_16 * high
  }

  /** A last word with a type, and in bits 24 to 31 a slot. */
  function SlotWord(w3: Word, trbType: nat, slot: nat): Word
    requires trbType < 64 && slot < 256
  {
    LastWord(w3 % 0x400, trbType, w3 / TWO_TO_THE_16 % 256 + 256 * slot)
  }

  /** What the fields of an event can hold. */
  predicate Fits(e: Event) {
    match e
    case PortStatus(port) => port < 256
    case Completion(_, slot) => slot < 256
    case Transfer(slot, _, _) => slot < 256
  }

  /**
   * An event in memory: the port in bits 24 to 31 of word 0, or the slot in bits 24 to 31 of word
   * 3, and for a completion the address of its command in bits 4 to 63 of words 0 and 1. All
   * other bits are those of `rest`.
   */
  function EventWords(e: Event, address: nat, rest: Words): Words
    requires Fits(e) && address < TWO_TO_THE_64
  {
    match e
    case PortStatus(port) =>
      rest.(w0 := rest.w0 % 0x100_0000 + 0x100_0000 * port,
            w3 := LastWord(rest.w3 % 0x400, 34, rest.w3 / TWO_TO_THE_16))
    case Completion(_, slot) =>
      rest.(w0 := address % TWO_TO_THE_32 / 16 * 16 + rest.w0 % 16, w1 := address / TWO_TO_THE_32,
            w3 := SlotWord(rest.w3, 33, slot))
    case Transfer(slot, _, _) =>
      rest.(w3 := SlotWord(rest.w3, 32, slot))
  }

  /** The type of a command TRB, by its number in section 6.4.6 of the xHCI specification. */
  predicate IsCommand(t: Trb, c: Command) {
    t.ctl.trbType == match c case EnableSlot => 9 case AddressDevice(_) => 11 case ConfigureEndpoint(_) => 12
  }

  lemma LastWordRead(low: nat, trbType: nat, high: nat)
    requires low < 0x400 && trbType < 64 && high < TWO_TO_THE_16
    ensures UnpackControl(LastWord(low, trbType, high)).trbType == trbType
    ensures UnpackControl(LastWord(low, trbType, high)).upper == high
  {
    var a := low / 2 + 512 * trbType + 0x8000 * high;
    var b := low / 4 + 256 * trbType + 0x4000 * high;
    assert LastWord(low, trbType, high) / 2 == a;
    assert a / 2 == b;
    assert b / 256 == trbType + 64 * high;
  }

  /** The type is in bits 10 to 15 of any last word. */
  lemma TypeBits(w3: Word)
    ensures UnpackControl(w3).trbType == w3 / 0x400 % 0x40
  {
    assert w3 / 2 / 2 == w3 / 4;
    assert w3 / 4 / 256 == w3 / 0x400;
  }

  lemma PointerRead(address: nat, low: nat)
    requires address < TWO_TO_THE_64 && address % 16 == 0 && low < 16
    ensures (address % TWO_TO_THE_32 / 16 * 16 + low + TWO_TO_THE_32 * (address / TWO_TO_THE_32)) / 16 * 16 == address
  {
  }

  /** Every field of an event is read where the controller writes it. */
  lemma FieldsRead(e: Event, address: nat, rest: Words)
    requires Fits(e) && address < TWO_TO_THE_64
    ensures var t := TrbOf(EventWords(e, address, rest));
            && t.ctl.trbType == (match e case PortStatus(_) => 34 case Completion(_, _) => 33 case Transfer(_, _, _) => 32)
            && (e.PortStatus? ==> t.w0 / 0x100_0000 == e.port)
            && (e.Completion? ==> t.ctl.upper / 256 == e.slot)
            && (e.Transfer? ==> t.ctl.upper / 256 == e.tslot)
            && (e.Completion? && address % 16 == 0 ==> PointerOf(t) == address)
  {
    match e
    case PortStatus(port) => LastWordRead(rest.w3 % 0x400, 34, rest.w3 / TWO_TO_THE_16);
    case Completion(_, slot) =>
      LastWordRead(rest.w3 % 0x400, 33, rest.w3 / TWO_TO_THE_16 % 256 + 256 * slot);
      if address % 16 == 0 { PointerRead(address, rest.w0 % 16); }
    case Transfer(slot, _, _) =>
      LastWordRead(rest.w3 % 0x400, 32, rest.w3 / TWO_TO_THE_16 % 256 + 256 * slot);
  }

  /**
   * Whatever the other bits hold, an event reaches its own handler with its own port or slot,
   * and a completion the handler of the command that is in memory at the address it names.
   */
  lemma EventIsHandled(d: Driver, ports: seq<PortRegister>, e: Event, address: nat, rest: Words,
                       memory: nat -> Trb, ok: bool, finishes: bool)
    requires CanHandle(System(d, [e]), ports) && ContextsInRange(d) && Fits(e) && address < TWO_TO_THE_64
    requires e.Completion? ==> address % 16 == 0 && IsCommand(memory(address), e.issuer)
    requires e.Transfer? ==> ok == e.ok && finishes == e.finishes
    ensures Handled(d, ports, TrbOf(EventWords(e, address, rest)), memory, ok, finishes) == OnEvent(d, ports, e)
  {
    FieldsRead(e, address, rest);
  }

  /** An event of any other type is left to nobody, and so is the completion of any other command. */
  lemma OthersAreRefused(d: Driver, ports: seq<PortRegister>, w: Words, memory: nat -> Trb, ok: bool, finishes: bool)
    requires Shape(d) && Registers(ports) && ContextsInRange(d)
    ensures var r, trbType := Handled(d, ports, TrbOf(w), memory, ok, finishes), w.w3 / 0x400 % 0x40;
            && (r.1 == NotImplemented <==> trbType != 32 && trbType != 33 && trbType != 34)
            && (r.1 == NotImplemented ==> r.0 == d)
            && (trbType == 33 && memory(PointerOf(TrbOf(w))).ctl.trbType !in {9, 11, 12} ==> r == (d, InvalidPhase))
  {
    TypeBits(w.w3);
  }

  /** The memory holds the command ring. */
  ghost predicate Holds(memory: nat -> Trb, ring: R.State) {
    forall a: nat :: C.MemoryAt(ring, a).Some? ==> memory(a) == C.MemoryAt(ring, a).value
  }

  /** The completed command's address is one of the ring's slots. */
  lemma NamedAddress(f: C.Full)
    requires C.TakenInTurn(f) && C.NamedInTurn(f) && f.ring.base % 16 == 0 && f.named != []
    ensures f.ring.base <= f.named[0] < f.ring.base + 16 * C.SIZE && f.named[0] % 16 == 0
  {
    var j := f.completed - |f.named|;
    assert f.named[0] == f.taken[j] == C.AddressOf(f.ring.base, j % C.DATA_SLOTS);
  }

  /**
   * Over every run of the enumeration on its command ring: the words of the oldest event, read
   * back by the driver with the ring in memory, lead to the very step that the run takes.
   */
  lemma RunDispatches(run: seq<C.Full>, i: nat, ports: seq<PortRegister>, rest: Words, memory: nat -> Trb,
                      ok: bool, finishes: bool)
    requires C.IsRun(run) && i < |run| && run[i].ring.pc == R.Idle && CanHandle(run[i].sys, ports)
    requires run[i].ring.base + 16 * C.SIZE <= TWO_TO_THE_64 && Holds(memory, run[i].ring)
    requires Fits(run[i].sys.events[0])
    requires run[i].sys.events[0].Transfer? ==>
               ok == run[i].sys.events[0].ok && finishes == run[i].sys.events[0].finishes
    ensures run[i].sys.events[0].Completion? ==> run[i].named != [] && 0 <= run[i].named[0] < TWO_TO_THE_64
    ensures var s, address := run[i].sys, if run[i].sys.events[0].Completion? then run[i].named[0] else 0;
            ContextsInRange(s.d) &&
            Handled(s.d, ports, TrbOf(EventWords(s.events[0], address, rest)), memory, ok, finishes).0
            == Handle(s, ports).d
  {
    C.RunWhole(run, i);
    var f := run[i];
    var e := f.sys.events[0];
    if e.Completion? {
      C.IssuerStillThere(f);
      NamedAddress(f);
      assert memory(f.named[0]) == C.MemoryAt(f.ring, f.named[0]).value;
    }
    EventIsHandled(f.sys.d, ports, e, if e.Completion? then f.named[0] else 0, rest, memory, ok, finishes);
  }
}
