/** Control transfers on an endpoint's ring. A transfer is two or three TRBs; the map from the
    TRB that raises the completion event to the transfer's Setup TRB is keyed by ring slots,
    which are used again on every lap. */
module ControlTransfers {
  import opened Wrappers
  import opened Trb
  import opened ArrayMaps
  import R = TransferRing

  const MAP_SIZE := 16
  const LENGTH_LIMIT := 0x2_0000
  const SUCCESS := 1
  const SHORT_PACKET := 13

  type Half = x: int | 0 <= x < TWO_TO_THE_16
  type Address = x: int | 0 <= x < TWO_TO_THE_64

  datatype SetupData = SetupData(requestType: Byte, request: Byte, value: Half, index: Half, length: Half)

  // ---------------------------------------------------------------------------
  // Building and reading TRBs
  // ---------------------------------------------------------------------------

  /** `immediate_data` is bit 6 and `interrupt_on_completion` bit 5 of the last word. */
  function MakeSetupStage(s: SetupData, transferType: nat): Trb {
    Trb(s.requestType + 256 * s.request + 0x1_0000 * s.value, s.index + 0x1_0000 * s.length, 8,
        Control(false, false, 16, SETUP_STAGE, transferType))
  }

  function SetupOf(t: Trb): SetupData {
    SetupData(t.w0 % 256, t.w0 / 256 % 256, t.w0 / 0x1_0000, t.w1 % 0x1_0000, t.w1 / 0x1_0000)
  }

  function MakeDataStage(buf: Address, len: int, dirIn: bool): Trb {
    Trb(buf % TWO_TO_THE_32, buf / TWO_TO_THE_32, len % LENGTH_LIMIT, Control(false, false, 8, DATA_STAGE, Bit(dirIn)))
  }

  function MakeStatusStage(direction: bool, interrupt: bool): Trb {
    Trb(0, 0, 0, Control(false, false, if interrupt then 8 else 0, STATUS_STAGE, Bit(direction)))
  }

  function MakeNormal(buf: Address, len: int): Trb {
    Trb(buf % TWO_TO_THE_32, buf / TWO_TO_THE_32, len % LENGTH_LIMIT, Control(false, false, 9, NORMAL, 0))
  }

  function BufferOf(t: Trb): Address {
    t.w0 + TWO_TO_THE_32 * t.w1
  }

  function LengthOf(t: Trb): nat {
    t.w2 % LENGTH_LIMIT
  }

  lemma UnpackWord(a: Byte, b: Byte, c: Half)
    ensures var w := a + 256 * b + 0x1_0000 * c; w % 256 == a && w / 256 % 256 == b && w / 0x1_0000 == c
  {
    var w := a + 256 * b + 0x1_0000 * c;
    assert w / 256 == b + 256 * c;
  }

  lemma SetupRoundTrip(s: SetupData, transferType: nat)
    ensures SetupOf(Payload(MakeSetupStage(s, transferType))) == s
  {
    UnpackWord(s.requestType, s.request, s.value);
  }

  lemma BufferRoundTrip(buf: Address, len: int, dirIn: bool)
    ensures BufferOf(Payload(MakeDataStage(buf, len, dirIn))) == buf == BufferOf(Payload(MakeNormal(buf, len)))
    ensures LengthOf(MakeDataStage(buf, len, dirIn)) == len <==> 0 <= len < LENGTH_LIMIT
  {
  }

  // ---------------------------------------------------------------------------
  // The device's operations
  // ---------------------------------------------------------------------------

  /** The ring and the map. Addresses of TRBs are their slots; 0 is the null buffer. */
  datatype Core = Core(p: R.Producer, base: nat, table: seq<Cell<nat, nat>>)

  ghost predicate CoreOk(c: Core) {
    |c.p.buf| >= 3 && c.p.writeIndex + 1 < |c.p.buf| && c.base < TWO_TO_THE_64
  }

  /** The TRBs of a transfer. With a buffer the second raises the event, without one too. */
  function Stages(s: SetupData, buf: Address, len: int, dirIn: bool): (ts: seq<Trb>)
    ensures |ts| == if buf != 0 then 3 else 2
  {
    if buf != 0 then
      [MakeSetupStage(s, if dirIn then 3 else 2), MakeDataStage(buf, len, dirIn), MakeStatusStage(!dirIn, false)]
    else
      [MakeSetupStage(s, 0), MakeStatusStage(true, true)]
  }

  /** Bits of the last word by their weight: 2^5, 2^6, and the fields from 2^16 on. */
  predicate Interrupts(t: Trb) {
    PackControl(t.ctl) / 0x20 % 2 == 1
  }

  predicate HasImmediateData(t: Trb) {
    PackControl(t.ctl) / 0x40 % 2 == 1
  }

  function TransferType(t: Trb): nat {
    PackControl(t.ctl) / 0x1_0000 % 4
  }

  predicate IsIn(t: Trb) {
    PackControl(t.ctl) / 0x1_0000 % 2 == 1
  }

  lemma SetupBits(s: SetupData, transferType: nat)
    requires transferType < 4
    ensures var t := MakeSetupStage(s, transferType);
            HasImmediateData(t) && !Interrupts(t) && TransferType(t) == transferType
  {
  }

  lemma DataBits(buf: Address, len: int, dirIn: bool)
    ensures var t := MakeDataStage(buf, len, dirIn); !HasImmediateData(t) && Interrupts(t) && IsIn(t) == dirIn
  {
  }

  lemma StatusBits(direction: bool, interrupt: bool)
    ensures var t := MakeStatusStage(direction, interrupt);
            !HasImmediateData(t) && Interrupts(t) == interrupt && IsIn(t) == direction
  {
  }

  /** The eight bytes of a setup packet, section 9.3 of the USB 2.0 specification: the request type,
      the request, and value, index and length with the low byte first. */
  function SetupPacket(s: SetupData): seq<Byte> {
    [s.requestType, s.request, s.value % 0x100, s.value / 0x100, s.index % 0x100, s.index / 0x100,
     s.length % 0x100, s.length / 0x100]
  }

  function WordOf(bytes: seq<Byte>): int
    requires |bytes| == 4
  {
    var a: int, b: int, c: int, d: int := bytes[0], bytes[1], bytes[2], bytes[3];
    a + 0x100 * b + 0x1_0000 * c + 0x100_0000 * d
  }

  /** The Setup TRB carries the packet in its first eight bytes. */
  lemma SetupIsPacket(s: SetupData, transferType: nat)
    ensures MakeSetupStage(s, transferType).w0 == WordOf(SetupPacket(s)[..4])
    ensures MakeSetupStage(s, transferType).w1 == WordOf(SetupPacket(s)[4..])
  {
    var p := SetupPacket(s);
    assert p[..4] == [p[0], p[1], p[2], p[3]] && p[4..] == [p[4], p[5], p[6], p[7]];
  }

  /**
   * The last words as section 6.4.1 of the xHCI specification lays them out: the type in bits 10
   * to 15, immediate data in bit 6, interrupt on completion in bit 5, interrupt on a short packet
   * in bit 2, transfer type or direction from bit 16 on. An interrupt transfer's TRB asks for both
   * interrupts.
   */
  lemma StageWords(s: SetupData, buf: Address, len: int, dir: bool, interrupt: bool, transferType: nat)
    requires transferType < 4
    ensures PackControl(MakeSetupStage(s, transferType).ctl) == 0x400 * 2 + 0x40 + 0x1_0000 * transferType
    ensures PackControl(MakeDataStage(buf, len, dir).ctl) == 0x400 * 3 + 0x20 + if dir then 0x1_0000 else 0
    ensures PackControl(MakeStatusStage(dir, interrupt).ctl)
         == 0x400 * 4 + (if interrupt then 0x20 else 0) + if dir then 0x1_0000 else 0
    ensures PackControl(MakeNormal(buf, len).ctl) == 0x400 * 1 + 0x20 + 0x4
    ensures Interrupts(MakeNormal(buf, len)) && !HasImmediateData(MakeNormal(buf, len))
    ensures MakeNormal(buf, len).w2 == len % 0x2_0000 == MakeDataStage(buf, len, dir).w2
  {
  }

  /**
   * Section 4.11.2.2 of the xHCI specification: setup, data and status in order; the Setup TRB
   * carries its data and says which way the data go; the status stage goes the other way, or in
   * when there are no data. Exactly the second TRB, the map's key, asks for an interrupt.
   */
  lemma StagesFollowProtocol(s: SetupData, buf: Address, len: int, dirIn: bool, i: nat)
    requires i < |Stages(s, buf, len, dirIn)|
    ensures var ts, n := Stages(s, buf, len, dirIn), |Stages(s, buf, len, dirIn)|;
            && (Interrupts(ts[i]) <==> i == 1)
            && (HasImmediateData(ts[i]) <==> i == 0)
            && ts[i].ctl.trbType == (if i == 0 then SETUP_STAGE else if i == n - 1 then STATUS_STAGE else DATA_STAGE)
            && (i == 0 ==> ts[i].w2 == 8 && TransferType(ts[i]) == if buf == 0 then 0 else if dirIn then 3 else 2)
            && (i > 0 ==> IsIn(ts[i]) == if i < n - 1 then dirIn else buf == 0 || !dirIn)
  {
    SetupBits(s, if buf == 0 then 0 else if dirIn then 3 else 2);
    DataBits(buf, len, dirIn);
    StatusBits(buf == 0 || !dirIn, buf == 0);
  }

  function Transfer(c: Core, s: SetupData, buf: Address, len: int, dirIn: bool): Core
    requires CoreOk(c)
  {
    var ts := Stages(s, buf, len, dirIn);
    R.PushKeepsShape(c.p, ts[0], c.base);
    var p1 := R.PushTo(c.p, ts[0], c.base);
    R.PushKeepsShape(p1, ts[1], c.base);
    var p2 := R.PushTo(p1, ts[1], c.base);
    Core(if buf != 0 then R.PushTo(p2, ts[2], c.base) else p2, c.base, Added(c.table, p1.writeIndex, c.p.writeIndex))
  }

  datatype Outcome =
    | TransferFailed
    | NoCorrespondingSetupStage
    | NotImplemented
    | InterruptCompleted(buf: Address, len: int)
    | ControlCompleted(setup: SetupData, buf: Address, len: int)

  predicate Succeeded(code: nat) {
    code == SUCCESS || code == SHORT_PACKET
  }

  /** A transfer event for the TRB in `slot`. */
  function OnTransferEvent(c: Core, slot: nat, code: nat, residual: nat): (Core, Outcome)
    requires slot < |c.p.buf|
  {
    var t := c.p.buf[slot];
    if !Succeeded(code) then (c, TransferFailed)
    else if t.ctl.trbType == NORMAL then (c, InterruptCompleted(BufferOf(t), LengthOf(t) - residual))
    else match Lookup(c.table, slot)
      case None => (c, NoCorrespondingSetupStage)
      case Some(setup) =>
        var c1 := c.(table := Removed(c.table, slot));
        if setup >= |c.p.buf| then (c1, NotImplemented) else
        var s := SetupOf(c.p.buf[setup]);
        if t.ctl.trbType == DATA_STAGE then (c1, ControlCompleted(s, BufferOf(t), LengthOf(t) - residual))
        else if t.ctl.trbType == STATUS_STAGE then (c1, ControlCompleted(s, 0, 0))
        else (c1, NotImplemented)
  }

  // ---------------------------------------------------------------------------
  // The history of one endpoint
  // ---------------------------------------------------------------------------

  /** A transfer not completed yet; its Setup TRB was the `born`th TRB pushed. */
  datatype Open = Open(
    setup: SetupData, buf: Address, len: int, dirIn: bool, born: nat, first: Trb, second: Trb)

  /** The first two TRBs of an open transfer are what was submitted. */
  ghost predicate Made(o: Open) {
    var ts := Stages(o.setup, o.buf, o.len, o.dirIn);
    o.first == Payload(ts[0]) && o.second == Payload(ts[1])
  }

  /** What its completion must call back with. */
  function Expected(o: Open, residual: nat): Outcome {
    ControlCompleted(o.setup, o.buf, if o.buf != 0 then o.len % LENGTH_LIMIT - residual else 0)
  }

  datatype Dev = Dev(c: Core, pushed: seq<Trb>, open: seq<Open>)

  /** The slot of the `j`th TRB pushed. */
  function Slot(p: R.Producer, total: nat, j: nat): int {
    R.SlotOfAge(p, if j <= total then total - j else 0)
  }

  /** The `j`th TRB pushed is among the last N-1. */
  predicate InWindow(p: R.Producer, total: nat, j: nat) {
    j < total <= j + |p.buf| - 1
  }

  ghost predicate Memory(c: Core, pushed: seq<Trb>) {
    CoreOk(c) && R.Remembers(c.p, R.Last(pushed, |c.p.buf| - 1))
  }

  lemma ReadBack(c: Core, pushed: seq<Trb>, j: nat)
    requires Memory(c, pushed) && InWindow(c.p, |pushed|, j)
    ensures 0 <= Slot(c.p, |pushed|, j) < |c.p.buf| - 1
    ensures Payload(c.p.buf[Slot(c.p, |pushed|, j)]) == pushed[j]
  {
    LastAt(pushed, |c.p.buf| - 1, j);
    ReadRecent(c.p, R.Last(pushed, |c.p.buf| - 1), |pushed|, j, pushed[j]);
  }

  lemma ReadRecent(p: R.Producer, recent: seq<Trb>, total: nat, j: nat, t: Trb)
    requires R.Remembers(p, recent) && p.writeIndex + 1 < |p.buf|
    requires j < total <= j + |recent| && recent[|recent| - (total - j)] == t
    ensures 0 <= Slot(p, total, j) < |p.buf| - 1 && Payload(p.buf[Slot(p, total, j)]) == t
  {
    R.RememberedAt(p, recent, total - j);
  }

  lemma LastAt(s: seq<Trb>, n: nat, j: nat)
    requires j < |s| <= j + n
    ensures |s| - j <= |R.Last(s, n)| && R.Last(s, n)[|R.Last(s, n)| - (|s| - j)] == s[j]
  {
  }

  lemma PushRecent(p: R.Producer, t: Trb, base: nat, pushed: seq<Trb>)
    requires |p.buf| >= 3 && p.writeIndex + 1 < |p.buf| && base < TWO_TO_THE_64
    requires R.Remembers(p, R.Last(pushed, |p.buf| - 1))
    ensures R.Remembers(R.PushTo(p, t, base), R.Last(pushed + [Payload(t)], |p.buf| - 1))
  {
    R.FewerRemembered(p, pushed, |p.buf| - 2, |p.buf| - 1);
    R.PushRemembers(p, t, base, R.Last(pushed, |p.buf| - 2));
    R.LastExtended(pushed, |p.buf| - 2, Payload(t));
  }

  lemma PushMemory(c: Core, pushed: seq<Trb>, t: Trb)
    requires Memory(c, pushed)
    ensures |R.PushTo(c.p, t, c.base).buf| == |c.p.buf|
    ensures Memory(c.(p := R.PushTo(c.p, t, c.base)), pushed + [Payload(t)])
  {
    PushRecent(c.p, t, c.base, pushed);
    R.PushKeepsShape(c.p, t, c.base);
  }

  /** Slots are stable: a push neither moves older TRBs in the window nor hides its own. */
  lemma PushSlots(c: Core, total: nat, t: Trb)
    requires CoreOk(c)
    ensures var q := R.PushTo(c.p, t, c.base);
            Slot(q, total + 1, total) == c.p.writeIndex &&
            forall j: nat :: j < total && InWindow(q, total + 1, j) ==> Slot(q, total + 1, j) == Slot(c.p, total, j)
  {
    R.PushKeepsShape(c.p, t, c.base);
    var q := R.PushTo(c.p, t, c.base);
    forall j: nat | j < total && InWindow(q, total + 1, j) ensures Slot(q, total + 1, j) == Slot(c.p, total, j) {
      assert R.SlotOfAge(q, (total - j) + 1) == R.SlotOfAge(c.p, total - j);
    }
  }

  // ---------------------------------------------------------------------------
  // The invariant
  // ---------------------------------------------------------------------------

  /** The transfer's TRBs are still in memory, and the map leads from the one that raises the
      event to its Setup TRB. */
  ghost predicate OpenOk(d: Dev, o: Open) {
    var total := |d.pushed|;
    && o.born + 2 <= total && InWindow(d.c.p, total, o.born)
    && d.pushed[o.born] == o.first && d.pushed[o.born + 1] == o.second
    && Slot(d.c.p, total, o.born) >= 0 && Slot(d.c.p, total, o.born + 1) >= 0
    && Lookup(d.c.table, Slot(d.c.p, total, o.born + 1)) == Some(Slot(d.c.p, total, o.born))
  }

  /** Every key of the map belongs to an open transfer. */
  ghost predicate KeyOwned(d: Dev, key: nat) {
    exists i :: 0 <= i < |d.open| && Slot(d.c.p, |d.pushed|, d.open[i].born + 1) == key
  }

  ghost predicate AllOpen(d: Dev) {
    forall i :: 0 <= i < |d.open| ==> OpenOk(d, d.open[i])
  }

  ghost predicate AllOwned(d: Dev) {
    forall key: nat :: Lookup(d.c.table, key) != None ==> KeyOwned(d, key)
  }

  ghost predicate Spaced(open: seq<Open>) {
    forall i, j :: 0 <= i < j < |open| ==> open[i].born + 2 <= open[j].born
  }

  ghost predicate TableOk(t: seq<Cell<nat, nat>>, n: nat) {
    |t| == MAP_SIZE && Unique(t) && Used(t) == n
  }

  ghost predicate Books(d: Dev) {
    Memory(d.c, d.pushed) && TableOk(d.c.table, |d.open|) && Spaced(d.open) && AllOpen(d) && AllOwned(d)
  }

  ghost predicate Inv(d: Dev) {
    Books(d) && forall i :: 0 <= i < |d.open| ==> Made(d.open[i])
  }

  /** Different TRBs in the window lie in different slots. */
  lemma SlotsDiffer(p: R.Producer, total: nat, i: nat, j: nat)
    requires p.writeIndex < |p.buf| && InWindow(p, total, i) && InWindow(p, total, j) && i != j
    ensures Slot(p, total, i) != Slot(p, total, j)
  {
  }

  lemma InitInv(n: nat, base: nat)
    requires n >= 3 && base < TWO_TO_THE_64
    ensures Inv(Dev(Core(R.Init(base, n).p, base, seq(MAP_SIZE, i => Cell(None, 0))), [], []))
  {
    var t: seq<Cell<nat, nat>> := seq(MAP_SIZE, i => Cell(None, 0));
    EmptyUsed(t);
    forall key: nat ensures Lookup(t, key) == None {
      assert FindKey(t, key, 0) == |t|;
    }
  }

  lemma {:induction false} EmptyUsed(t: seq<Cell<nat, nat>>)
    requires forall i :: 0 <= i < |t| ==> t[i].key.None?
    ensures Used(t) == 0
  {
    if t != [] { EmptyUsed(t[..|t| - 1]); }
  }

  // ---------------------------------------------------------------------------
  // Pushes
  // ---------------------------------------------------------------------------

  function PushDev(d: Dev, t: Trb): Dev
    requires CoreOk(d.c)
  {
    d.(c := d.c.(p := R.PushTo(d.c.p, t, d.c.base)), pushed := d.pushed + [Payload(t)])
  }

  /** The hypothesis on the past: no open Setup TRB leaves the window by one more push. */
  predicate RoomForPush(d: Dev) {
    forall i :: 0 <= i < |d.open| ==> |d.pushed| + 1 <= d.open[i].born + |d.c.p.buf| - 1
  }

  /** An open transfer needs nothing but its two slots, its window and its entry. */
  lemma OpenPushed(d: Dev, e: Dev, o: Open)
    requires OpenOk(d, o) && e.c.table == d.c.table && d.pushed <= e.pushed && InWindow(e.c.p, |e.pushed|, o.born)
    requires Slot(e.c.p, |e.pushed|, o.born) == Slot(d.c.p, |d.pushed|, o.born)
    requires Slot(e.c.p, |e.pushed|, o.born + 1) == Slot(d.c.p, |d.pushed|, o.born + 1)
    ensures OpenOk(e, o)
  {
  }

  lemma PushOpens(d: Dev, t: Trb, i: nat)
    requires CoreOk(d.c) && RoomForPush(d) && i < |d.open| && OpenOk(d, d.open[i])
    ensures OpenOk(PushDev(d, t), d.open[i])
    ensures Slot(PushDev(d, t).c.p, |d.pushed| + 1, d.open[i].born + 1) == Slot(d.c.p, |d.pushed|, d.open[i].born + 1)
  {
    var q, o := R.PushTo(d.c.p, t, d.c.base), d.open[i];
    PushSlots(d.c, |d.pushed|, t);
    R.PushKeepsShape(d.c.p, t, d.c.base);
    assert InWindow(q, |d.pushed| + 1, o.born) && InWindow(q, |d.pushed| + 1, o.born + 1);
    OpenPushed(d, PushDev(d, t), o);
  }

  lemma PushKey(d: Dev, e: Dev, key: nat)
    requires KeyOwned(d, key) && e.open == d.open
    requires forall i :: 0 <= i < |d.open| ==>
               Slot(e.c.p, |e.pushed|, d.open[i].born + 1) == Slot(d.c.p, |d.pushed|, d.open[i].born + 1)
    ensures KeyOwned(e, key)
  {
    var i :| 0 <= i < |d.open| && Slot(d.c.p, |d.pushed|, d.open[i].born + 1) == key;
    assert Slot(e.c.p, |e.pushed|, e.open[i].born + 1) == key;
  }

  lemma PushAllOpen(d: Dev, t: Trb)
    requires CoreOk(d.c) && AllOpen(d) && RoomForPush(d)
    ensures AllOpen(PushDev(d, t))
    ensures var e := PushDev(d, t); forall i :: 0 <= i < |d.open| ==>
              Slot(e.c.p, |e.pushed|, d.open[i].born + 1) == Slot(d.c.p, |d.pushed|, d.open[i].born + 1)
  {
    forall i | 0 <= i < |d.open|
      ensures OpenOk(PushDev(d, t), d.open[i])
      ensures Slot(PushDev(d, t).c.p, |d.pushed| + 1, d.open[i].born + 1) == Slot(d.c.p, |d.pushed|, d.open[i].born + 1)
    {
      PushOpens(d, t, i);
    }
  }

  lemma PushBooks(d: Dev, t: Trb)
    requires Books(d) && RoomForPush(d)
    ensures Books(PushDev(d, t)) && |PushDev(d, t).c.p.buf| == |d.c.p.buf|
  {
    var e := PushDev(d, t);
    PushMemory(d.c, d.pushed, t);
    PushAllOpen(d, t);
    assert AllOwned(e) by {
      forall key: nat | Lookup(e.c.table, key) != None ensures KeyOwned(e, key) {
        PushKey(d, e, key);
      }
    }
  }

  /** Registering the two TRBs pushed last as a new transfer. */
  function Register(d: Dev, o: Open): Dev
    requires |d.pushed| >= 2 && d.c.p.writeIndex < |d.c.p.buf| && |d.c.p.buf| >= 3
  {
    var total := |d.pushed|;
    var key, setup := Slot(d.c.p, total, total - 1), Slot(d.c.p, total, total - 2);
    d.(c := d.c.(table := Added(d.c.table, key, setup)), open := d.open + [o])
  }

  /** The two TRBs pushed last are the new transfer's, and nobody else's. */
  ghost predicate Fresh(d: Dev, o: Open) {
    var total := |d.pushed|;
    && total >= 2 && o.born == total - 2 && |d.c.p.buf| >= 3
    && d.pushed[o.born] == o.first && d.pushed[o.born + 1] == o.second
    && forall i :: 0 <= i < |d.open| ==> d.open[i].born + 2 <= o.born
  }

  lemma KeyIsFree(d: Dev, o: Open)
    requires Books(d) && Fresh(d, o)
    ensures Slot(d.c.p, |d.pushed|, o.born) >= 0 && Slot(d.c.p, |d.pushed|, o.born + 1) >= 0
    ensures Lookup(d.c.table, Slot(d.c.p, |d.pushed|, o.born + 1)) == None
    ensures forall i :: 0 <= i < |d.open| ==>
              Slot(d.c.p, |d.pushed|, d.open[i].born + 1) != Slot(d.c.p, |d.pushed|, o.born + 1)
  {
    ReadBack(d.c, d.pushed, o.born);
    ReadBack(d.c, d.pushed, o.born + 1);
    var key: nat := Slot(d.c.p, |d.pushed|, o.born + 1);
    forall i | 0 <= i < |d.open| ensures Slot(d.c.p, |d.pushed|, d.open[i].born + 1) != key {
      assert OpenOk(d, d.open[i]);
      SlotsDiffer(d.c.p, |d.pushed|, d.open[i].born + 1, o.born + 1);
    }
    assert !KeyOwned(d, key);
  }

  lemma AddedUsed(t: seq<Cell<nat, nat>>, key: nat, value: nat)
    requires Used(t) < |t| && Lookup(t, key) == None && Unique(t)
    ensures Used(Added(t, key, value)) == Used(t) + 1 && Lookup(Added(t, key, value), key) == Some(value)
    ensures Unique(Added(t, key, value))
  {
    UsedFull(t);
    UsedUpdate(t, FindFree(t, 0), Cell(Some(key), value));
    LookupAfterAdd(t, key, value);
    AddKeepsUnique(t, key, value);
  }

  lemma AddedOther(t: seq<Cell<nat, nat>>, key: nat, value: nat, other: nat)
    requires other != key
    ensures Lookup(Added(t, key, value), other) == Lookup(t, other)
  {
    LookupAfterAdd(t, key, value);
  }

  /** An open transfer only needs its own entry of the map. */
  lemma OpenFrame(d: Dev, e: Dev, o: Open)
    requires OpenOk(d, o) && e.c.p == d.c.p && e.pushed == d.pushed
    requires var key := Slot(d.c.p, |d.pushed|, o.born + 1);
             key >= 0 && Lookup(e.c.table, key) == Lookup(d.c.table, key)
    ensures OpenOk(e, o)
  {
  }

  lemma OwnedBy(d: Dev, i: nat)
    requires i < |d.open| && Slot(d.c.p, |d.pushed|, d.open[i].born + 1) >= 0
    ensures KeyOwned(d, Slot(d.c.p, |d.pushed|, d.open[i].born + 1))
  {
  }

  lemma OwnedFrame(d: Dev, e: Dev, key: nat)
    requires KeyOwned(d, key) && e.c.p == d.c.p && e.pushed == d.pushed
    requires forall i :: 0 <= i < |d.open| && Slot(d.c.p, |d.pushed|, d.open[i].born + 1) == key ==> d.open[i] in e.open
    ensures KeyOwned(e, key)
  {
    var i :| 0 <= i < |d.open| && Slot(d.c.p, |d.pushed|, d.open[i].born + 1) == key;
    var j :| 0 <= j < |e.open| && e.open[j] == d.open[i];
    assert Slot(e.c.p, |e.pushed|, e.open[j].born + 1) == key;
  }

  /** Where the two TRBs of a fresh transfer lie; nobody's key is there. */
  ghost predicate FreshKey(d: Dev, o: Open, key: nat, setup: nat) {
    && Fresh(d, o) && d.c.p.writeIndex < |d.c.p.buf|
    && Slot(d.c.p, |d.pushed|, o.born + 1) == key && Slot(d.c.p, |d.pushed|, o.born) == setup
    && Lookup(d.c.table, key) == None && Register(d, o).c.table == Added(d.c.table, key, setup)
  }

  lemma RegisterOld(d: Dev, o: Open, i: nat, key: nat, setup: nat)
    requires FreshKey(d, o, key, setup) && i < |d.open| && OpenOk(d, d.open[i])
    requires Slot(d.c.p, |d.pushed|, d.open[i].born + 1) != key
    ensures OpenOk(Register(d, o), d.open[i])
  {
    AddedOther(d.c.table, key, setup, Slot(d.c.p, |d.pushed|, d.open[i].born + 1));
    OpenFrame(d, Register(d, o), d.open[i]);
  }

  lemma RegisterNew(d: Dev, o: Open, key: nat, setup: nat)
    requires FreshKey(d, o, key, setup) && InWindow(d.c.p, |d.pushed|, o.born)
    requires Used(d.c.table) < |d.c.table| && Unique(d.c.table)
    ensures OpenOk(Register(d, o), o)
    ensures var t := Register(d, o).c.table; |t| == |d.c.table| && Unique(t) && Used(t) == Used(d.c.table) + 1
  {
    AddedUsed(d.c.table, key, setup);
  }

  lemma RegisterKeys(d: Dev, o: Open, key: nat, setup: nat, x: nat)
    requires FreshKey(d, o, key, setup) && Lookup(Register(d, o).c.table, x) != None
    requires Lookup(d.c.table, x) != None ==> KeyOwned(d, x)
    ensures KeyOwned(Register(d, o), x)
  {
    var e := Register(d, o);
    if x == key {
      OwnedBy(e, |d.open|);
    } else {
      AddedOther(d.c.table, key, setup, x);
      OwnedFrame(d, e, x);
    }
  }

  lemma RegisterAllOpen(d: Dev, o: Open)
    requires Books(d) && Fresh(d, o) && |d.open| < MAP_SIZE
    ensures AllOpen(Register(d, o)) && TableOk(Register(d, o).c.table, |d.open| + 1)
  {
    KeyIsFree(d, o);
    var key, setup := Slot(d.c.p, |d.pushed|, o.born + 1), Slot(d.c.p, |d.pushed|, o.born);
    RegisterNew(d, o, key, setup);
    forall i | 0 <= i < |d.open| ensures OpenOk(Register(d, o), d.open[i]) {
      RegisterOld(d, o, i, key, setup);
    }
  }

  lemma RegisterAllKeys(d: Dev, o: Open, key: nat, setup: nat)
    requires AllOwned(d) && FreshKey(d, o, key, setup)
    ensures AllOwned(Register(d, o))
  {
    forall x: nat | Lookup(Register(d, o).c.table, x) != None ensures KeyOwned(Register(d, o), x) {
      RegisterKeys(d, o, key, setup, x);
    }
  }

  lemma SpacedMore(open: seq<Open>, o: Open)
    requires Spaced(open) && forall i :: 0 <= i < |open| ==> open[i].born + 2 <= o.born
    ensures Spaced(open + [o])
  {
  }

  lemma MemoryFrame(c: Core, c': Core, pushed: seq<Trb>)
    requires Memory(c, pushed) && c'.p == c.p && c'.base == c.base
    ensures Memory(c', pushed)
  {
  }

  lemma RegisterFrame(d: Dev, o: Open)
    requires Memory(d.c, d.pushed) && Spaced(d.open) && Fresh(d, o) && d.c.p.writeIndex < |d.c.p.buf|
    ensures Memory(Register(d, o).c, Register(d, o).pushed) && Spaced(Register(d, o).open)
    ensures |Register(d, o).open| == |d.open| + 1
  {
    SpacedMore(d.open, o);
    MemoryFrame(d.c, Register(d, o).c, d.pushed);
  }

  lemma KeyIsFresh(d: Dev, o: Open)
    requires Books(d) && Fresh(d, o)
    ensures Slot(d.c.p, |d.pushed|, o.born) >= 0 && Slot(d.c.p, |d.pushed|, o.born + 1) >= 0
    ensures FreshKey(d, o, Slot(d.c.p, |d.pushed|, o.born + 1), Slot(d.c.p, |d.pushed|, o.born))
  {
    KeyIsFree(d, o);
  }

  lemma RegisterBooks(d: Dev, o: Open)
    requires Books(d) && Fresh(d, o) && |d.open| < MAP_SIZE
    ensures Books(Register(d, o))
  {
    KeyIsFresh(d, o);
    RegisterFrame(d, o);
    RegisterAllOpen(d, o);
    RegisterAllKeys(d, o, Slot(d.c.p, |d.pushed|, o.born + 1), Slot(d.c.p, |d.pushed|, o.born));
  }

  // ---------------------------------------------------------------------------
  // Starting a transfer
  // ---------------------------------------------------------------------------

  /** At most 16 transfers are open, and none of their Setup TRBs has more than N-2 TRBs pushed
      after it, the new ones included. */
  predicate CanStart(d: Dev, buf: Address) {
    var k := if buf != 0 then 3 else 2;
    && |d.open| < MAP_SIZE && k <= |d.c.p.buf| - 1
    && forall i :: 0 <= i < |d.open| ==> |d.pushed| + k <= d.open[i].born + |d.c.p.buf| - 1
  }

  function NewOpen(d: Dev, s: SetupData, buf: Address, len: int, dirIn: bool): Open {
    var ts := Stages(s, buf, len, dirIn);
    Open(s, buf, len, dirIn, |d.pushed|, Payload(ts[0]), Payload(ts[1]))
  }

  function Start(d: Dev, s: SetupData, buf: Address, len: int, dirIn: bool): Dev
    requires CoreOk(d.c)
  {
    Dev(Transfer(d.c, s, buf, len, dirIn), d.pushed + Payloads(Stages(s, buf, len, dirIn)),
        d.open + [NewOpen(d, s, buf, len, dirIn)])
  }

  /** Setup and key stage pushed. */
  lemma TwoPushes(d: Dev, a: Trb, b: Trb)
    requires Books(d) && |d.c.p.buf| >= 3
    requires forall i :: 0 <= i < |d.open| ==> |d.pushed| + 2 <= d.open[i].born + |d.c.p.buf| - 1
    ensures CoreOk(PushDev(d, a).c)
    ensures Books(PushDev(PushDev(d, a), b)) && |PushDev(PushDev(d, a), b).c.p.buf| == |d.c.p.buf|
  {
    PushBooks(d, a);
    PushBooks(PushDev(d, a), b);
  }

  lemma TwoSlots(d: Dev, a: Trb, b: Trb)
    requires CoreOk(d.c) && CoreOk(PushDev(d, a).c) && |PushDev(d, a).c.p.buf| == |PushDev(PushDev(d, a), b).c.p.buf|
    ensures var e := PushDev(PushDev(d, a), b);
            && Slot(e.c.p, |d.pushed| + 2, |d.pushed| + 1) == PushDev(d, a).c.p.writeIndex
            && Slot(e.c.p, |d.pushed| + 2, |d.pushed|) == d.c.p.writeIndex
  {
    PushSlots(d.c, |d.pushed|, a);
    PushSlots(PushDev(d, a).c, |d.pushed| + 1, b);
  }

  lemma FreshAfter(d: Dev, a: Trb, b: Trb, o: Open)
    requires AllOpen(d) && CoreOk(d.c) && CoreOk(PushDev(d, a).c) && |PushDev(PushDev(d, a), b).c.p.buf| >= 3
    requires o.born == |d.pushed| && o.first == Payload(a) && o.second == Payload(b)
    ensures Fresh(PushDev(PushDev(d, a), b), o)
  {
    forall i | 0 <= i < |d.open| ensures d.open[i].born + 2 <= o.born {
      assert OpenOk(d, d.open[i]);
    }
  }

  /** The second TRB's slot is where the map's key will be. */
  lemma SlotOfSecond(d: Dev, a: Trb, b: Trb, o: Open)
    requires CoreOk(d.c) && CoreOk(PushDev(d, a).c) && |PushDev(d, a).c.p.buf| == |PushDev(PushDev(d, a), b).c.p.buf|
    requires o.born == |d.pushed|
    ensures var e := PushDev(PushDev(d, a), b);
            && e.c.table == d.c.table && e.open == d.open && |e.pushed| == |d.pushed| + 2
            && Slot(e.c.p, |e.pushed|, o.born + 1) == PushDev(d, a).c.p.writeIndex
            && Slot(e.c.p, |e.pushed|, o.born) == d.c.p.writeIndex
  {
    TwoSlots(d, a, b);
  }

  lemma RegisteredIs(d: Dev, o: Open)
    requires |d.pushed| == o.born + 2 && d.c.p.writeIndex < |d.c.p.buf| && |d.c.p.buf| >= 3
    ensures Slot(d.c.p, |d.pushed|, o.born + 1) >= 0 && Slot(d.c.p, |d.pushed|, o.born) >= 0
    ensures var e := Register(d, o);
            && e.c.p == d.c.p && e.c.base == d.c.base && e.pushed == d.pushed && e.open == d.open + [o]
            && e.c.table == Added(d.c.table, Slot(d.c.p, |d.pushed|, o.born + 1), Slot(d.c.p, |d.pushed|, o.born))
  {
  }

  /** What registering the second of two TRBs as the key comes to. */
  lemma RegisteredSecond(d: Dev, a: Trb, b: Trb, o: Open)
    requires CoreOk(d.c) && CoreOk(PushDev(d, a).c) && CoreOk(PushDev(PushDev(d, a), b).c) && o.born == |d.pushed|
    requires |PushDev(d, a).c.p.buf| == |PushDev(PushDev(d, a), b).c.p.buf|
    ensures var e := Register(PushDev(PushDev(d, a), b), o);
            && e.pushed == d.pushed + [Payload(a)] + [Payload(b)] && e.open == d.open + [o]
            && e.c.base == d.c.base && e.c.p == PushDev(PushDev(d, a), b).c.p
            && e.c.table == Added(d.c.table, PushDev(d, a).c.p.writeIndex, d.c.p.writeIndex)
  {
    SlotOfSecond(d, a, b, o);
    RegisteredIs(PushDev(PushDev(d, a), b), o);
  }

  lemma FirstTwoStages(d: Dev, a: Trb, b: Trb, o: Open) returns (e: Dev)
    requires Books(d) && |d.open| < MAP_SIZE && |d.c.p.buf| >= 3
    requires o.born == |d.pushed| && o.first == Payload(a) && o.second == Payload(b)
    requires forall i :: 0 <= i < |d.open| ==> |d.pushed| + 2 <= d.open[i].born + |d.c.p.buf| - 1
    ensures Books(e) && |e.c.p.buf| == |d.c.p.buf| && e.open == d.open + [o]
    ensures e.pushed == d.pushed + [Payload(a)] + [Payload(b)]
    ensures CoreOk(PushDev(d, a).c) && e.c.base == d.c.base && e.c.p == PushDev(PushDev(d, a), b).c.p
    ensures e.c.table == Added(d.c.table, PushDev(d, a).c.p.writeIndex, d.c.p.writeIndex)
  {
    TwoPushes(d, a, b);
    var e2 := PushDev(PushDev(d, a), b);
    FreshAfter(d, a, b, o);
    RegisterBooks(e2, o);
    e := Register(e2, o);
    RegisteredSecond(d, a, b, o);
  }

  /** The effect of a transfer, stage by stage. */
  lemma StartIs(d: Dev, s: SetupData, buf: Address, len: int, dirIn: bool, e: Dev)
    requires CoreOk(d.c) && CoreOk(PushDev(d, Stages(s, buf, len, dirIn)[0]).c) && CoreOk(e.c)
    requires var ts := Stages(s, buf, len, dirIn);
             var d1 := PushDev(d, ts[0]);
             && e.open == d.open + [NewOpen(d, s, buf, len, dirIn)]
             && e.pushed == d.pushed + [Payload(ts[0])] + [Payload(ts[1])]
             && e.c.base == d.c.base && e.c.p == PushDev(d1, ts[1]).c.p
             && e.c.table == Added(d.c.table, d1.c.p.writeIndex, d.c.p.writeIndex)
    ensures Start(d, s, buf, len, dirIn) == if buf != 0 then PushDev(e, Stages(s, buf, len, dirIn)[2]) else e
  {
    var ts := Stages(s, buf, len, dirIn);
    if buf != 0 {
      assert Payloads(ts) == [Payload(ts[0])] + [Payload(ts[1])] + [Payload(ts[2])];
    } else {
      assert Payloads(ts) == [Payload(ts[0])] + [Payload(ts[1])];
    }
  }

  lemma StillRoom(d: Dev, e: Dev, o: Open)
    requires |d.c.p.buf| >= 4 && |e.c.p.buf| == |d.c.p.buf| && |e.pushed| == |d.pushed| + 2
    requires e.open == d.open + [o] && o.born == |d.pushed|
    requires forall i :: 0 <= i < |d.open| ==> |d.pushed| + 3 <= d.open[i].born + |d.c.p.buf| - 1
    ensures RoomForPush(e)
  {
  }

  lemma StartBooks(d: Dev, s: SetupData, buf: Address, len: int, dirIn: bool)
    requires Books(d) && CanStart(d, buf)
    ensures Books(Start(d, s, buf, len, dirIn)) && |Start(d, s, buf, len, dirIn).c.p.buf| == |d.c.p.buf|
  {
    var ts := Stages(s, buf, len, dirIn);
    var e := FirstTwoStages(d, ts[0], ts[1], NewOpen(d, s, buf, len, dirIn));
    StartIs(d, s, buf, len, dirIn, e);
    if buf != 0 {
      StillRoom(d, e, NewOpen(d, s, buf, len, dirIn));
      PushBooks(e, ts[2]);
    }
  }

  lemma NewMade(d: Dev, s: SetupData, buf: Address, len: int, dirIn: bool)
    requires CoreOk(d.c) && forall i :: 0 <= i < |d.open| ==> Made(d.open[i])
    ensures var e := Start(d, s, buf, len, dirIn); forall i :: 0 <= i < |e.open| ==> Made(e.open[i])
  {
  }

  lemma StartInv(d: Dev, s: SetupData, buf: Address, len: int, dirIn: bool)
    requires Inv(d) && CanStart(d, buf)
    ensures Inv(Start(d, s, buf, len, dirIn)) && |Start(d, s, buf, len, dirIn).c.p.buf| == |d.c.p.buf|
  {
    StartBooks(d, s, buf, len, dirIn);
    NewMade(d, s, buf, len, dirIn);
  }

  // ---------------------------------------------------------------------------
  // Completions
  // ---------------------------------------------------------------------------

  function Without(open: seq<Open>, i: nat): seq<Open>
    requires i < |open|
  {
    open[..i] + open[i + 1..]
  }

  /** The slot named by the completion event of an open transfer. */
  function EventSlot(d: Dev, i: nat): int
    requires i < |d.open|
  {
    Slot(d.c.p, |d.pushed|, d.open[i].born + 1)
  }

  function Complete(d: Dev, i: nat, code: nat, residual: nat): (Dev, Outcome)
    requires i < |d.open| && 0 <= EventSlot(d, i) < |d.c.p.buf|
  {
    var (c, outcome) := OnTransferEvent(d.c, EventSlot(d, i), code, residual);
    (Dev(c, d.pushed, Without(d.open, i)), outcome)
  }

  lemma EventFound(d: Dev, i: nat)
    requires Memory(d.c, d.pushed) && i < |d.open| && OpenOk(d, d.open[i])
    ensures 0 <= EventSlot(d, i) < |d.c.p.buf| && 0 <= Slot(d.c.p, |d.pushed|, d.open[i].born) < |d.c.p.buf|
    ensures Lookup(d.c.table, EventSlot(d, i)) == Some(Slot(d.c.p, |d.pushed|, d.open[i].born))
    ensures Payload(d.c.p.buf[EventSlot(d, i)]) == d.open[i].second
    ensures Payload(d.c.p.buf[Slot(d.c.p, |d.pushed|, d.open[i].born)]) == d.open[i].first
  {
    var o := d.open[i];
    ReadBack(d.c, d.pushed, o.born);
    ReadBack(d.c, d.pushed, o.born + 1);
  }

  /** Reading a TRB does not depend on its cycle bit. */
  lemma ReadPayload(t: Trb)
    ensures SetupOf(Payload(t)) == SetupOf(t) && BufferOf(Payload(t)) == BufferOf(t)
    ensures LengthOf(Payload(t)) == LengthOf(t) && Payload(t).ctl.trbType == t.ctl.trbType
  {
  }

  lemma MadeReads(o: Open)
    requires Made(o)
    ensures SetupOf(o.first) == o.setup
    ensures o.second.ctl.trbType == if o.buf != 0 then DATA_STAGE else STATUS_STAGE
    ensures o.buf != 0 ==> BufferOf(o.second) == o.buf && LengthOf(o.second) == o.len % LENGTH_LIMIT
  {
    SetupRoundTrip(o.setup, if o.buf == 0 then 0 else if o.dirIn then 3 else 2);
    BufferRoundTrip(o.buf, o.len, o.dirIn);
  }

  /** What an event for a control transfer's TRB comes to, given what the two TRBs read as. */
  lemma EventOutcome(c: Core, slot: nat, setup: nat, code: nat, residual: nat, o: Open)
    requires slot < |c.p.buf| && setup < |c.p.buf| && Succeeded(code) && Lookup(c.table, slot) == Some(setup)
    requires SetupOf(c.p.buf[setup]) == o.setup
    requires c.p.buf[slot].ctl.trbType == if o.buf != 0 then DATA_STAGE else STATUS_STAGE
    requires o.buf != 0 ==> BufferOf(c.p.buf[slot]) == o.buf && LengthOf(c.p.buf[slot]) == o.len % LENGTH_LIMIT
    ensures OnTransferEvent(c, slot, code, residual) == (c.(table := Removed(c.table, slot)), Expected(o, residual))
  {
  }

  /** Both TRBs of an open transfer still read as they were made. */
  lemma OpenReads(d: Dev, i: nat)
    requires Memory(d.c, d.pushed) && i < |d.open| && OpenOk(d, d.open[i]) && Made(d.open[i])
    ensures 0 <= EventSlot(d, i) < |d.c.p.buf| && 0 <= Slot(d.c.p, |d.pushed|, d.open[i].born) < |d.c.p.buf|
    ensures var o, t := d.open[i], d.c.p.buf[EventSlot(d, i)];
            && SetupOf(d.c.p.buf[Slot(d.c.p, |d.pushed|, o.born)]) == o.setup
            && t.ctl.trbType == (if o.buf != 0 then DATA_STAGE else STATUS_STAGE)
            && (o.buf != 0 ==> BufferOf(t) == o.buf && LengthOf(t) == o.len % LENGTH_LIMIT)
  {
    EventFound(d, i);
    MadeReads(d.open[i]);
    ReadPayload(d.c.p.buf[EventSlot(d, i)]);
    ReadPayload(d.c.p.buf[Slot(d.c.p, |d.pushed|, d.open[i].born)]);
  }

  lemma CompleteIs(d: Dev, i: nat, setup: nat, code: nat, residual: nat)
    requires i < |d.open| && 0 <= EventSlot(d, i) < |d.c.p.buf| && setup < |d.c.p.buf| && Succeeded(code)
    requires var o, t := d.open[i], d.c.p.buf[EventSlot(d, i)];
             && Lookup(d.c.table, EventSlot(d, i)) == Some(setup) && SetupOf(d.c.p.buf[setup]) == o.setup
             && t.ctl.trbType == (if o.buf != 0 then DATA_STAGE else STATUS_STAGE)
             && (o.buf != 0 ==> BufferOf(t) == o.buf && LengthOf(t) == o.len % LENGTH_LIMIT)
    ensures Complete(d, i, code, residual) ==
            (Dev(d.c.(table := Removed(d.c.table, EventSlot(d, i))), d.pushed, Without(d.open, i)),
             Expected(d.open[i], residual))
  {
    EventOutcome(d.c, EventSlot(d, i), setup, code, residual, d.open[i]);
  }

  /** No completion is mismatched: it calls back with the setup data and the buffer its own
      transfer was submitted with. */
  lemma CompletionMatches(d: Dev, i: nat, code: nat, residual: nat)
    requires Memory(d.c, d.pushed) && i < |d.open| && OpenOk(d, d.open[i]) && Made(d.open[i]) && Succeeded(code)
    ensures 0 <= EventSlot(d, i) < |d.c.p.buf|
    ensures Complete(d, i, code, residual).1 == Expected(d.open[i], residual)
    ensures Complete(d, i, code, residual).0.c == d.c.(table := Removed(d.c.table, EventSlot(d, i)))
  {
    OpenReads(d, i);
    EventFound(d, i);
    CompleteIs(d, i, Slot(d.c.p, |d.pushed|, d.open[i].born), code, residual);
  }

  lemma RemovedUsed(t: seq<Cell<nat, nat>>, key: nat)
    requires Lookup(t, key) != None
    ensures Used(Removed(t, key)) == Used(t) - 1
  {
    var i := FindKey(t, key, 0);
    UsedUpdate(t, i, t[i].(key := None));
  }

  /** An open transfer taken off the books together with its key. */
  function Retire(d: Dev, i: nat): Dev
    requires i < |d.open| && EventSlot(d, i) >= 0
  {
    Dev(d.c.(table := Removed(d.c.table, EventSlot(d, i))), d.pushed, Without(d.open, i))
  }

  lemma OtherKeys(d: Dev, i: nat, j: nat)
    requires Books(d) && i < |d.open| && j < |d.open| && i != j
    ensures EventSlot(d, i) != EventSlot(d, j)
  {
    assert OpenOk(d, d.open[i]) && OpenOk(d, d.open[j]);
    assert d.open[i].born != d.open[j].born by {
      if i < j { assert d.open[i].born + 2 <= d.open[j].born; } else { assert d.open[j].born + 2 <= d.open[i].born; }
    }
    SlotsDiffer(d.c.p, |d.pushed|, d.open[j].born + 1, d.open[i].born + 1);
  }

  lemma WithoutIs(open: seq<Open>, i: nat)
    requires i < |open|
    ensures forall j :: 0 <= j < |open| && j != i ==> open[j] in Without(open, i)
    ensures forall j :: 0 <= j < |open| - 1 ==> Without(open, i)[j] == open[if j < i then j else j + 1]
  {
    forall j | 0 <= j < |open| && j != i ensures open[j] in Without(open, i) {
      assert Without(open, i)[if j < i then j else j - 1] == open[j];
    }
  }

  lemma RemovedOther(t: seq<Cell<nat, nat>>, key: nat)
    requires Unique(t) && Lookup(t, key) != None
    ensures |Removed(t, key)| == |t| && Unique(Removed(t, key)) && Used(Removed(t, key)) == Used(t) - 1
    ensures Lookup(Removed(t, key), key) == None
    ensures forall x: nat :: x != key ==> Lookup(Removed(t, key), x) == Lookup(t, x)
  {
    LookupAfterRemove(t, key);
    RemovedUsed(t, key);
  }

  lemma RetireOpen(d: Dev, i: nat, j: nat)
    requires Books(d) && i < |d.open| && j < |d.open| && i != j && EventSlot(d, i) >= 0
    ensures OpenOk(Retire(d, i), d.open[j])
  {
    OtherKeys(d, i, j);
    EventFound(d, j);
    LookupAfterRemove(d.c.table, EventSlot(d, i));
    OpenFrame(d, Retire(d, i), d.open[j]);
  }

  lemma RetireKeys(d: Dev, i: nat, x: nat)
    requires i < |d.open| && EventSlot(d, i) >= 0 && x != EventSlot(d, i) && KeyOwned(d, x)
    ensures KeyOwned(Retire(d, i), x)
  {
    WithoutIs(d.open, i);
    OwnedFrame(d, Retire(d, i), x);
  }

  lemma RetireAllOpen(d: Dev, i: nat)
    requires Books(d) && i < |d.open| && EventSlot(d, i) >= 0
    ensures AllOpen(Retire(d, i))
  {
    var e := Retire(d, i);
    WithoutIs(d.open, i);
    forall j | 0 <= j < |e.open| ensures OpenOk(e, e.open[j]) {
      RetireOpen(d, i, if j < i then j else j + 1);
    }
  }

  lemma RetireAllKeys(d: Dev, i: nat)
    requires AllOwned(d) && Unique(d.c.table) && i < |d.open| && EventSlot(d, i) >= 0
    requires Lookup(d.c.table, EventSlot(d, i)) != None
    ensures AllOwned(Retire(d, i))
  {
    RemovedOther(d.c.table, EventSlot(d, i));
    forall x: nat | Lookup(Retire(d, i).c.table, x) != None ensures KeyOwned(Retire(d, i), x) {
      RetireKeys(d, i, x);
    }
  }

  lemma RetireFrame(d: Dev, i: nat)
    requires Memory(d.c, d.pushed) && Spaced(d.open) && TableOk(d.c.table, |d.open|)
    requires i < |d.open| && EventSlot(d, i) >= 0 && Lookup(d.c.table, EventSlot(d, i)) != None
    ensures Memory(Retire(d, i).c, Retire(d, i).pushed) && Spaced(Retire(d, i).open)
    ensures TableOk(Retire(d, i).c.table, |Retire(d, i).open|)
  {
    RemovedOther(d.c.table, EventSlot(d, i));
    WithoutIs(d.open, i);
  }

  lemma RetireBooks(d: Dev, i: nat)
    requires Books(d) && i < |d.open| && EventSlot(d, i) >= 0
    ensures Books(Retire(d, i))
  {
    EventFound(d, i);
    RetireFrame(d, i);
    RetireAllOpen(d, i);
    RetireAllKeys(d, i);
  }

  lemma RetireInv(d: Dev, i: nat)
    requires Inv(d) && i < |d.open| && EventSlot(d, i) >= 0
    ensures Inv(Retire(d, i))
  {
    RetireBooks(d, i);
    WithoutIs(d.open, i);
  }

  lemma CompletionInv(d: Dev, i: nat, code: nat, residual: nat)
    requires Inv(d) && i < |d.open| && Succeeded(code)
    ensures 0 <= EventSlot(d, i) < |d.c.p.buf| && Inv(Complete(d, i, code, residual).0)
  {
    CompletionMatches(d, i, code, residual);
    RetireInv(d, i);
  }

  /** The bookkeeping survives the end of a transfer exactly when it ended well: a failed one
      leaves its entry behind. */
  lemma CompletionKeepsInvExactly(d: Dev, i: nat, code: nat, residual: nat)
    requires Inv(d) && i < |d.open|
    ensures 0 <= EventSlot(d, i) < |d.c.p.buf|
    ensures Inv(Complete(d, i, code, residual).0) <==> Succeeded(code)
  {
    EventFound(d, i);
    if Succeeded(code) {
      CompletionInv(d, i, code, residual);
    } else {
      assert Complete(d, i, code, residual).0.c == d.c;
    }
  }

  /**
   * The outcome of any transfer event: refused exactly unless the code is 1 (success) or 13 (short
   * packet), with nothing changed; an interrupt for a Normal TRB; without an entry under the TRB's
   * slot an error; and otherwise the entry is gone and a Data or Status TRB completes the transfer.
   */
  lemma OutcomeExactly(c: Core, slot: nat, code: nat, residual: nat)
    requires slot < |c.p.buf|
    ensures var (e, outcome) := OnTransferEvent(c, slot, code, residual);
            var good, kind := code == 1 || code == 13, c.p.buf[slot].ctl.trbType;
            && (outcome == TransferFailed <==> !good) && e.p == c.p && e.base == c.base
            && (outcome.InterruptCompleted? <==> good && kind == 1)
            && (outcome == NoCorrespondingSetupStage <==> good && kind != 1 && Lookup(c.table, slot) == None)
            && e.table == (if good && kind != 1 then Removed(c.table, slot) else c.table)
            && (outcome.ControlCompleted? <==>
                  good && (kind == 3 || kind == 4) && Lookup(c.table, slot) != None && Lookup(c.table, slot).value < |c.p.buf|)
  {
  }

  /** The length called back is the requested one minus the residual exactly for requests below
      2^17, the width of the length field. */
  lemma LengthExact(o: Open, residual: nat)
    requires o.buf != 0
    ensures Expected(o, residual).len == o.len - residual <==> 0 <= o.len < LENGTH_LIMIT
  {
  }

  /** A completed interrupt transfer on the same ring gets its buffer back and leaves the map
      alone, as long as its TRB is in the window. */
  lemma InterruptCompletes(d: Dev, j: nat, buf: Address, len: int, code: nat, residual: nat)
    requires Inv(d) && InWindow(d.c.p, |d.pushed|, j) && d.pushed[j] == Payload(MakeNormal(buf, len)) && Succeeded(code)
    ensures 0 <= Slot(d.c.p, |d.pushed|, j) < |d.c.p.buf|
    ensures OnTransferEvent(d.c, Slot(d.c.p, |d.pushed|, j), code, residual)
         == (d.c, InterruptCompleted(buf, len % LENGTH_LIMIT - residual))
  {
    ReadBack(d.c, d.pushed, j);
    BufferRoundTrip(buf, len, false);
    ReadPayload(d.c.p.buf[Slot(d.c.p, |d.pushed|, j)]);
  }

  // ---------------------------------------------------------------------------
  // Whole runs
  // ---------------------------------------------------------------------------

  datatype Op =
    | Submit(setup: SetupData, buf: Address, len: int, dirIn: bool)
    | SubmitInterrupt(ibuf: Address, ilen: int)
    | Completion(i: nat, code: nat, residual: nat)

  /** The hypotheses: transfers succeed, at most 16 are open, and no open Setup TRB is more than
      N-2 pushes old. */
  predicate Legal(d: Dev, op: Op) {
    match op
    case Submit(_, buf, _, _) => CanStart(d, buf)
    case SubmitInterrupt(_, _) => RoomForPush(d)
    case Completion(i, code, _) => i < |d.open| && Succeeded(code) && 0 <= EventSlot(d, i) < |d.c.p.buf|
  }

  function Apply(d: Dev, op: Op): Dev
    requires CoreOk(d.c) && Legal(d, op)
  {
    match op
    case Submit(s, buf, len, dirIn) => Start(d, s, buf, len, dirIn)
    case SubmitInterrupt(buf, len) => PushDev(d, MakeNormal(buf, len))
    case Completion(i, code, residual) => Complete(d, i, code, residual).0
  }

  /** Along a legal run every completion calls back what its transfer was submitted with. */
  ghost predicate AllMatch(d: Dev, ops: seq<Op>)
    decreases |ops|
  {
    if ops == [] || !CoreOk(d.c) || !Legal(d, ops[0]) then true
    else
      && (ops[0].Completion? ==>
            Complete(d, ops[0].i, ops[0].code, ops[0].residual).1 == Expected(d.open[ops[0].i], ops[0].residual))
      && AllMatch(Apply(d, ops[0]), ops[1..])
  }

  lemma ApplyInv(d: Dev, op: Op)
    requires Inv(d) && Legal(d, op)
    ensures Inv(Apply(d, op))
  {
    match op
    case Submit(s, buf, len, dirIn) => StartInv(d, s, buf, len, dirIn);
    case SubmitInterrupt(buf, len) => PushBooks(d, MakeNormal(buf, len));
    case Completion(i, code, residual) => CompletionInv(d, i, code, residual);
  }

  /** Over any sequence of operations, across any number of laps of the ring. */
  lemma {:induction false} RunMatches(d: Dev, ops: seq<Op>)
    requires Inv(d)
    ensures AllMatch(d, ops)
    decreases |ops|
  {
    if ops != [] && Legal(d, ops[0]) {
      if ops[0].Completion? {
        CompletionMatches(d, ops[0].i, ops[0].code, ops[0].residual);
      }
      ApplyInv(d, ops[0]);
      RunMatches(Apply(d, ops[0]), ops[1..]);
    }
  }

  // ---------------------------------------------------------------------------
  // The driver's device object
  // ---------------------------------------------------------------------------

  datatype Error = Success | InvalidEndpointNumber | TransferRingNotSet

  /** A device with the ring of one endpoint, null until it is allocated. */
  class Device {
    var transferRing: R.Ring?
    var setupStageMap: ArrayMap<nat, nat>

    ghost predicate Valid()
      reads this, setupStageMap, if transferRing == null then {} else {transferRing, transferRing.buf}
    {
      transferRing != null ==> transferRing.Valid()
    }

    ghost function View(): Core
      requires transferRing != null
      reads this, setupStageMap, setupStageMap.table, transferRing, transferRing.buf
    {
      Core(transferRing.View(), transferRing.address, setupStageMap.table[..])
    }

    constructor ()
      ensures Valid() && transferRing == null && fresh(setupStageMap) && fresh(setupStageMap.table)
      ensures setupStageMap.table[..] == seq(MAP_SIZE, i => Cell(None, 0))
    {
      transferRing := null;
      setupStageMap := new ArrayMap(MAP_SIZE, 0);
    }

    /** `place` and `memory` are what the pool allocator returned for the ring object and its
        buffer, 0 for a null pointer; a missing buffer goes unnoticed. */
    method AllocTransferRing(size: nat, place: nat, memory: nat)
      requires memory < TWO_TO_THE_64
      modifies this`transferRing
      ensures place == 0 ==> Valid() && transferRing == null
      ensures place != 0 ==> transferRing != null && fresh(transferRing)
      ensures place != 0 && memory != 0 ==>
                && fresh(transferRing.buf)
                && View() == Core(R.Init(memory, size).p, memory, old(setupStageMap.table[..]))
                && (Valid() <==> size >= 3)
    {
      if place == 0 {
        transferRing := null;
        return;
      }
      var ring := new R.Ring();
      var _ := ring.Initialize(size, memory);
      transferRing := ring;
    }

    method ControlIn(epNumber: int, setup: SetupData, buf: Address, len: int) returns (err: Error)
      requires Valid()
      modifies if transferRing == null then {} else {transferRing, transferRing.buf, setupStageMap.table}
      ensures err == if epNumber < 0 || 15 < epNumber then InvalidEndpointNumber
                     else if transferRing == null then TransferRingNotSet else Success
      ensures Valid() && (transferRing != null ==>
                transferRing.buf == old(transferRing.buf) &&
                View() == if err == Success then Transfer(old(View()), setup, buf, len, true) else old(View()))
    {
      if epNumber < 0 || 15 < epNumber {
        return InvalidEndpointNumber;
      }
      if transferRing == null {
        return TransferRingNotSet;
      }
      if buf != 0 {
        var setupPos := transferRing.Push(MakeSetupStage(setup, 3));
        var dataPos := transferRing.Push(MakeDataStage(buf, len, true));
        var _ := transferRing.Push(MakeStatusStage(false, false));
        setupStageMap.Put(dataPos, setupPos);
      } else {
        var setupPos := transferRing.Push(MakeSetupStage(setup, 0));
        var statusPos := transferRing.Push(MakeStatusStage(true, true));
        setupStageMap.Put(statusPos, setupPos);
      }
      return Success;
    }

    method ControlOut(epNumber: int, setup: SetupData, buf: Address, len: int) returns (err: Error)
      requires Valid()
      modifies if transferRing == null then {} else {transferRing, transferRing.buf, setupStageMap.table}
      ensures err == if epNumber < 0 || 15 < epNumber then InvalidEndpointNumber
                     else if transferRing == null then TransferRingNotSet else Success
      ensures Valid() && (transferRing != null ==>
                transferRing.buf == old(transferRing.buf) &&
                View() == if err == Success then Transfer(old(View()), setup, buf, len, false) else old(View()))
    {
      if epNumber < 0 || 15 < epNumber {
        return InvalidEndpointNumber;
      }
      if transferRing == null {
        return TransferRingNotSet;
      }
      if buf != 0 {
        var setupPos := transferRing.Push(MakeSetupStage(setup, 2));
        var dataPos := transferRing.Push(MakeDataStage(buf, len, false));
        var _ := transferRing.Push(MakeStatusStage(true, false));
        setupStageMap.Put(dataPos, setupPos);
      } else {
        var setupPos := transferRing.Push(MakeSetupStage(setup, 0));
        var statusPos := transferRing.Push(MakeStatusStage(true, true));
        setupStageMap.Put(statusPos, setupPos);
      }
      return Success;
    }

    method InterruptIn(buf: Address, len: int) returns (err: Error)
      requires Valid()
      modifies if transferRing == null then {} else {transferRing, transferRing.buf}
      ensures err == if transferRing == null then TransferRingNotSet else Success
      ensures Valid() && (transferRing != null ==>
                View() == old(View()).(p := R.PushTo(old(View()).p, MakeNormal(buf, len), old(View()).base)))
    {
      if transferRing == null {
        return TransferRingNotSet;
      }
      var _ := transferRing.Push(MakeNormal(buf, len));
      return Success;
    }

    method OnTransferEventReceived(slot: nat, code: nat, residual: nat) returns (outcome: Outcome)
      requires Valid() && transferRing != null && slot < transferRing.buf.Length
      modifies setupStageMap.table
      ensures Valid() && (View(), outcome) == OnTransferEvent(old(View()), slot, code, residual)
    {
      if code != SUCCESS && code != SHORT_PACKET {
        return TransferFailed;
      }
      var issuer := transferRing.buf[slot];
      if issuer.ctl.trbType == NORMAL {
        return InterruptCompleted(BufferOf(issuer), LengthOf(issuer) - residual);
      }
      var found := setupStageMap.Get(slot);
      if found.None? {
        return NoCorrespondingSetupStage;
      }
      setupStageMap.Delete(slot);
      if found.value >= transferRing.buf.Length {
        return NotImplemented;
      }
      var setup := SetupOf(transferRing.buf[found.value]);
      if issuer.ctl.trbType == DATA_STAGE {
        return ControlCompleted(setup, BufferOf(issuer), LengthOf(issuer) - residual);
      } else if issuer.ctl.trbType == STATUS_STAGE {
        return ControlCompleted(setup, 0, 0);
      }
      return NotImplemented;
    }
  }
}
