/** Control transfers that may fail. A failed one leaves its entry in the map, but an entry's
    key fixes its value, so a stale entry can only fill the map, never mislead. */
module ControlFailures {
  import opened Wrappers
  import opened Trb
  import opened ArrayMaps
  import opened ControlTransfers
  import R = TransferRing

  /** The data slot before one, round the ring. */
  function Before(slot: nat, n: nat): int {
    if slot == 0 then n - 2 else slot - 1
  }

  /** Every entry leads to the slot before its key, whoever made it. */
  ghost predicate Right(t: seq<Cell<nat, nat>>, n: nat) {
    forall i :: 0 <= i < |t| && t[i].key.Some? ==> t[i].value == Before(t[i].key.value, n)
  }

  ghost predicate AllMade(open: seq<Open>) {
    forall i :: 0 <= i < |open| ==> Made(open[i])
  }

  /** The books as far as matching needs them: nothing is asked of how full the map is. */
  ghost predicate Sound(d: Dev) {
    Memory(d.c, d.pushed) && Right(d.c.table, |d.c.p.buf|) && Spaced(d.open) && AllOpen(d) && AllMade(d.open)
  }

  /** An entry can be made, or is there already. */
  predicate CanPut(t: seq<Cell<nat, nat>>, key: nat) {
    FindFree(t, 0) < |t| || Lookup(t, key) != None
  }

  lemma SlotBefore(p: R.Producer, total: nat, j: nat)
    requires p.writeIndex < |p.buf| && InWindow(p, total, j) && j + 1 < total
    requires Slot(p, total, j + 1) >= 0
    ensures Slot(p, total, j) == Before(Slot(p, total, j + 1), |p.buf|)
  {
  }

  lemma RightLookup(t: seq<Cell<nat, nat>>, n: nat, key: nat)
    requires Right(t, n) && Lookup(t, key) != None
    ensures Before(key, n) >= 0 && Lookup(t, key) == Some(Before(key, n))
  {
  }

  /** A put is found again exactly when an entry could be made or was there. */
  lemma PutExactly(t: seq<Cell<nat, nat>>, n: nat, key: nat)
    requires Right(t, n) && Before(key, n) >= 0
    ensures Right(Added(t, key, Before(key, n)), n)
    ensures Lookup(Added(t, key, Before(key, n)), key) == Some(Before(key, n) as nat) <==> CanPut(t, key)
  {
    LookupAfterAdd(t, key, Before(key, n));
    if Lookup(t, key) != None { RightLookup(t, n, key); }
  }

  lemma RemovedRight(t: seq<Cell<nat, nat>>, n: nat, key: nat)
    requires Right(t, n)
    ensures Right(Removed(t, key), n)
    ensures forall other: nat :: other != key ==> Lookup(Removed(t, key), other) == Lookup(t, other)
  {
    forall other: nat | other != key ensures Lookup(Removed(t, key), other) == Lookup(t, other) {
      SameLookup(t, Removed(t, key), other);
    }
  }

  // ---------------------------------------------------------------------------
  // Starting
  // ---------------------------------------------------------------------------

  /** The window as before; the map needs room for this one key. */
  ghost predicate CanSubmit(d: Dev, s: SetupData, buf: Address, len: int, dirIn: bool) {
    var k := if buf != 0 then 3 else 2;
    && CoreOk(d.c) && k <= |d.c.p.buf| - 1
    && (forall i :: 0 <= i < |d.open| ==> |d.pushed| + k <= d.open[i].born + |d.c.p.buf| - 1)
    && CanPut(d.c.table, R.PushTo(d.c.p, Stages(s, buf, len, dirIn)[0], d.c.base).writeIndex)
  }

  lemma PushSound(d: Dev, t: Trb)
    requires Sound(d) && RoomForPush(d)
    ensures Sound(PushDev(d, t)) && |PushDev(d, t).c.p.buf| == |d.c.p.buf|
  {
    PushMemory(d.c, d.pushed, t);
    PushAllOpen(d, t);
  }

  /** The two TRBs pushed last have their slots, different from those of older transfers. */
  lemma NewSlots(d: Dev, o: Open)
    requires Memory(d.c, d.pushed) && AllOpen(d) && Fresh(d, o)
    ensures 0 <= Slot(d.c.p, |d.pushed|, o.born) && 0 <= Slot(d.c.p, |d.pushed|, o.born + 1)
    ensures Slot(d.c.p, |d.pushed|, o.born) == Before(Slot(d.c.p, |d.pushed|, o.born + 1), |d.c.p.buf|)
    ensures forall i :: 0 <= i < |d.open| ==>
              Slot(d.c.p, |d.pushed|, d.open[i].born + 1) != Slot(d.c.p, |d.pushed|, o.born + 1)
  {
    ReadBack(d.c, d.pushed, o.born);
    ReadBack(d.c, d.pushed, o.born + 1);
    SlotBefore(d.c.p, |d.pushed|, o.born);
    forall i | 0 <= i < |d.open|
      ensures Slot(d.c.p, |d.pushed|, d.open[i].born + 1) != Slot(d.c.p, |d.pushed|, o.born + 1)
    {
      assert OpenOk(d, d.open[i]);
      SlotsDiffer(d.c.p, |d.pushed|, d.open[i].born + 1, o.born + 1);
    }
  }

  lemma AddKeepsOpen(d: Dev, e: Dev, o: Open, key: nat, setup: nat)
    requires OpenOk(d, o) && e.c.p == d.c.p && e.pushed == d.pushed && e.c.table == Added(d.c.table, key, setup)
    requires Slot(d.c.p, |d.pushed|, o.born + 1) != key
    ensures OpenOk(e, o)
  {
    AddedOther(d.c.table, key, setup, Slot(d.c.p, |d.pushed|, o.born + 1));
    OpenFrame(d, e, o);
  }

  /** What registering does, with the new transfer's slots by name. */
  ghost predicate Registers(d: Dev, e: Dev, o: Open, key: nat, setup: nat) {
    && Fresh(d, o) && d.c.p.writeIndex < |d.c.p.buf| && e == Register(d, o) && e.c.table == Added(d.c.table, key, setup)
    && Slot(d.c.p, |d.pushed|, o.born + 1) == key && Slot(d.c.p, |d.pushed|, o.born) == setup
  }

  lemma RegisterAll(d: Dev, e: Dev, o: Open, key: nat, setup: nat)
    requires AllOpen(d) && d.c.p.writeIndex < |d.c.p.buf| && |d.c.p.buf| >= 3 && |d.pushed| >= 2
    requires Registers(d, e, o, key, setup) && Lookup(e.c.table, key) == Some(setup)
    requires forall i :: 0 <= i < |d.open| ==> Slot(d.c.p, |d.pushed|, d.open[i].born + 1) != key
    ensures AllOpen(e)
  {
    forall i | 0 <= i < |e.open| ensures OpenOk(e, e.open[i]) {
      if i < |d.open| {
        assert OpenOk(d, d.open[i]);
        AddKeepsOpen(d, e, d.open[i], key, setup);
      }
    }
  }

  lemma MoreMade(open: seq<Open>, o: Open)
    requires AllMade(open) && Made(o)
    ensures AllMade(open + [o])
  {
  }

  lemma RegisterRight(d: Dev, o: Open, key: nat, setup: nat)
    requires |d.pushed| >= 2 && d.c.p.writeIndex < |d.c.p.buf| && |d.c.p.buf| >= 3
    requires Right(d.c.table, |d.c.p.buf|) && Registers(d, Register(d, o), o, key, setup)
    requires setup == Before(key, |d.c.p.buf|) && CanPut(d.c.table, key)
    ensures Right(Register(d, o).c.table, |d.c.p.buf|) && Lookup(Register(d, o).c.table, key) == Some(setup)
  {
    PutExactly(d.c.table, |d.c.p.buf|, key);
  }

  lemma RegistersNow(d: Dev, o: Open, key: nat, setup: nat)
    requires Fresh(d, o) && d.c.p.writeIndex < |d.c.p.buf|
    requires Slot(d.c.p, |d.pushed|, o.born + 1) == key && Slot(d.c.p, |d.pushed|, o.born) == setup
    ensures Registers(d, Register(d, o), o, key, setup)
  {
  }

  lemma RegisterSound(d: Dev, o: Open)
    requires Sound(d) && Fresh(d, o) && Made(o)
    requires Slot(d.c.p, |d.pushed|, o.born + 1) >= 0 ==> CanPut(d.c.table, Slot(d.c.p, |d.pushed|, o.born + 1))
    ensures Sound(Register(d, o))
  {
    NewSlots(d, o);
    var key, setup := Slot(d.c.p, |d.pushed|, o.born + 1), Slot(d.c.p, |d.pushed|, o.born);
    RegistersNow(d, o, key, setup);
    RegisterRight(d, o, key, setup);
    RegisterAll(d, Register(d, o), o, key, setup);
    RegisterFrame(d, o);
    MoreMade(d.open, o);
  }

  lemma TwoPushesSound(d: Dev, a: Trb, b: Trb)
    requires Sound(d) && |d.c.p.buf| >= 3
    requires forall i :: 0 <= i < |d.open| ==> |d.pushed| + 2 <= d.open[i].born + |d.c.p.buf| - 1
    ensures CoreOk(PushDev(d, a).c)
    ensures Sound(PushDev(PushDev(d, a), b)) && |PushDev(PushDev(d, a), b).c.p.buf| == |d.c.p.buf|
  {
    PushSound(d, a);
    PushSound(PushDev(d, a), b);
  }

  lemma FirstTwoSound(d: Dev, a: Trb, b: Trb, o: Open) returns (e: Dev)
    requires Sound(d) && |d.c.p.buf| >= 3 && Made(o)
    requires o.born == |d.pushed| && o.first == Payload(a) && o.second == Payload(b)
    requires forall i :: 0 <= i < |d.open| ==> |d.pushed| + 2 <= d.open[i].born + |d.c.p.buf| - 1
    requires CanPut(d.c.table, R.PushTo(d.c.p, a, d.c.base).writeIndex)
    ensures Sound(e) && |e.c.p.buf| == |d.c.p.buf| && e.open == d.open + [o]
    ensures e.pushed == d.pushed + [Payload(a)] + [Payload(b)]
    ensures CoreOk(PushDev(d, a).c) && e.c.base == d.c.base && e.c.p == PushDev(PushDev(d, a), b).c.p
    ensures e.c.table == Added(d.c.table, PushDev(d, a).c.p.writeIndex, d.c.p.writeIndex)
  {
    TwoPushesSound(d, a, b);
    var e2 := PushDev(PushDev(d, a), b);
    FreshAfter(d, a, b, o);
    SlotOfSecond(d, a, b, o);
    RegisterSound(e2, o);
    e := Register(e2, o);
    RegisteredSecond(d, a, b, o);
  }

  lemma StartSound(d: Dev, s: SetupData, buf: Address, len: int, dirIn: bool)
    requires Sound(d) && CanSubmit(d, s, buf, len, dirIn)
    ensures Sound(Start(d, s, buf, len, dirIn))
  {
    var ts := Stages(s, buf, len, dirIn);
    var e := FirstTwoSound(d, ts[0], ts[1], NewOpen(d, s, buf, len, dirIn));
    StartIs(d, s, buf, len, dirIn, e);
    if buf != 0 {
      StillRoom(d, e, NewOpen(d, s, buf, len, dirIn));
      PushSound(e, ts[2]);
    }
  }

  // ---------------------------------------------------------------------------
  // Completing
  // ---------------------------------------------------------------------------

  lemma KeysDiffer(d: Dev, i: nat, j: nat)
    requires Memory(d.c, d.pushed) && AllOpen(d) && Spaced(d.open) && i < |d.open| && j < |d.open| && i != j
    ensures EventSlot(d, i) != EventSlot(d, j)
  {
    assert OpenOk(d, d.open[i]) && OpenOk(d, d.open[j]);
    SlotsDiffer(d.c.p, |d.pushed|, d.open[j].born + 1, d.open[i].born + 1);
  }

  /** Taking a transfer off the list, and an entry with its key out of the map or not. */
  ghost predicate Ends(d: Dev, e: Dev, i: nat) {
    && i < |d.open| && EventSlot(d, i) >= 0
    && e.c.p == d.c.p && e.c.base == d.c.base && e.pushed == d.pushed && e.open == Without(d.open, i)
    && (e.c.table == d.c.table || e.c.table == Removed(d.c.table, EventSlot(d, i)))
  }

  lemma EndKeepsOpen(d: Dev, e: Dev, i: nat, o: Open)
    requires Ends(d, e, i) && OpenOk(d, o) && Right(d.c.table, |d.c.p.buf|)
    requires Slot(d.c.p, |d.pushed|, o.born + 1) != EventSlot(d, i)
    ensures OpenOk(e, o)
  {
    RemovedRight(d.c.table, |d.c.p.buf|, EventSlot(d, i));
    var key: nat := Slot(d.c.p, |d.pushed|, o.born + 1);
    assert Lookup(e.c.table, key) == Lookup(d.c.table, key);
    OpenFrame(d, e, o);
  }

  lemma EndAll(d: Dev, e: Dev, i: nat)
    requires Sound(d) && Ends(d, e, i)
    ensures AllOpen(e)
  {
    WithoutIs(d.open, i);
    forall j | 0 <= j < |e.open| ensures OpenOk(e, e.open[j]) {
      var k := if j < i then j else j + 1;
      KeysDiffer(d, i, k);
      assert OpenOk(d, d.open[k]);
      EndKeepsOpen(d, e, i, d.open[k]);
    }
  }

  lemma FewerOpen(open: seq<Open>, i: nat)
    requires i < |open| && Spaced(open) && AllMade(open)
    ensures Spaced(Without(open, i)) && AllMade(Without(open, i))
  {
    WithoutIs(open, i);
  }

  lemma EndRight(d: Dev, e: Dev, i: nat)
    requires Right(d.c.table, |d.c.p.buf|) && Ends(d, e, i)
    ensures Right(e.c.table, |e.c.p.buf|)
  {
    RemovedRight(d.c.table, |d.c.p.buf|, EventSlot(d, i));
  }

  lemma EndSound(d: Dev, e: Dev, i: nat)
    requires Sound(d) && Ends(d, e, i)
    ensures Sound(e)
  {
    MemoryFrame(d.c, e.c, d.pushed);
    EndRight(d, e, i);
    FewerOpen(d.open, i);
    EndAll(d, e, i);
  }

  lemma CompleteSound(d: Dev, i: nat, code: nat, residual: nat)
    requires Sound(d) && i < |d.open|
    ensures 0 <= EventSlot(d, i) < |d.c.p.buf| && Sound(Complete(d, i, code, residual).0)
    ensures Complete(d, i, code, residual).1 ==
            if Succeeded(code) then ControlTransfers.Expected(d.open[i], residual) else TransferFailed
  {
    EventFound(d, i);
    if Succeeded(code) { CompletionMatches(d, i, code, residual); }
    EndSound(d, Complete(d, i, code, residual).0, i);
  }

  // ---------------------------------------------------------------------------
  // Whole runs
  // ---------------------------------------------------------------------------

  /** Any completion code; a submitted transfer's key must find room or an entry. */
  ghost predicate Possible(d: Dev, op: Op) {
    match op
    case Submit(s, buf, len, dirIn) => CanSubmit(d, s, buf, len, dirIn)
    case SubmitInterrupt(_, _) => CoreOk(d.c) && RoomForPush(d)
    case Completion(i, _, _) => i < |d.open| && 0 <= EventSlot(d, i) < |d.c.p.buf|
  }

  ghost function Done(d: Dev, op: Op): Dev
    requires Possible(d, op)
  {
    match op
    case Submit(s, buf, len, dirIn) => Start(d, s, buf, len, dirIn)
    case SubmitInterrupt(buf, len) => PushDev(d, MakeNormal(buf, len))
    case Completion(i, code, residual) => Complete(d, i, code, residual).0
  }

  /** Every successful completion calls back what its transfer was submitted with, every other reports the failure. */
  ghost predicate AllAnswered(d: Dev, ops: seq<Op>)
    decreases |ops|
  {
    if ops == [] || !Possible(d, ops[0]) then true
    else
      && (ops[0].Completion? ==>
            Complete(d, ops[0].i, ops[0].code, ops[0].residual).1 ==
            if Succeeded(ops[0].code) then ControlTransfers.Expected(d.open[ops[0].i], ops[0].residual) else TransferFailed)
      && AllAnswered(Done(d, ops[0]), ops[1..])
  }

  lemma DoneSound(d: Dev, op: Op)
    requires Sound(d) && Possible(d, op)
    ensures Sound(Done(d, op))
  {
    match op
    case Submit(s, buf, len, dirIn) => StartSound(d, s, buf, len, dirIn);
    case SubmitInterrupt(buf, len) => PushSound(d, MakeNormal(buf, len));
    case Completion(i, code, residual) => CompleteSound(d, i, code, residual);
  }

  /**
   * Over any sequence of operations, failures among them, across any number of laps: as long
   * as each put finds a free cell or its key, no completion is mismatched.
   */
  lemma {:induction false} RunMatchesDespiteFailures(d: Dev, ops: seq<Op>)
    requires Sound(d)
    ensures AllAnswered(d, ops)
    decreases |ops|
  {
    if ops != [] && Possible(d, ops[0]) {
      if ops[0].Completion? { CompleteSound(d, ops[0].i, ops[0].code, ops[0].residual); }
      DoneSound(d, ops[0]);
      RunMatchesDespiteFailures(Done(d, ops[0]), ops[1..]);
    }
  }

  lemma InitSound(n: nat, base: nat)
    requires n >= 3 && base < TWO_TO_THE_64
    ensures Sound(Dev(Core(R.Init(base, n).p, base, seq(MAP_SIZE, i => Cell(None, 0))), [], []))
  {
    InitInv(n, base);
  }
}
