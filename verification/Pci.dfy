/** The PCI enumerator: a depth-first scan of configuration space into a table of 32 devices. */
module Pci {
  /** The 32-bit word of configuration space behind each 32-bit address. */
  type ConfigSpace = nat -> nat

  const TABLE_SIZE: nat := 32
  const NO_VENDOR: nat := 0xffff

  datatype ClassCode = ClassCode(base: nat, sub: nat, interface: nat)
  datatype Device = Device(bus: nat, device: nat, func: nat, headerType: nat, classCode: ClassCode)
  datatype Error = Success | Full

  /** Where a function sits: at most 256 buses of 32 devices of 8 functions. */
  predicate IsPlace(bus: nat, device: nat, func: nat) {
    bus < 256 && device < 32 && func < 8
  }

  // ---------------------------------------------------------------------------
  // Configuration space
  // ---------------------------------------------------------------------------

  /** The fields do not overlap, so adding them is or-ing them. */
  function MakeAddress(bus: nat, device: nat, func: nat, offset: nat): nat {
    0x8000_0000 + bus * 0x1_0000 + device * 0x800 + func * 0x100 + (offset - offset % 4)
  }

  /** The address read back: every register of every function has one of its own. */
  lemma AddressReadBack(bus: nat, device: nat, func: nat, offset: nat)
    requires IsPlace(bus, device, func) && offset < 0x100
    ensures var a := MakeAddress(bus, device, func, offset);
            && a < 0x1_0000_0000 && a % 4 == 0 && a / 0x8000_0000 == 1
            && a / 0x1_0000 % 0x100 == bus && a / 0x800 % 0x20 == device && a / 0x100 % 8 == func
            && a % 0x100 / 4 == offset / 4
  {
    var a := MakeAddress(bus, device, func, offset);
    assert a / 0x100 == 0x80_0000 + bus * 0x100 + device * 8 + func;
    assert a / 0x800 == 0x10_0000 + bus * 0x20 + device;
    assert a / 0x1_0000 == 0x8000 + bus;
  }

  function ReadVendorId(c: ConfigSpace, bus: nat, device: nat, func: nat): nat {
    c(MakeAddress(bus, device, func, 0x00)) % 0x1_0000
  }

  function ReadHeaderType(c: ConfigSpace, bus: nat, device: nat, func: nat): nat {
    c(MakeAddress(bus, device, func, 0x0c)) / 0x1_0000 % 0x100
  }

  function ReadClassCode(c: ConfigSpace, bus: nat, device: nat, func: nat): ClassCode {
    var reg := c(MakeAddress(bus, device, func, 0x08));
    ClassCode(reg / 0x100_0000 % 0x100, reg / 0x1_0000 % 0x100, reg / 0x100 % 0x100)
  }

  function ReadBusNumbers(c: ConfigSpace, bus: nat, device: nat, func: nat): nat {
    c(MakeAddress(bus, device, func, 0x18))
  }

  predicate IsSingleFunctionDevice(headerType: nat) {
    headerType / 0x80 % 2 == 0
  }

  predicate Present(c: ConfigSpace, bus: nat, device: nat, func: nat) {
    ReadVendorId(c, bus, device, func) != NO_VENDOR
  }

  function Entry(c: ConfigSpace, bus: nat, device: nat, func: nat): Device {
    Device(bus, device, func, ReadHeaderType(c, bus, device, func), ReadClassCode(c, bus, device, func))
  }

  predicate IsBridge(classCode: ClassCode) {
    classCode.base == 0x06 && classCode.sub == 0x04
  }

  function SecondaryBus(c: ConfigSpace, bus: nat, device: nat, func: nat): nat {
    ReadBusNumbers(c, bus, device, func) / 0x100 % 0x100
  }

  // ---------------------------------------------------------------------------
  // The preorder of the bridge graph
  // ---------------------------------------------------------------------------

  /** What is met at a place: nothing if it is empty. */
  function Optional(there: bool, s: seq<Device>): seq<Device> {
    if there then s else []
  }

  /**
   * The functions met from a bus on, each bridge before what lies behind it, following at
   * most `depth` bridges in a row. Bridges may form cycles, and then this grows with `depth`.
   */
  function BusOrder(c: ConfigSpace, bus: nat, depth: nat): seq<Device>
    decreases depth, 3
  {
    DevicesFrom(c, bus, 0, depth)
  }

  function DevicesFrom(c: ConfigSpace, bus: nat, device: nat, depth: nat): seq<Device>
    decreases depth, 2, 32 - device
  {
    if device >= 32 then []
    else Optional(Present(c, bus, device, 0), DeviceOrder(c, bus, device, depth))
         + DevicesFrom(c, bus, device + 1, depth)
  }

  function DeviceOrder(c: ConfigSpace, bus: nat, device: nat, depth: nat): seq<Device>
    decreases depth, 1, 9
  {
    FunctionOrder(c, bus, device, 0, depth) + OtherFunctions(c, bus, device, depth)
  }

  /** The rest of a device after its function 0. */
  function OtherFunctions(c: ConfigSpace, bus: nat, device: nat, depth: nat): seq<Device>
    decreases depth, 1, 8
  {
    if IsSingleFunctionDevice(ReadHeaderType(c, bus, device, 0)) then [] else FunctionsFrom(c, bus, device, 1, depth)
  }

  function FunctionsFrom(c: ConfigSpace, bus: nat, device: nat, func: nat, depth: nat): seq<Device>
    decreases depth, 1, 8 - func
  {
    if func >= 8 then []
    else Optional(Present(c, bus, device, func), FunctionOrder(c, bus, device, func, depth))
         + FunctionsFrom(c, bus, device, func + 1, depth)
  }

  function FunctionOrder(c: ConfigSpace, bus: nat, device: nat, func: nat, depth: nat): seq<Device>
    decreases depth, 0
  {
    [Entry(c, bus, device, func)]
    + if IsBridge(ReadClassCode(c, bus, device, func)) && depth > 0
      then BusOrder(c, SecondaryBus(c, bus, device, func), depth - 1) else []
  }

  function BusesFrom(c: ConfigSpace, func: nat, depth: nat): seq<Device>
    decreases 8 - func
  {
    if func >= 8 then []
    else Optional(Present(c, 0, 0, func), BusOrder(c, func, depth)) + BusesFrom(c, func + 1, depth)
  }

  /** The whole traversal: from bus 0, or from one bus for each function of the host bridge. */
  function AllOrder(c: ConfigSpace, depth: nat): seq<Device> {
    if IsSingleFunctionDevice(ReadHeaderType(c, 0, 0, 0)) then BusOrder(c, 0, depth) else BusesFrom(c, 0, depth)
  }

  // ---------------------------------------------------------------------------
  // What fits in the table does not depend on the depth
  // ---------------------------------------------------------------------------

  /** The two agree on the first `n` entries, and on whether there are more. */
  ghost predicate Agree(n: nat, s: seq<Device>, t: seq<Device>) {
    if |s| <= n then s == t else |t| > n && s[..n] == t[..n]
  }

  lemma AgreeConcat(n: nat, s: seq<Device>, t: seq<Device>, s': seq<Device>, t': seq<Device>)
    requires Agree(n, s, t) && (|s| <= n ==> Agree(n - |s|, s', t'))
    ensures Agree(n, s + s', t + t')
  {
    if |s| <= n && |s + s'| > n {
      assert (s + s')[..n] == s + s'[..n - |s|];
      assert (t + t')[..n] == t + t'[..n - |s|];
    } else if |s| > n {
      assert (s + s')[..n] == s[..n] && (t + t')[..n] == t[..n];
    }
  }

  lemma AgreeOptional(n: nat, there: bool, s: seq<Device>, t: seq<Device>, s': seq<Device>, t': seq<Device>)
    requires there ==> Agree(n, s, t)
    requires |Optional(there, s)| <= n ==> Agree(n - |Optional(there, s)|, s', t')
    ensures Agree(n, Optional(there, s) + s', Optional(there, t) + t')
  {
    AgreeConcat(n, Optional(there, s), Optional(there, t), s', t');
  }

  lemma {:induction false} BusStable(c: ConfigSpace, bus: nat, n: nat, d: nat, e: nat)
    requires d >= n && e >= n
    ensures Agree(n, BusOrder(c, bus, d), BusOrder(c, bus, e))
    decreases n, 3
  {
    DevicesStable(c, bus, 0, n, d, e);
  }

  lemma {:induction false} DevicesStable(c: ConfigSpace, bus: nat, device: nat, n: nat, d: nat, e: nat)
    requires d >= n && e >= n
    ensures Agree(n, DevicesFrom(c, bus, device, d), DevicesFrom(c, bus, device, e))
    decreases n, 2, 32 - device
  {
    if device < 32 {
      var s, t, there := DeviceOrder(c, bus, device, d), DeviceOrder(c, bus, device, e), Present(c, bus, device, 0);
      if there { DeviceStable(c, bus, device, n, d, e); }
      if |Optional(there, s)| <= n { DevicesStable(c, bus, device + 1, n - |Optional(there, s)|, d, e); }
      AgreeOptional(n, there, s, t, DevicesFrom(c, bus, device + 1, d), DevicesFrom(c, bus, device + 1, e));
    }
  }

  lemma {:induction false} DeviceStable(c: ConfigSpace, bus: nat, device: nat, n: nat, d: nat, e: nat)
    requires d >= n && e >= n
    ensures Agree(n, DeviceOrder(c, bus, device, d), DeviceOrder(c, bus, device, e))
    decreases n, 1, 8
  {
    FunctionStable(c, bus, device, 0, n, d, e);
    if !IsSingleFunctionDevice(ReadHeaderType(c, bus, device, 0)) {
      var s, t := FunctionOrder(c, bus, device, 0, d), FunctionOrder(c, bus, device, 0, e);
      if |s| <= n { FunctionsStable(c, bus, device, 1, n - |s|, d, e); }
      AgreeConcat(n, s, t, FunctionsFrom(c, bus, device, 1, d), FunctionsFrom(c, bus, device, 1, e));
    }
  }

  lemma {:induction false} FunctionsStable(c: ConfigSpace, bus: nat, device: nat, func: nat, n: nat, d: nat, e: nat)
    requires d >= n && e >= n
    ensures Agree(n, FunctionsFrom(c, bus, device, func, d), FunctionsFrom(c, bus, device, func, e))
    decreases n, 1, 8 - func
  {
    if func < 8 {
      var s, t, there := FunctionOrder(c, bus, device, func, d), FunctionOrder(c, bus, device, func, e), Present(c, bus, device, func);
      if there { FunctionStable(c, bus, device, func, n, d, e); }
      if |Optional(there, s)| <= n { FunctionsStable(c, bus, device, func + 1, n - |Optional(there, s)|, d, e); }
      AgreeOptional(n, there, s, t, FunctionsFrom(c, bus, device, func + 1, d), FunctionsFrom(c, bus, device, func + 1, e));
    }
  }

  lemma {:induction false} FunctionStable(c: ConfigSpace, bus: nat, device: nat, func: nat, n: nat, d: nat, e: nat)
    requires d >= n && e >= n
    ensures Agree(n, FunctionOrder(c, bus, device, func, d), FunctionOrder(c, bus, device, func, e))
    decreases n, 0
  {
    if n > 0 && IsBridge(ReadClassCode(c, bus, device, func)) {
      var next := SecondaryBus(c, bus, device, func);
      BusStable(c, next, n - 1, d - 1, e - 1);
      var head := [Entry(c, bus, device, func)];
      AgreeConcat(n, head, head, BusOrder(c, next, d - 1), BusOrder(c, next, e - 1));
    }
  }

  lemma {:induction false} BusesStable(c: ConfigSpace, func: nat, n: nat, d: nat, e: nat)
    requires d >= n && e >= n
    ensures Agree(n, BusesFrom(c, func, d), BusesFrom(c, func, e))
    decreases 8 - func
  {
    if func < 8 {
      var s, t, there := BusOrder(c, func, d), BusOrder(c, func, e), Present(c, 0, 0, func);
      if there { BusStable(c, func, n, d, e); }
      if |Optional(there, s)| <= n { BusesStable(c, func + 1, n - |Optional(there, s)|, d, e); }
      AgreeOptional(n, there, s, t, BusesFrom(c, func + 1, d), BusesFrom(c, func + 1, e));
    }
  }

  /** However deep the traversal goes, its first `n` entries are those met within `n` bridges. */
  lemma OrderStable(c: ConfigSpace, n: nat, d: nat, e: nat)
    requires d >= n && e >= n
    ensures Agree(n, AllOrder(c, d), AllOrder(c, e))
  {
    BusStable(c, 0, n, d, e);
    BusesStable(c, 0, n, d, e);
  }

  // ---------------------------------------------------------------------------
  // The scan
  // ---------------------------------------------------------------------------

  /** A table with an order appended to it as far as it goes. */
  function Filled(table: seq<Device>, order: seq<Device>): seq<Device>
    requires |table| <= TABLE_SIZE
  {
    if |table| + |order| <= TABLE_SIZE then table + order else table + order[..TABLE_SIZE - |table|]
  }

  predicate Overflows(table: seq<Device>, order: seq<Device>) {
    |table| + |order| > TABLE_SIZE
  }

  lemma FilledConcat(table: seq<Device>, s: seq<Device>, t: seq<Device>)
    requires |table| <= TABLE_SIZE
    ensures Overflows(table, s) ==> Overflows(table, s + t) && Filled(table, s + t) == Filled(table, s)
    ensures !Overflows(table, s) ==>
              && Filled(table, s + t) == Filled(Filled(table, s), t)
              && Overflows(table, s + t) == Overflows(Filled(table, s), t)
  {
    if Overflows(table, s) {
      assert (s + t)[..TABLE_SIZE - |table|] == s[..TABLE_SIZE - |table|];
    } else if Overflows(table, s + t) {
      assert (s + t)[..TABLE_SIZE - |table|] == s + t[..TABLE_SIZE - |table| - |s|];
    }
  }

  /** A scan that has the table here and `todo` ahead ends as one of `order` from `before` does. */
  ghost predicate OnTheWay(before: seq<Device>, order: seq<Device>, table: seq<Device>, todo: seq<Device>) {
    && |before| <= TABLE_SIZE && |table| <= TABLE_SIZE
    && Filled(before, order) == Filled(table, todo)
    && Overflows(before, order) == Overflows(table, todo)
  }

  lemma StepOn(before: seq<Device>, order: seq<Device>, table: seq<Device>, next: seq<Device>, todo: seq<Device>)
    requires OnTheWay(before, order, table, next + todo)
    ensures Overflows(table, next) ==> Overflows(before, order) && Filled(before, order) == Filled(table, next)
    ensures !Overflows(table, next) ==> OnTheWay(before, order, Filled(table, next), todo)
  {
    FilledConcat(table, next, todo);
  }

  /** Passing one place: what happens when nothing is there, when it overflows, and when it fits. */
  ghost predicate Passes(before: seq<Device>, order: seq<Device>, table: seq<Device>, there: bool, next: seq<Device>,
                         todo: seq<Device>)
  {
    && |table| <= TABLE_SIZE
    && (!there ==> OnTheWay(before, order, table, todo))
    && (there && Overflows(table, next) ==>
          |before| <= TABLE_SIZE && Overflows(before, order) && Filled(before, order) == Filled(table, next))
    && (there && !Overflows(table, next) ==> OnTheWay(before, order, Filled(table, next), todo))
  }

  lemma PassesOne(before: seq<Device>, order: seq<Device>, table: seq<Device>, there: bool, next: seq<Device>,
                  todo: seq<Device>)
    requires OnTheWay(before, order, table, Optional(there, next) + todo)
    ensures Passes(before, order, table, there, next, todo)
  {
    StepOn(before, order, table, Optional(there, next), todo);
  }

  lemma PassesFunction(before: seq<Device>, order: seq<Device>, table: seq<Device>, c: ConfigSpace, bus: nat,
                       device: nat, func: nat, depth: nat)
    requires func < 8 && OnTheWay(before, order, table, FunctionsFrom(c, bus, device, func, depth))
    ensures Passes(before, order, table, Present(c, bus, device, func), FunctionOrder(c, bus, device, func, depth),
                   FunctionsFrom(c, bus, device, func + 1, depth))
  {
    PassesOne(before, order, table, Present(c, bus, device, func), FunctionOrder(c, bus, device, func, depth),
              FunctionsFrom(c, bus, device, func + 1, depth));
  }

  lemma PassesDevice(before: seq<Device>, order: seq<Device>, table: seq<Device>, c: ConfigSpace, bus: nat,
                     device: nat, depth: nat)
    requires device < 32 && OnTheWay(before, order, table, DevicesFrom(c, bus, device, depth))
    ensures Passes(before, order, table, Present(c, bus, device, 0), DeviceOrder(c, bus, device, depth),
                   DevicesFrom(c, bus, device + 1, depth))
  {
    PassesOne(before, order, table, Present(c, bus, device, 0), DeviceOrder(c, bus, device, depth),
              DevicesFrom(c, bus, device + 1, depth));
  }

  lemma PassesBus(before: seq<Device>, order: seq<Device>, table: seq<Device>, c: ConfigSpace, func: nat, depth: nat)
    requires func < 8 && OnTheWay(before, order, table, BusesFrom(c, func, depth))
    ensures Passes(before, order, table, Present(c, 0, 0, func), BusOrder(c, func, depth), BusesFrom(c, func + 1, depth))
  {
    PassesOne(before, order, table, Present(c, 0, 0, func), BusOrder(c, func, depth),
              BusesFrom(c, func + 1, depth));
  }

  lemma PassesFirst(table: seq<Device>, c: ConfigSpace, bus: nat, device: nat, depth: nat)
    requires |table| <= TABLE_SIZE
    ensures Passes(table, DeviceOrder(c, bus, device, depth), table, true, FunctionOrder(c, bus, device, 0, depth),
                   OtherFunctions(c, bus, device, depth))
  {
    StepOn(table, DeviceOrder(c, bus, device, depth), table, FunctionOrder(c, bus, device, 0, depth),
           OtherFunctions(c, bus, device, depth));
  }

  lemma Arrived(before: seq<Device>, order: seq<Device>, table: seq<Device>)
    requires OnTheWay(before, order, table, [])
    ensures table == Filled(before, order) && !Overflows(before, order)
  {
  }

  /** A function's own entry comes first, and what lies behind a bridge after it. */
  lemma PassesEntry(table: seq<Device>, c: ConfigSpace, bus: nat, device: nat, func: nat, depth: nat)
    requires |table| <= TABLE_SIZE
    ensures var all, entry := FunctionOrder(c, bus, device, func, depth), [Entry(c, bus, device, func)];
            if Overflows(table, entry) then Overflows(table, all) && Filled(table, all) == Filled(table, entry)
            else if IsBridge(ReadClassCode(c, bus, device, func)) && depth > 0 then
              var rest := BusOrder(c, SecondaryBus(c, bus, device, func), depth - 1);
              && Filled(table, all) == Filled(Filled(table, entry), rest)
              && Overflows(table, all) == Overflows(Filled(table, entry), rest)
            else all == entry
  {
    var rest := FunctionOrder(c, bus, device, func, depth)[1..];
    FilledConcat(table, [Entry(c, bus, device, func)], rest);
  }

  class Enumerator {
    const config: ConfigSpace
    const devices: array<Device>
    var numDevice: nat

    predicate Valid()
      reads this
    {
      devices.Length == TABLE_SIZE && numDevice <= TABLE_SIZE
    }

    function Table(): (t: seq<Device>)
      requires Valid()
      reads this, devices
      ensures |t| == numDevice
    {
      devices[..numDevice]
    }

    constructor (config: ConfigSpace)
      ensures Valid() && fresh(devices) && this.config == config && numDevice == 0
    {
      this.config := config;
      devices := new Device[TABLE_SIZE];
      numDevice := 0;
    }

    method AddDevice(device: Device) returns (error: Error)
      requires Valid()
      modifies this`numDevice, devices
      ensures Valid() && Table() == Filled(old(Table()), [device])
      ensures error == Full <==> Overflows(old(Table()), [device])
      ensures if old(numDevice) < 32 then error == Success && Table() == old(Table()) + [device]
              else error == Full && Table() == old(Table())
    {
      if numDevice == devices.Length { return Full; }
      devices[numDevice] := device;
      numDevice := numDevice + 1;
      return Success;
    }

    /** `depth` stands for any number of bridges that the free entries of the table cannot exhaust. */
    method ScanFunction(bus: nat, device: nat, func: nat, ghost depth: nat) returns (error: Error)
      requires Valid() && depth >= TABLE_SIZE - numDevice
      modifies this`numDevice, devices
      ensures Valid() && Table() == Filled(old(Table()), FunctionOrder(config, bus, device, func, depth))
      ensures error == Full <==> Overflows(old(Table()), FunctionOrder(config, bus, device, func, depth))
      decreases TABLE_SIZE - numDevice, 0
    {
      var classCode := ReadClassCode(config, bus, device, func);
      var headerType := ReadHeaderType(config, bus, device, func);
      var dev := Device(bus, device, func, headerType, classCode);
      PassesEntry(Table(), config, bus, device, func, depth);
      error := AddDevice(dev);
      if error == Full { return; }
      if IsBridge(classCode) {
        var secondaryBus := ReadBusNumbers(config, bus, device, func) / 0x100 % 0x100;
        error := ScanBus(secondaryBus, depth - 1);
      }
    }

    method ScanDevice(bus: nat, device: nat, ghost depth: nat) returns (error: Error)
      requires Valid() && depth >= TABLE_SIZE - numDevice
      modifies this`numDevice, devices
      ensures Valid() && Table() == Filled(old(Table()), DeviceOrder(config, bus, device, depth))
      ensures error == Full <==> Overflows(old(Table()), DeviceOrder(config, bus, device, depth))
      decreases TABLE_SIZE - numDevice, 1
    {
      ghost var before, order := Table(), DeviceOrder(config, bus, device, depth);
      PassesFirst(before, config, bus, device, depth);
      error := ScanFunction(bus, device, 0, depth);
      if error == Full { return; }
      if IsSingleFunctionDevice(ReadHeaderType(config, bus, device, 0)) {
        Arrived(before, order, Table());
        return;
      }
      for func := 1 to 8
        invariant Valid() && numDevice >= old(numDevice)
        invariant OnTheWay(before, order, Table(), FunctionsFrom(config, bus, device, func, depth))
      {
        PassesFunction(before, order, Table(), config, bus, device, func, depth);
        if ReadVendorId(config, bus, device, func) == NO_VENDOR { continue; }
        error := ScanFunction(bus, device, func, depth);
        if error == Full { return; }
      }
      Arrived(before, order, Table());
      return Success;
    }

    method ScanBus(bus: nat, ghost depth: nat) returns (error: Error)
      requires Valid() && depth >= TABLE_SIZE - numDevice
      modifies this`numDevice, devices
      ensures Valid() && Table() == Filled(old(Table()), BusOrder(config, bus, depth))
      ensures error == Full <==> Overflows(old(Table()), BusOrder(config, bus, depth))
      decreases TABLE_SIZE - numDevice, 2
    {
      ghost var before, order := Table(), BusOrder(config, bus, depth);
      for device := 0 to 32
        invariant Valid() && numDevice >= old(numDevice)
        invariant OnTheWay(before, order, Table(), DevicesFrom(config, bus, device, depth))
      {
        PassesDevice(before, order, Table(), config, bus, device, depth);
        if ReadVendorId(config, bus, device, 0) == NO_VENDOR { continue; }
        error := ScanDevice(bus, device, depth);
        if error == Full { return; }
      }
      Arrived(before, order, Table());
      return Success;
    }

    /** The first 32 functions in preorder, and Full if there are more, however deep one looks. */
    method ScanAllBus(ghost depth: nat) returns (error: Error)
      requires Valid() && depth >= TABLE_SIZE
      modifies this`numDevice, devices
      ensures Valid() && Table() == Filled([], AllOrder(config, depth))
      ensures error == Full <==> Overflows([], AllOrder(config, depth))
    {
      numDevice := 0;
      ghost var order := AllOrder(config, depth);
      var headerType := ReadHeaderType(config, 0, 0, 0);
      if IsSingleFunctionDevice(headerType) {
        error := ScanBus(0, depth);
        return;
      }
      for func := 0 to 8
        invariant Valid()
        invariant OnTheWay([], order, Table(), BusesFrom(config, func, depth))
      {
        PassesBus([], order, Table(), config, func, depth);
        if ReadVendorId(config, 0, 0, func) == NO_VENDOR { continue; }
        error := ScanBus(func, depth);
        if error == Full { return; }
      }
      Arrived([], order, Table());
      return Success;
    }
  }

  /** What `ScanAllBus` leaves is what any traversal that goes at least 32 bridges deep begins with. */
  lemma TableIsPrefix(c: ConfigSpace, d: nat, e: nat)
    requires d >= TABLE_SIZE && e >= TABLE_SIZE
    ensures Filled([], AllOrder(c, d)) == Filled([], AllOrder(c, e))
    ensures Overflows([], AllOrder(c, d)) <==> Overflows([], AllOrder(c, e))
  {
    OrderStable(c, TABLE_SIZE, d, e);
  }

  /** A scan that succeeds has seen everything: going deeper adds nothing. */
  lemma FiniteExactly(c: ConfigSpace, d: nat)
    requires d >= TABLE_SIZE
    ensures !Overflows([], AllOrder(c, d)) <==>
            forall e: nat :: e >= TABLE_SIZE ==> |AllOrder(c, e)| <= TABLE_SIZE && AllOrder(c, e) == AllOrder(c, d)
  {
    forall e: nat | e >= TABLE_SIZE ensures Agree(TABLE_SIZE, AllOrder(c, d), AllOrder(c, e)) {
      OrderStable(c, TABLE_SIZE, d, e);
    }
  }

  // ---------------------------------------------------------------------------
  // Cycles of bridges
  // ---------------------------------------------------------------------------

  /** The scan of the bus comes to this function. */
  predicate Met(c: ConfigSpace, bus: nat, device: nat, func: nat) {
    && device < 32 && func < 8 && Present(c, bus, device, 0)
    && (func > 0 ==> !IsSingleFunctionDevice(ReadHeaderType(c, bus, device, 0)) && Present(c, bus, device, func))
  }

  /** The function is a bridge from one bus to another. */
  predicate Bridges(c: ConfigSpace, bus: nat, device: nat, func: nat, next: nat) {
    && Met(c, bus, device, func) && IsBridge(ReadClassCode(c, bus, device, func))
    && SecondaryBus(c, bus, device, func) == next
  }

  ghost predicate Linked(c: ConfigSpace, bus: nat, next: nat) {
    exists device: nat, func: nat :: Bridges(c, bus, device, func, next)
  }

  /** Buses that bridges lead through, one after another. */
  ghost predicate IsPath(c: ConfigSpace, path: seq<nat>) {
    |path| > 0 && forall i :: 0 <= i < |path| - 1 ==> Linked(c, path[i], path[i + 1])
  }

  /** A bus that the scan begins with. */
  predicate IsRoot(c: ConfigSpace, bus: nat) {
    if IsSingleFunctionDevice(ReadHeaderType(c, 0, 0, 0)) then bus == 0 else bus < 8 && Present(c, 0, 0, bus)
  }

  lemma {:induction false} ReachesFunction(c: ConfigSpace, bus: nat, device: nat, from: nat, func: nat, depth: nat)
    requires from <= func < 8 && Present(c, bus, device, func)
    ensures |FunctionsFrom(c, bus, device, from, depth)| >= |FunctionOrder(c, bus, device, func, depth)|
    decreases func - from
  {
    if from < func { ReachesFunction(c, bus, device, from + 1, func, depth); }
  }

  lemma ReachesInDevice(c: ConfigSpace, bus: nat, device: nat, func: nat, depth: nat)
    requires Met(c, bus, device, func)
    ensures |DeviceOrder(c, bus, device, depth)| >= |FunctionOrder(c, bus, device, func, depth)|
  {
    if func > 0 { ReachesFunction(c, bus, device, 1, func, depth); }
  }

  lemma {:induction false} ReachesDevice(c: ConfigSpace, bus: nat, from: nat, device: nat, depth: nat)
    requires from <= device < 32 && Present(c, bus, device, 0)
    ensures |DevicesFrom(c, bus, from, depth)| >= |DeviceOrder(c, bus, device, depth)|
    decreases device - from
  {
    if from < device { ReachesDevice(c, bus, from + 1, device, depth); }
  }

  lemma BehindBridge(c: ConfigSpace, bus: nat, next: nat, depth: nat)
    requires Linked(c, bus, next)
    ensures |BusOrder(c, bus, depth)| >= 1 + if depth > 0 then |BusOrder(c, next, depth - 1)| else 0
  {
    var device: nat, func: nat :| Bridges(c, bus, device, func, next);
    ReachesDevice(c, bus, 0, device, depth);
    ReachesInDevice(c, bus, device, func, depth);
  }

  function Min(a: int, b: int): int {
    if a < b then a else b
  }

  /** Every bridge on a path is an entry. */
  lemma {:induction false} PathIsVisited(c: ConfigSpace, path: seq<nat>, depth: nat)
    requires IsPath(c, path)
    ensures |BusOrder(c, path[0], depth)| >= Min(|path| - 1, depth + 1)
    decreases depth
  {
    if |path| > 1 {
      BehindBridge(c, path[0], path[1], depth);
      if depth > 0 {
        TailIsPath(c, path);
        PathIsVisited(c, path[1..], depth - 1);
      }
    }
  }

  lemma TailIsPath(c: ConfigSpace, path: seq<nat>)
    requires IsPath(c, path) && |path| > 1
    ensures IsPath(c, path[1..])
  {
  }

  /** A path that comes back to one of its buses goes round as often as one likes. */
  lemma {:induction false} GoRound(c: ConfigSpace, path: seq<nat>, i: nat, n: nat) returns (long: seq<nat>)
    requires IsPath(c, path) && i < |path| - 1 && path[i] == path[|path| - 1]
    ensures IsPath(c, long) && |long| > n && long[0] == path[0]
    decreases n - |path|
  {
    if |path| > n {
      long := path;
    } else {
      var more := path + path[i + 1..];
      forall k | 0 <= k < |more| - 1 ensures Linked(c, more[k], more[k + 1]) {
        if k < |path| - 1 {
          assert Linked(c, path[k], path[k + 1]);
        } else {
          assert Linked(c, path[k - |path| + 1 + i], path[k - |path| + 2 + i]);
        }
      }
      long := GoRound(c, more, i, n);
    }
  }

  lemma {:induction false} RootIsScanned(c: ConfigSpace, from: nat, bus: nat, depth: nat)
    requires from <= bus < 8 && Present(c, 0, 0, bus)
    ensures |BusesFrom(c, from, depth)| >= |BusOrder(c, bus, depth)|
    decreases bus - from
  {
    if from < bus { RootIsScanned(c, from + 1, bus, depth); }
  }

  /** A cycle of bridges that the scan can come to, through any functions, makes it end with a full table. */
  lemma CycleFillsTable(c: ConfigSpace, path: seq<nat>, i: nat, depth: nat)
    requires IsPath(c, path) && IsRoot(c, path[0]) && i < |path| - 1 && path[i] == path[|path| - 1]
    requires depth >= TABLE_SIZE
    ensures Overflows([], AllOrder(c, depth))
  {
    var long := GoRound(c, path, i, TABLE_SIZE + 1);
    PathIsVisited(c, long, depth);
    if !IsSingleFunctionDevice(ReadHeaderType(c, 0, 0, 0)) { RootIsScanned(c, 0, path[0], depth); }
  }

  // ---------------------------------------------------------------------------
  // What the scan finds
  // ---------------------------------------------------------------------------

  lemma InOptional(there: bool, s: seq<Device>, t: seq<Device>, x: Device)
    ensures x in Optional(there, s) + t <==> (there && x in s) || x in t
  {
  }

  lemma {:induction false} InFunctions(c: ConfigSpace, bus: nat, device: nat, from: nat, depth: nat, x: Device)
    ensures x in FunctionsFrom(c, bus, device, from, depth) <==>
            exists func :: from <= func < 8 && Present(c, bus, device, func) && x in FunctionOrder(c, bus, device, func, depth)
    decreases 8 - from
  {
    if from < 8 {
      InFunctions(c, bus, device, from + 1, depth, x);
      InOptional(Present(c, bus, device, from), FunctionOrder(c, bus, device, from, depth),
                 FunctionsFrom(c, bus, device, from + 1, depth), x);
    }
  }

  lemma {:induction false} InDevices(c: ConfigSpace, bus: nat, from: nat, depth: nat, x: Device)
    ensures x in DevicesFrom(c, bus, from, depth) <==>
            exists device :: from <= device < 32 && Present(c, bus, device, 0) && x in DeviceOrder(c, bus, device, depth)
    decreases 32 - from
  {
    if from < 32 {
      InDevices(c, bus, from + 1, depth, x);
      InOptional(Present(c, bus, from, 0), DeviceOrder(c, bus, from, depth), DevicesFrom(c, bus, from + 1, depth), x);
    }
  }

  lemma InOthers(c: ConfigSpace, bus: nat, device: nat, depth: nat, x: Device)
    requires device < 32 && Present(c, bus, device, 0)
    ensures x in OtherFunctions(c, bus, device, depth) <==>
            exists func: nat :: func > 0 && Met(c, bus, device, func) && x in FunctionOrder(c, bus, device, func, depth)
  {
    if !IsSingleFunctionDevice(ReadHeaderType(c, bus, device, 0)) {
      InFunctions(c, bus, device, 1, depth, x);
      forall func: nat | 1 <= func < 8 ensures Met(c, bus, device, func) <==> Present(c, bus, device, func) {
      }
    }
  }

  lemma InDevice(c: ConfigSpace, bus: nat, device: nat, depth: nat, x: Device)
    requires device < 32 && Present(c, bus, device, 0)
    ensures x in DeviceOrder(c, bus, device, depth) <==>
            exists func: nat :: Met(c, bus, device, func) && x in FunctionOrder(c, bus, device, func, depth)
  {
    InOthers(c, bus, device, depth, x);
    var first, others := FunctionOrder(c, bus, device, 0, depth), OtherFunctions(c, bus, device, depth);
    assert DeviceOrder(c, bus, device, depth) == first + others;
    assert x in first + others <==> x in first || x in others;
    assert Met(c, bus, device, 0);
  }

  /** A bus's order holds what its functions' orders hold. */
  lemma InBus(c: ConfigSpace, bus: nat, depth: nat, x: Device)
    ensures x in BusOrder(c, bus, depth) <==>
            exists device: nat, func: nat :: Met(c, bus, device, func) && x in FunctionOrder(c, bus, device, func, depth)
  {
    InDevices(c, bus, 0, depth, x);
    if device: nat :| device < 32 && Present(c, bus, device, 0) && x in DeviceOrder(c, bus, device, depth) {
      InDevice(c, bus, device, depth, x);
    }
    if device: nat, func: nat :| Met(c, bus, device, func) && x in FunctionOrder(c, bus, device, func, depth) {
      InDevice(c, bus, device, depth, x);
    }
  }

  /** Buses from the first to the last of a path, and a function on the last one. */
  ghost predicate Found(c: ConfigSpace, path: seq<nat>, device: nat, func: nat, x: Device) {
    && IsPath(c, path) && Met(c, path[|path| - 1], device, func)
    && x == Entry(c, path[|path| - 1], device, func)
  }

  lemma LongerPath(c: ConfigSpace, bus: nat, path: seq<nat>)
    requires IsPath(c, path) && Linked(c, bus, path[0])
    ensures IsPath(c, [bus] + path)
  {
    var more := [bus] + path;
    forall i | 0 <= i < |more| - 1 ensures Linked(c, more[i], more[i + 1]) {
      if i > 0 { assert Linked(c, path[i - 1], path[i]); }
    }
  }

  /** Every entry is that of a function that bridges lead to. */
  lemma {:induction false} EntryIsFound(c: ConfigSpace, bus: nat, depth: nat, x: Device)
    returns (path: seq<nat>, device: nat, func: nat)
    requires x in BusOrder(c, bus, depth)
    ensures Found(c, path, device, func, x) && path[0] == bus
    decreases depth
  {
    InBus(c, bus, depth, x);
    device, func :| Met(c, bus, device, func) && x in FunctionOrder(c, bus, device, func, depth);
    path := [bus];
    if x != Entry(c, bus, device, func) {
      var next := SecondaryBus(c, bus, device, func);
      assert Bridges(c, bus, device, func, next);
      path, device, func := EntryIsFound(c, next, depth - 1, x);
      LongerPath(c, bus, path);
      path := [bus] + path;
    }
  }

  /** Every function that few enough bridges lead to is an entry. */
  lemma {:induction false} FoundIsEntry(c: ConfigSpace, path: seq<nat>, device: nat, func: nat, x: Device, depth: nat)
    requires Found(c, path, device, func, x) && |path| <= depth + 1
    ensures x in BusOrder(c, path[0], depth)
    decreases depth
  {
    if |path| == 1 {
      InBus(c, path[0], depth, x);
    } else {
      TailIsPath(c, path);
      FoundIsEntry(c, path[1..], device, func, x, depth - 1);
      assert Linked(c, path[0], path[1]);
      var d: nat, f: nat :| Bridges(c, path[0], d, f, path[1]);
      assert x in FunctionOrder(c, path[0], d, f, depth);
      InBus(c, path[0], depth, x);
    }
  }

  lemma {:induction false} InBuses(c: ConfigSpace, from: nat, depth: nat, x: Device)
    ensures x in BusesFrom(c, from, depth) <==>
            exists bus :: from <= bus < 8 && Present(c, 0, 0, bus) && x in BusOrder(c, bus, depth)
    decreases 8 - from
  {
    if from < 8 {
      InBuses(c, from + 1, depth, x);
      InOptional(Present(c, 0, 0, from), BusOrder(c, from, depth), BusesFrom(c, from + 1, depth), x);
    }
  }

  lemma InAll(c: ConfigSpace, depth: nat, x: Device)
    ensures x in AllOrder(c, depth) <==> exists bus: nat :: IsRoot(c, bus) && x in BusOrder(c, bus, depth)
  {
    InBuses(c, 0, depth, x);
    assert IsSingleFunctionDevice(ReadHeaderType(c, 0, 0, 0)) ==> IsRoot(c, 0);
  }

  lemma {:induction false} RootOrderFits(c: ConfigSpace, bus: nat, depth: nat)
    requires IsRoot(c, bus)
    ensures |BusOrder(c, bus, depth)| <= |AllOrder(c, depth)|
  {
    if !IsSingleFunctionDevice(ReadHeaderType(c, 0, 0, 0)) { RootIsScanned(c, 0, bus, depth); }
  }

  /** The path by which the scan can come to a function. */
  ghost predicate Reachable(c: ConfigSpace, x: Device) {
    exists path, device: nat, func: nat :: Found(c, path, device, func, x) && IsRoot(c, path[0])
  }

  lemma AllIsReachable(c: ConfigSpace, depth: nat, x: Device)
    ensures x in AllOrder(c, depth) ==> Reachable(c, x)
  {
    InAll(c, depth, x);
    if x in AllOrder(c, depth) {
      var bus: nat :| IsRoot(c, bus) && x in BusOrder(c, bus, depth);
      var path, device, func := EntryIsFound(c, bus, depth, x);
    }
  }

  /** A longer path than the traversal follows would not fit in the table. */
  lemma ReachableIsAll(c: ConfigSpace, depth: nat, x: Device)
    requires depth >= TABLE_SIZE && !Overflows([], AllOrder(c, depth)) && Reachable(c, x)
    ensures x in AllOrder(c, depth)
  {
    var path, device: nat, func: nat :| Found(c, path, device, func, x) && IsRoot(c, path[0]);
    PathIsVisited(c, path, depth);
    RootOrderFits(c, path[0], depth);
    FoundIsEntry(c, path, device, func, x, depth);
    InAll(c, depth, x);
  }

  /**
   * The scan finds nothing but functions that bridges lead to from a root bus, and if it does not
   * end with Full it finds them all, whatever the graph of bridges.
   */
  lemma ScanFindsExactly(c: ConfigSpace, depth: nat, x: Device)
    requires depth >= TABLE_SIZE
    ensures x in Filled([], AllOrder(c, depth)) ==> Reachable(c, x)
    ensures !Overflows([], AllOrder(c, depth)) ==> (x in Filled([], AllOrder(c, depth)) <==> Reachable(c, x))
  {
    AllIsReachable(c, depth, x);
    if !Overflows([], AllOrder(c, depth)) && Reachable(c, x) { ReachableIsAll(c, depth, x); }
  }

  // ---------------------------------------------------------------------------
  // In which order
  // ---------------------------------------------------------------------------

  predicate Earlier(x: Device, y: Device) {
    x.device < y.device || (x.device == y.device && x.func < y.func)
  }

  predicate InOrder(s: seq<Device>) {
    forall i, j :: 0 <= i < j < |s| ==> Earlier(s[i], s[j])
  }

  lemma InOrderConcat(s: seq<Device>, t: seq<Device>)
    requires InOrder(s) && InOrder(t) && forall i, j :: 0 <= i < |s| && 0 <= j < |t| ==> Earlier(s[i], t[j])
    ensures InOrder(s + t)
  {
  }

  lemma {:induction false} FunctionsInOrder(c: ConfigSpace, bus: nat, device: nat, from: nat, depth: nat)
    requires depth == 0
    ensures var s := FunctionsFrom(c, bus, device, from, depth);
            InOrder(s) && forall i :: 0 <= i < |s| ==> s[i].device == device && s[i].func >= from
    decreases 8 - from
  {
    if from < 8 {
      FunctionsInOrder(c, bus, device, from + 1, depth);
      assert FunctionOrder(c, bus, device, from, depth) == [Entry(c, bus, device, from)];
      InOrderConcat(Optional(Present(c, bus, device, from), [Entry(c, bus, device, from)]),
                    FunctionsFrom(c, bus, device, from + 1, depth));
    }
  }

  lemma DeviceInOrder(c: ConfigSpace, bus: nat, device: nat, depth: nat)
    requires depth == 0
    ensures var s := DeviceOrder(c, bus, device, depth); InOrder(s) && forall i :: 0 <= i < |s| ==> s[i].device == device
  {
    FunctionsInOrder(c, bus, device, 1, depth);
    var rest := OtherFunctions(c, bus, device, depth);
    assert rest == [] || rest == FunctionsFrom(c, bus, device, 1, depth);
    assert FunctionOrder(c, bus, device, 0, depth) == [Entry(c, bus, device, 0)];
    InOrderConcat([Entry(c, bus, device, 0)], rest);
  }

  predicate DevicesAtLeast(s: seq<Device>, from: nat) {
    forall i :: 0 <= i < |s| ==> s[i].device >= from
  }

  lemma BehindDevice(s: seq<Device>, t: seq<Device>, device: nat)
    requires InOrder(s) && InOrder(t) && DevicesAtLeast(t, device + 1)
    requires forall i :: 0 <= i < |s| ==> s[i].device == device
    ensures InOrder(s + t) && DevicesAtLeast(s + t, device)
  {
    InOrderConcat(s, t);
  }

  lemma {:induction false} DevicesInOrder(c: ConfigSpace, bus: nat, from: nat, depth: nat)
    requires depth == 0
    ensures InOrder(DevicesFrom(c, bus, from, depth)) && DevicesAtLeast(DevicesFrom(c, bus, from, depth), from)
    decreases 32 - from
  {
    if from < 32 {
      DeviceInOrder(c, bus, from, depth);
      DevicesInOrder(c, bus, from + 1, depth);
      BehindDevice(Optional(Present(c, bus, from, 0), DeviceOrder(c, bus, from, depth)),
                   DevicesFrom(c, bus, from + 1, depth), from);
    }
  }

  /** The functions of one bus come by device number, and those of a device by function number; a
      bridge comes first among all that it leads to. */
  lemma BusInOrder(c: ConfigSpace, bus: nat, device: nat, func: nat, depth: nat)
    ensures InOrder(BusOrder(c, bus, 0))
    ensures FunctionOrder(c, bus, device, func, depth)[0] == Entry(c, bus, device, func)
  {
    DevicesInOrder(c, bus, 0, 0);
  }
}
