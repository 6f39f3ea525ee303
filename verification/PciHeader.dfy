/** The configuration space that the scan reads, byte by byte: each function's header as the PCI
    Local Bus Specification lays it out, sections 6.1 and 6.2, behind the addresses of
    configuration mechanism #1, section 3.2.2.3.2. */
module PciHeaders {
  import opened Pci
  import opened Wrappers

  /** A function's configuration space. */
  type Header = nat -> Byte

  /** The address selects a register: the enable bit, bus, device, function and register number. */
  predicate Selects(a: nat, bus: nat, device: nat, func: nat, register: nat) {
    && a / 0x8000_0000 == 1 && a / 0x100_0000 % 0x80 == 0 && a / 0x1_0000 % 0x100 == bus
    && a / 0x800 % 0x20 == device && a / 0x100 % 8 == func && a % 0x100 == register
  }

  /** The 32-bit register at an offset, lowest byte first. */
  function RegisterOf(h: Header, register: nat): nat {
    h(register) + 0x100 * h(register + 1) + 0x1_0000 * h(register + 2) + 0x100_0000 * h(register + 3)
  }

  ghost predicate HasHeader(c: ConfigSpace, bus: nat, device: nat, func: nat, h: Header) {
    forall a: nat, register: nat :: register % 4 == 0 && Selects(a, bus, device, func, register) ==>
      c(a) == RegisterOf(h, register)
  }

  lemma AddressSelects(bus: nat, device: nat, func: nat, offset: nat)
    requires IsPlace(bus, device, func) && offset < 0x100
    ensures Selects(MakeAddress(bus, device, func, offset), bus, device, func, offset - offset % 4)
  {
    AddressReadBack(bus, device, func, offset);
    assert MakeAddress(bus, device, func, offset) / 0x100_0000 == 0x80;
  }

  lemma RegisterRead(c: ConfigSpace, bus: nat, device: nat, func: nat, h: Header, offset: nat)
    requires IsPlace(bus, device, func) && HasHeader(c, bus, device, func, h) && offset < 0x100 && offset % 4 == 0
    ensures c(MakeAddress(bus, device, func, offset)) == RegisterOf(h, offset)
  {
    AddressSelects(bus, device, func, offset);
  }

  lemma BytesOf(h: Header, register: nat)
    ensures var w := RegisterOf(h, register);
            && w % 0x1_0000 == h(register) + 0x100 * h(register + 1)
            && w / 0x100 % 0x100 == h(register + 1) && w / 0x1_0000 % 0x100 == h(register + 2)
            && w / 0x100_0000 % 0x100 == h(register + 3)
  {
    var w := RegisterOf(h, register);
    assert w / 0x100 == h(register + 1) + 0x100 * h(register + 2) + 0x1_0000 * h(register + 3);
    assert w / 0x1_0000 == h(register + 2) + 0x100 * h(register + 3);
  }

  /** A header with a vendor: bytes 0 and 1 are not both 0xff. */
  predicate HasVendor(h: Header) {
    !(h(0x00) == 0xff && h(0x01) == 0xff)
  }

  lemma VendorRead(c: ConfigSpace, bus: nat, device: nat, func: nat, h: Header)
    requires IsPlace(bus, device, func) && HasHeader(c, bus, device, func, h)
    ensures ReadVendorId(c, bus, device, func) == h(0x00) + 0x100 * h(0x01)
    ensures Present(c, bus, device, func) <==> HasVendor(h)
  {
    RegisterRead(c, bus, device, func, h, 0x00);
    BytesOf(h, 0x00);
  }

  lemma ClassRead(c: ConfigSpace, bus: nat, device: nat, func: nat, h: Header)
    requires IsPlace(bus, device, func) && HasHeader(c, bus, device, func, h)
    ensures ReadClassCode(c, bus, device, func) == ClassCode(h(0x0b), h(0x0a), h(0x09))
  {
    RegisterRead(c, bus, device, func, h, 0x08);
    BytesOf(h, 0x08);
  }

  lemma TypeRead(c: ConfigSpace, bus: nat, device: nat, func: nat, h: Header)
    requires IsPlace(bus, device, func) && HasHeader(c, bus, device, func, h)
    ensures ReadHeaderType(c, bus, device, func) == h(0x0e)
  {
    RegisterRead(c, bus, device, func, h, 0x0c);
    BytesOf(h, 0x0c);
  }

  lemma BusRead(c: ConfigSpace, bus: nat, device: nat, func: nat, h: Header)
    requires IsPlace(bus, device, func) && HasHeader(c, bus, device, func, h)
    ensures SecondaryBus(c, bus, device, func) == h(0x19)
  {
    RegisterRead(c, bus, device, func, h, 0x18);
    BytesOf(h, 0x18);
  }

  /** Every field that the scan reads is the byte that the PCI Local Bus Specification says. */
  lemma HeaderRead(c: ConfigSpace, bus: nat, device: nat, func: nat, h: Header)
    requires IsPlace(bus, device, func) && HasHeader(c, bus, device, func, h)
    ensures ReadVendorId(c, bus, device, func) == h(0x00) + 0x100 * h(0x01)
    ensures Present(c, bus, device, func) <==> HasVendor(h)
    ensures ReadHeaderType(c, bus, device, func) == h(0x0e)
    ensures IsSingleFunctionDevice(ReadHeaderType(c, bus, device, func)) <==> h(0x0e) < 0x80
    ensures ReadClassCode(c, bus, device, func) == ClassCode(h(0x0b), h(0x0a), h(0x09))
    ensures IsBridge(ReadClassCode(c, bus, device, func)) <==> h(0x0b) == 0x06 && h(0x0a) == 0x04
    ensures SecondaryBus(c, bus, device, func) == h(0x19)
  {
    VendorRead(c, bus, device, func, h);
    ClassRead(c, bus, device, func, h);
    TypeRead(c, bus, device, func, h);
    BusRead(c, bus, device, func, h);
  }

  // ---------------------------------------------------------------------------
  // The machine's bridges, told from the headers
  // ---------------------------------------------------------------------------

  /** The header of every function of the machine. */
  type Headers = (nat, nat, nat) -> Header

  ghost predicate HasHeaders(c: ConfigSpace, hs: Headers) {
    forall bus, device, func :: IsPlace(bus, device, func) ==> HasHeader(c, bus, device, func, hs(bus, device, func))
  }

  /** Function 0 is there, and for another function also that one, in a multi-function device. */
  predicate IsThere(hs: Headers, bus: nat, device: nat, func: nat) {
    && IsPlace(bus, device, func) && HasVendor(hs(bus, device, 0))
    && (func > 0 ==> hs(bus, device, 0)(0x0e) >= 0x80 && HasVendor(hs(bus, device, func)))
  }

  /** A PCI-to-PCI bridge, class 06 04, whose secondary bus, byte 0x19, is the other bus. */
  predicate Leads(hs: Headers, bus: nat, device: nat, func: nat, next: nat) {
    && IsThere(hs, bus, device, func) && hs(bus, device, func)(0x0b) == 0x06 && hs(bus, device, func)(0x0a) == 0x04
    && next == hs(bus, device, func)(0x19)
  }

  ghost predicate Connects(hs: Headers, bus: nat, next: nat) {
    exists device: nat, func: nat :: Leads(hs, bus, device, func, next)
  }

  ghost predicate IsRoute(hs: Headers, route: seq<nat>) {
    |route| > 0 && forall i :: 0 <= i < |route| - 1 ==> Connects(hs, route[i], route[i + 1])
  }

  /** Bus 0, or with a multi-function host bridge the bus of each of its functions. */
  predicate BeginsAt(hs: Headers, bus: nat) {
    if hs(0, 0, 0)(0x0e) < 0x80 then bus == 0 else bus < 8 && HasVendor(hs(0, 0, bus))
  }

  lemma SameBridges(c: ConfigSpace, hs: Headers, bus: nat, device: nat, func: nat, next: nat)
    requires HasHeaders(c, hs) && bus < 256
    ensures Met(c, bus, device, func) <==> IsThere(hs, bus, device, func)
    ensures Bridges(c, bus, device, func, next) <==> Leads(hs, bus, device, func, next)
  {
    if device < 32 && func < 8 {
      HeaderRead(c, bus, device, 0, hs(bus, device, 0));
      HeaderRead(c, bus, device, func, hs(bus, device, func));
    }
  }

  lemma SameLinks(c: ConfigSpace, hs: Headers, bus: nat, next: nat)
    requires HasHeaders(c, hs) && bus < 256
    ensures Linked(c, bus, next) <==> Connects(hs, bus, next)
    ensures Connects(hs, bus, next) ==> next < 256
  {
    forall device: nat, func: nat
      ensures Bridges(c, bus, device, func, next) <==> Leads(hs, bus, device, func, next)
    {
      SameBridges(c, hs, bus, device, func, next);
    }
  }

  lemma SameRoots(c: ConfigSpace, hs: Headers, bus: nat)
    requires HasHeaders(c, hs)
    ensures IsRoot(c, bus) <==> BeginsAt(hs, bus)
    ensures BeginsAt(hs, bus) ==> bus < 256
  {
    HeaderRead(c, 0, 0, 0, hs(0, 0, 0));
    if bus < 8 { HeaderRead(c, 0, 0, bus, hs(0, 0, bus)); }
  }

  lemma {:induction false} SamePaths(c: ConfigSpace, hs: Headers, path: seq<nat>)
    requires HasHeaders(c, hs) && |path| > 0 && path[0] < 256
    ensures IsPath(c, path) <==> IsRoute(hs, path)
    ensures IsRoute(hs, path) ==> path[|path| - 1] < 256
  {
    if |path| > 1 {
      SameLinks(c, hs, path[0], path[1]);
      if Connects(hs, path[0], path[1]) {
        SamePaths(c, hs, path[1..]);
        OneMore(c, hs, path);
      }
    }
  }

  lemma OneMore(c: ConfigSpace, hs: Headers, path: seq<nat>)
    requires |path| > 1
    ensures IsPath(c, path) <==> Linked(c, path[0], path[1]) && IsPath(c, path[1..])
    ensures IsRoute(hs, path) <==> Connects(hs, path[0], path[1]) && IsRoute(hs, path[1..])
  {
    forall i | 0 <= i < |path| - 1
      ensures i > 0 ==> path[i] == path[1..][i - 1] && path[i + 1] == path[1..][i]
    {
    }
    if Linked(c, path[0], path[1]) && IsPath(c, path[1..]) {
      LongerPath(c, path[0], path[1..]);
      assert path == [path[0]] + path[1..];
    }
  }

  /** A function of the machine that bridges lead to, with the table entry its header makes. */
  ghost predicate Lists(hs: Headers, route: seq<nat>, device: nat, func: nat, x: Device) {
    && IsRoute(hs, route) && BeginsAt(hs, route[0]) && IsThere(hs, route[|route| - 1], device, func)
    && var bus := route[|route| - 1];
       var h := hs(bus, device, func);
       x == Device(bus, device, func, h(0x0e), ClassCode(h(0x0b), h(0x0a), h(0x09)))
  }

  lemma SameFunctions(c: ConfigSpace, hs: Headers, path: seq<nat>, device: nat, func: nat, x: Device)
    requires HasHeaders(c, hs) && |path| > 0
    ensures Found(c, path, device, func, x) && IsRoot(c, path[0]) <==> Lists(hs, path, device, func, x)
  {
    SameRoots(c, hs, path[0]);
    if BeginsAt(hs, path[0]) {
      SamePaths(c, hs, path);
      if IsRoute(hs, path) {
        var bus := path[|path| - 1];
        SameBridges(c, hs, bus, device, func, 0);
        if IsThere(hs, bus, device, func) { HeaderRead(c, bus, device, func, hs(bus, device, func)); }
      }
    }
  }

  /**
   * On any machine: the table that `ScanAllBus` leaves holds only functions that bridges lead to,
   * and all of them unless it ends with Full, each with the fields of its header.
   */
  lemma TableIsMachine(c: ConfigSpace, hs: Headers, depth: nat, x: Device)
    requires HasHeaders(c, hs) && depth >= TABLE_SIZE
    ensures x in Filled([], AllOrder(c, depth)) ==> exists route, device: nat, func: nat :: Lists(hs, route, device, func, x)
    ensures !Overflows([], AllOrder(c, depth)) ==>
              (x in Filled([], AllOrder(c, depth)) <==> exists route, device: nat, func: nat :: Lists(hs, route, device, func, x))
  {
    ScanFindsExactly(c, depth, x);
    forall route: seq<nat>, device: nat, func: nat | |route| > 0
      ensures Found(c, route, device, func, x) && IsRoot(c, route[0]) <==> Lists(hs, route, device, func, x)
    {
      SameFunctions(c, hs, route, device, func, x);
    }
  }

  /** A cycle of bridges on the way from the root, told from the headers, fills the table. */
  lemma HeaderCycleFillsTable(c: ConfigSpace, hs: Headers, route: seq<nat>, i: nat, depth: nat)
    requires HasHeaders(c, hs) && IsRoute(hs, route) && BeginsAt(hs, route[0])
    requires i < |route| - 1 && route[i] == route[|route| - 1] && depth >= TABLE_SIZE
    ensures Overflows([], AllOrder(c, depth))
  {
    SameRoots(c, hs, route[0]);
    SamePaths(c, hs, route);
    CycleFillsTable(c, route, i, depth);
  }
}
