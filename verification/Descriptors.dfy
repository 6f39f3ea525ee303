/** Reading a USB configuration: the endpoints of the first supported interface. */
module Descriptors {
  import opened Wrappers

  const CONFIGURATION: Byte := 2
  const INTERFACE: Byte := 4
  const ENDPOINT: Byte := 5
  const MAX_ENDPOINTS: nat := 16

  /** A descriptor without its first byte, which is its length. */
  datatype Descriptor = Descriptor(kind: Byte, body: seq<Byte>)

  /** Sections 9.6.3, 9.6.5 and 9.6.6 of USB 2.0 fix the least lengths. */
  predicate IsSized(d: Descriptor) {
    && |d.body| + 2 < 0x100
    && (d.kind == CONFIGURATION ==> |d.body| >= 7)
    && (d.kind == INTERFACE ==> |d.body| >= 7)
    && (d.kind == ENDPOINT ==> |d.body| >= 5)
  }

  predicate AllSized(ds: seq<Descriptor>) {
    forall i :: 0 <= i < |ds| ==> IsSized(ds[i])
  }

  function Bytes(d: Descriptor): seq<Byte>
    requires IsSized(d)
  {
    [|d.body| + 2, d.kind] + d.body
  }

  function Serialized(ds: seq<Descriptor>): seq<Byte>
    requires AllSized(ds)
  {
    if ds == [] then [] else Serialized(ds[..|ds| - 1]) + Bytes(ds[|ds| - 1])
  }

  // ---------------------------------------------------------------------------
  // Endpoints
  // ---------------------------------------------------------------------------

  datatype EndpointConfig = EndpointConfig(epId: nat, epType: nat, maxPacketSize: nat, interval: nat)

  /** `ep_num << 1 | dir_in` */
  function EndpointID(number: nat, dirIn: bool): nat {
    2 * number + if dirIn then 1 else 0
  }

  function Number(epId: nat): nat {
    epId / 2
  }

  predicate IsIn(epId: nat) {
    epId % 2 == 1
  }

  function TwoBytes(low: nat, high: nat): nat {
    low + 0x100 * high
  }

  function MakeEPConfig(d: Descriptor): EndpointConfig
    requires IsSized(d) && d.kind == ENDPOINT
  {
    EndpointConfig(EndpointID(d.body[0] % 16, d.body[0] / 0x80 == 1), d.body[1] % 4, TwoBytes(d.body[2], d.body[3]), d.body[4])
  }

  /** Number and direction survive the packing, and nothing else of the address is kept. */
  lemma NumberAndDirectionSurvive(d: Descriptor, e: Descriptor)
    requires IsSized(d) && d.kind == ENDPOINT && IsSized(e) && e.kind == ENDPOINT
    ensures var id := MakeEPConfig(d).epId;
            id < 32 && Number(id) == d.body[0] % 16 && (IsIn(id) <==> d.body[0] >= 0x80)
    ensures MakeEPConfig(d).epId == MakeEPConfig(e).epId <==>
            d.body[0] % 16 == e.body[0] % 16 && (d.body[0] >= 0x80 <==> e.body[0] >= 0x80)
  {
  }

  /** The bytes of an endpoint descriptor, section 9.6.6 of the USB 2.0 specification: length, type,
      address, attributes, packet size with the low byte first, and interval. Bits 4 to 6 of the
      address and 2 to 7 of the attributes hold other things. */
  function EndpointBytes(number: nat, dirIn: bool, transferType: nat, maxPacketSize: nat, interval: Byte, more: nat,
                         others: nat): seq<Byte>
    requires number < 16 && transferType < 4 && maxPacketSize < TWO_TO_THE_16 && more < 8 && others < 64
  {
    [7, 5, number + 16 * more + (if dirIn then 0x80 else 0), transferType + 4 * others, maxPacketSize % 0x100,
     maxPacketSize / 0x100, interval]
  }

  /** Every field of a serialized endpoint is read back. */
  lemma EndpointRoundTrip(d: Descriptor, number: nat, dirIn: bool, transferType: nat, maxPacketSize: nat, interval: Byte,
                          more: nat, others: nat)
    requires number < 16 && transferType < 4 && maxPacketSize < TWO_TO_THE_16 && more < 8 && others < 64
    requires IsSized(d) && Bytes(d) == EndpointBytes(number, dirIn, transferType, maxPacketSize, interval, more, others)
    ensures d.kind == ENDPOINT
    ensures var conf := MakeEPConfig(d);
            && Number(conf.epId) == number && IsIn(conf.epId) == dirIn
            && conf.epType == transferType && conf.maxPacketSize == maxPacketSize && conf.interval == interval
  {
    var b := Bytes(d);
    assert b[1] == d.kind && forall i :: 0 <= i < |d.body| ==> b[i + 2] == d.body[i];
  }

  /** The endpoints among some descriptors, in order. */
  function Endpoints(ds: seq<Descriptor>): seq<EndpointConfig>
    requires AllSized(ds)
  {
    if ds == [] then []
    else Endpoints(ds[..|ds| - 1]) + if ds[|ds| - 1].kind == ENDPOINT then [MakeEPConfig(ds[|ds| - 1])] else []
  }

  lemma {:induction false} EndpointsConcat(s: seq<Descriptor>, t: seq<Descriptor>)
    requires AllSized(s) && AllSized(t)
    ensures Endpoints(s + t) == Endpoints(s) + Endpoints(t)
  {
    if t == [] {
      assert s + t == s;
    } else {
      assert (s + t)[..|s + t| - 1] == s + t[..|t| - 1];
      EndpointsConcat(s, t[..|t| - 1]);
    }
  }

  // ---------------------------------------------------------------------------
  // Interfaces
  // ---------------------------------------------------------------------------

  function NumEndpoints(d: Descriptor): nat
    requires IsSized(d) && d.kind == INTERFACE
  {
    d.body[2]
  }

  datatype Driver = Keyboard(interfaceNumber: nat) | Mouse(interfaceNumber: nat)

  /** A driver for a HID boot interface with a protocol it knows. */
  function NewClassDriver(d: Descriptor): Option<Driver>
    requires IsSized(d) && d.kind == INTERFACE
  {
    if d.body[3] == 3 && d.body[4] == 1 then
      if d.body[5] == 1 then Some(Keyboard(d.body[0]))
      else if d.body[5] == 2 then Some(Mouse(d.body[0]))
      else None
    else None
  }

  /** A configuration descriptor has type 2 in byte 1, and the value that selects it in byte 5. */
  lemma ConfigurationRead(d: Descriptor)
    requires IsSized(d)
    ensures d.kind == CONFIGURATION <==> Bytes(d)[1] == 2
    ensures d.kind == CONFIGURATION ==> d.body[3] == Bytes(d)[5]
  {
    var b := Bytes(d);
    assert b[1] == d.kind && forall i :: 0 <= i < |d.body| ==> b[i + 2] == d.body[i];
  }

  /** The bytes of an interface descriptor, section 9.6.5 of the USB 2.0 specification. */
  function InterfaceBytes(number: Byte, alternate: Byte, endpoints: Byte, class_: Byte, subClass: Byte, protocol: Byte,
                          name: Byte): seq<Byte>
  {
    [9, 4, number, alternate, endpoints, class_, subClass, protocol, name]
  }

  /** A driver is made for a human interface device, class 3, with the boot interface, subclass 1: a
      keyboard for protocol 1, a mouse for protocol 2, and for no other interface. */
  lemma DriverExactly(d: Descriptor, number: Byte, alternate: Byte, endpoints: Byte, class_: Byte, subClass: Byte,
                      protocol: Byte, name: Byte)
    requires IsSized(d) && Bytes(d) == InterfaceBytes(number, alternate, endpoints, class_, subClass, protocol, name)
    ensures d.kind == INTERFACE && NumEndpoints(d) == endpoints
    ensures NewClassDriver(d) == Some(Keyboard(number)) <==> class_ == 3 && subClass == 1 && protocol == 1
    ensures NewClassDriver(d) == Some(Mouse(number)) <==> class_ == 3 && subClass == 1 && protocol == 2
    ensures NewClassDriver(d) == None <==> !(class_ == 3 && subClass == 1 && (protocol == 1 || protocol == 2))
  {
    var b := Bytes(d);
    assert b[1] == d.kind && forall i :: 0 <= i < |d.body| ==> b[i + 2] == d.body[i];
  }

  predicate IsSupported(d: Descriptor)
    requires IsSized(d)
  {
    d.kind == INTERFACE && NewClassDriver(d).Some?
  }

  /** The first supported interface among the descriptors after the first. */
  ghost predicate IsFirst(ds: seq<Descriptor>, k: nat)
    requires AllSized(ds)
  {
    0 < k < |ds| && IsSupported(ds[k]) && forall i :: 0 < i < k ==> !IsSupported(ds[i])
  }

  lemma FirstUnique(ds: seq<Descriptor>, j: nat)
    requires AllSized(ds) && IsFirst(ds, j)
    ensures forall k: nat :: IsFirst(ds, k) <==> k == j
  {
  }

  ghost predicate NoneSupported(ds: seq<Descriptor>)
    requires AllSized(ds)
  {
    forall i :: 0 < i < |ds| ==> !IsSupported(ds[i])
  }

  // ---------------------------------------------------------------------------
  // The reader
  // ---------------------------------------------------------------------------

  /** Where a descriptor begins. */
  function At(ds: seq<Descriptor>, i: nat): nat
    requires AllSized(ds) && i <= |ds|
  {
    |Serialized(ds[..i])|
  }

  lemma SerializedLast(s: seq<Descriptor>, d: Descriptor)
    requires AllSized(s) && IsSized(d)
    ensures AllSized(s + [d]) && Serialized(s + [d]) == Serialized(s) + Bytes(d)
  {
    assert (s + [d])[..|s|] == s;
  }

  lemma AppendedLast(s: seq<Descriptor>, t: seq<Descriptor>, d: Descriptor)
    requires AllSized(s) && AllSized(t) && IsSized(d)
    ensures s + (t + [d]) == (s + t) + [d] && AllSized(s + t) && AllSized(t + [d])
  {
  }

  lemma Regroup(a: seq<Byte>, b: seq<Byte>, c: seq<Byte>)
    ensures (a + b) + c == a + (b + c)
  {
  }

  lemma ConcatStep(s: seq<Descriptor>, t: seq<Descriptor>, d: Descriptor)
    requires AllSized(s) && AllSized(t) && IsSized(d) && Serialized(s + t) == Serialized(s) + Serialized(t)
    ensures AllSized(t + [d]) && Serialized(s + (t + [d])) == Serialized(s) + Serialized(t + [d])
  {
    AppendedLast(s, t, d);
    SerializedLast(s + t, d);
    SerializedLast(t, d);
    Regroup(Serialized(s), Serialized(t), Bytes(d));
  }

  lemma {:induction false} SerializedConcat(s: seq<Descriptor>, t: seq<Descriptor>)
    requires AllSized(s) && AllSized(t)
    ensures Serialized(s + t) == Serialized(s) + Serialized(t)
  {
    if t == [] {
      assert s + t == s;
    } else {
      var front, last := t[..|t| - 1], t[|t| - 1];
      SerializedConcat(s, front);
      ConcatStep(s, front, last);
      assert t == front + [last];
    }
  }

  /** The bytes at that place are the descriptor, and the next one is its length further on. */
  lemma ReadAt(ds: seq<Descriptor>, i: nat)
    requires AllSized(ds) && i < |ds|
    ensures At(ds, i + 1) == At(ds, i) + |ds[i].body| + 2 <= |Serialized(ds)|
    ensures Serialized(ds)[At(ds, i)..At(ds, i + 1)] == Bytes(ds[i])
  {
    assert ds[..i + 1][..i] == ds[..i] && ds == ds[..i + 1] + ds[i + 1..];
    SerializedConcat(ds[..i + 1], ds[i + 1..]);
    assert Serialized(ds[..i + 1]) == Serialized(ds[..i]) + Bytes(ds[i]);
  }

  lemma SplitBytes(s: seq<Byte>, p: nat, d: Descriptor)
    requires IsSized(d) && p + |d.body| + 2 <= |s| && s[p..p + |d.body| + 2] == Bytes(d)
    ensures s[p] == |d.body| + 2 && s[p + 1] == d.kind && s[p + 2..p + 2 + |d.body|] == d.body
  {
    var bytes := s[p..p + |d.body| + 2];
    assert s[p] == bytes[0] && s[p + 1] == bytes[1];
    assert s[p + 2..p + 2 + |d.body|] == bytes[2..];
  }

  lemma ReadFields(ds: seq<Descriptor>, i: nat)
    requires AllSized(ds) && i < |ds|
    ensures At(ds, i + 1) == At(ds, i) + |ds[i].body| + 2 <= |Serialized(ds)|
    ensures var s, p := Serialized(ds), At(ds, i);
            s[p] == |ds[i].body| + 2 && s[p + 1] == ds[i].kind && s[p + 2..p + 2 + |ds[i].body|] == ds[i].body
  {
    ReadAt(ds, i);
    SplitBytes(Serialized(ds), At(ds, i), ds[i]);
  }

  lemma WholeLength(ds: seq<Descriptor>)
    requires AllSized(ds)
    ensures At(ds, |ds|) == |Serialized(ds)| && At(ds, 0) == 0
  {
    assert ds[..|ds|] == ds;
  }

  lemma {:induction false} AtGrows(ds: seq<Descriptor>, i: nat, j: nat)
    requires AllSized(ds) && i <= j <= |ds|
    ensures At(ds, i) <= At(ds, j)
    decreases j
  {
    if i < j {
      AtGrows(ds, i, j - 1);
      ReadAt(ds, j - 1);
    }
  }

  /** The buffer holds some descriptors, and the length received ends in the last one or behind it. */
  ghost predicate Contains(buf: seq<Byte>, len: nat, ds: seq<Descriptor>) {
    && AllSized(ds) && |ds| > 0 && Serialized(ds) <= buf
    && At(ds, |ds| - 1) < len <= |Serialized(ds)|
  }

  lemma ReadContained(buf: seq<Byte>, len: nat, ds: seq<Descriptor>, i: nat)
    requires Contains(buf, len, ds) && i < |ds|
    ensures var d, p := ds[i], At(ds, i);
            && p + 2 + |d.body| <= |buf| && At(ds, i + 1) == p + |d.body| + 2
            && buf[p] == |d.body| + 2 && buf[p + 1] == d.kind && buf[p + 2..p + 2 + |d.body|] == d.body
    ensures i + 1 < |ds| <==> At(ds, i + 1) < len
  {
    ReadFields(ds, i);
    WholeLength(ds);
    var s, p := Serialized(ds), At(ds, i);
    assert buf[..|s|] == s;
    assert buf[p + 2..p + 2 + |ds[i].body|] == s[p + 2..p + 2 + |ds[i].body|];
    if i + 1 < |ds| { AtGrows(ds, i + 1, |ds| - 1); }
  }

  // ---------------------------------------------------------------------------
  // The reader on any buffer
  // ---------------------------------------------------------------------------

  /** Where one call takes the reader. */
  function Stepped(buf: seq<Byte>, p: nat): nat
    requires p < |buf|
  {
    p + buf[p]
  }

  /** Where the reader is after some calls, as long as it stays in the buffer. */
  function NextTimes(buf: seq<Byte>, p: nat, n: nat): Option<nat>
    decreases n
  {
    if n == 0 then Some(p) else if p < |buf| then NextTimes(buf, Stepped(buf, p), n - 1) else None
  }

  /** A descriptor of length zero is handed out again and again, and no other is seen twice. */
  lemma {:induction false} ZeroLengthStays(buf: seq<Byte>, p: nat, n: nat)
    requires p < |buf|
    ensures NextTimes(buf, p, n) == Some(p) <==> n == 0 || buf[p] == 0
    decreases n
  {
    if n > 0 {
      if buf[p] == 0 { ZeroLengthStays(buf, p, n - 1); } else { NeverBack(buf, p + buf[p], n - 1); }
    }
  }

  lemma {:induction false} NeverBack(buf: seq<Byte>, p: nat, n: nat)
    ensures NextTimes(buf, p, n).Some? ==> p <= NextTimes(buf, p, n).value
    decreases n
  {
    if n > 0 && p < |buf| { NeverBack(buf, p + buf[p], n - 1); }
  }

  /** One call from a descriptor to the next one, or past the length. */
  lemma StepContained(buf: seq<Byte>, len: nat, ds: seq<Descriptor>, i: nat)
    requires Contains(buf, len, ds) && i < |ds|
    ensures At(ds, i) + 1 < |buf| && Stepped(buf, At(ds, i)) == At(ds, i + 1) > At(ds, i)
    ensures if i + 1 < |ds| then At(ds, i + 1) < len && At(ds, i + 1) + 1 < |buf| && buf[At(ds, i + 1) + 1] == ds[i + 1].kind
            else At(ds, i + 1) >= len
  {
    ReadContained(buf, len, ds, i);
    if i + 1 < |ds| { ReadContained(buf, len, ds, i + 1); }
  }

  /** The search for an interface stops here: the data are over, or this is one. */
  predicate Stops(buf: seq<Byte>, len: nat, q: nat) {
    q >= len || (q + 1 < |buf| && buf[q + 1] == INTERFACE)
  }

  /** The search that starts here stays in the buffer and ends: it meets no zero length on its way. */
  predicate Searchable(buf: seq<Byte>, len: nat, p: nat)
    decreases |buf| - p
  {
    && p < |buf|
    && var q := Stepped(buf, p);
       Stops(buf, len, q) || (q + 1 < |buf| && buf[p] != 0 && Searchable(buf, len, q))
  }

  /** Where it stops. */
  function Search(buf: seq<Byte>, len: nat, p: nat): Option<nat>
    requires Searchable(buf, len, p)
    decreases |buf| - p
  {
    var q := Stepped(buf, p);
    if q >= len then None else if buf[q + 1] == INTERFACE then Some(q) else Search(buf, len, q)
  }

  lemma {:induction false} SearchStops(buf: seq<Byte>, len: nat, p: nat) returns (n: nat)
    requires Searchable(buf, len, p)
    ensures n > 0 && NextTimes(buf, p, n).Some? && Stops(buf, len, NextTimes(buf, p, n).value)
    decreases |buf| - p
  {
    if Stops(buf, len, Stepped(buf, p)) {
      n := 1;
    } else {
      n := SearchStops(buf, len, Stepped(buf, p));
      n := n + 1;
    }
  }

  lemma {:induction false} SearchGoesOn(buf: seq<Byte>, len: nat, p: nat, n: nat)
    requires len < |buf| && p < |buf| && !Searchable(buf, len, p) && n > 0
    ensures NextTimes(buf, p, n).Some? && !Stops(buf, len, NextTimes(buf, p, n).value)
    decreases n
  {
    if n > 1 { SearchGoesOn(buf, len, Stepped(buf, p), n - 1); }
  }

  /** The exact condition, on any buffer: some number of calls ends the search if and only if it is searchable. */
  lemma SearchEndsExactly(buf: seq<Byte>, len: nat, p: nat)
    requires len < |buf| && p < |buf|
    ensures Searchable(buf, len, p) <==>
            exists n: nat :: n > 0 && NextTimes(buf, p, n).Some? && Stops(buf, len, NextTimes(buf, p, n).value)
  {
    if Searchable(buf, len, p) {
      var n := SearchStops(buf, len, p);
    } else {
      forall n: nat | n > 0 ensures NextTimes(buf, p, n).Some? && !Stops(buf, len, NextTimes(buf, p, n).value) {
        SearchGoesOn(buf, len, p, n);
      }
    }
  }

  /** A length of zero holds the search for ever, unless it is an interface's. */
  lemma ZeroLengthHoldsSearch(buf: seq<Byte>, len: nat, p: nat)
    requires p < len < |buf| && buf[p] == 0
    ensures Searchable(buf, len, p) <==> buf[p + 1] == INTERFACE
  {
  }

  /** On serialized descriptors the search finds the next interface among them. */
  lemma {:induction false} SearchContained(buf: seq<Byte>, len: nat, ds: seq<Descriptor>, i: nat) returns (j: nat)
    requires Contains(buf, len, ds) && i < |ds|
    ensures i < j <= |ds| && forall k :: i < k < j ==> ds[k].kind != INTERFACE
    ensures Searchable(buf, len, At(ds, i))
    ensures if j < |ds| then ds[j].kind == INTERFACE && Search(buf, len, At(ds, i)) == Some(At(ds, j))
            else Search(buf, len, At(ds, i)) == None
    decreases |ds| - i
  {
    StepContained(buf, len, ds, i);
    if i + 1 == |ds| || ds[i + 1].kind == INTERFACE {
      j := i + 1;
    } else {
      j := SearchContained(buf, len, ds, i + 1);
    }
  }

  class ConfigurationDescriptorReader {
    const descBuf: seq<Byte>
    const len: nat
    var p: nat

    constructor (descBuf: seq<Byte>, len: nat)
      ensures this.descBuf == descBuf && this.len == len && p == 0
    {
      this.descBuf := descBuf;
      this.len := len;
      p := 0;
    }

    /** By its own length on, whatever the buffer holds. */
    method Next() returns (r: Option<nat>)
      requires p < |descBuf|
      modifies this`p
      ensures p == Stepped(descBuf, old(p)) && r == if p < len then Some(p) else None
    {
      p := p + descBuf[p];
      if p < len { return Some(p); }
      return None;
    }

    /** The next interface, on any buffer on which the search ends. */
    method NextInterface() returns (r: Option<nat>)
      requires Searchable(descBuf, len, p)
      modifies this`p
      ensures r == Search(descBuf, len, old(p)) && (r.Some? ==> p == r.value)
    {
      while true
        invariant Searchable(descBuf, len, p) && Search(descBuf, len, p) == Search(descBuf, len, old(p))
        decreases |descBuf| - p
      {
        r := Next();
        if r == None || descBuf[r.value + 1] == INTERFACE { return; }
      }
    }

    /** The buffer holds some descriptors, and the reader stands at one of them. */
    ghost predicate Reads(ds: seq<Descriptor>, i: nat)
      reads this
    {
      Contains(descBuf, len, ds) && i < |ds| && p == At(ds, i)
    }
  }

  // ---------------------------------------------------------------------------
  // The second phase of initialization
  // ---------------------------------------------------------------------------

  /** A fault is a read through a null pointer or a write past `ep_configs_`. */
  datatype Outcome = Unchanged | Configuring(value: Byte) | InvalidDescriptor | Fault

  predicate HasNumber(eps: seq<EndpointConfig>, number: nat) {
    exists i :: 0 <= i < |eps| && Number(eps[i].epId) == number
  }

  lemma HasNumberMore(eps: seq<EndpointConfig>, e: EndpointConfig, number: nat)
    ensures HasNumber(eps + [e], number) <==> HasNumber(eps, number) || Number(e.epId) == number
  {
    if HasNumber(eps, number) {
      var i :| 0 <= i < |eps| && Number(eps[i].epId) == number;
      assert (eps + [e])[i] == eps[i];
    }
    if Number(e.epId) == number { assert (eps + [e])[|eps|] == e; }
  }

  /** The drivers by endpoint number, after one driver has taken some endpoints. */
  ghost predicate Assigned(before: seq<Option<Driver>>, after: seq<Option<Driver>>, eps: seq<EndpointConfig>, d: Driver) {
    |after| == |before| && forall n :: 0 <= n < |after| ==> after[n] == if HasNumber(eps, n) then Some(d) else before[n]
  }

  lemma AssignedMore(before: seq<Option<Driver>>, after: seq<Option<Driver>>, eps: seq<EndpointConfig>, e: EndpointConfig,
                     d: Driver)
    requires Assigned(before, after, eps, d) && Number(e.epId) < |after|
    ensures Assigned(before, after[Number(e.epId) := Some(d)], eps + [e], d)
  {
    forall n: nat { HasNumberMore(eps, e, n); }
  }

  /** The endpoints that are read for the supported interface at `k`. */
  function EndpointsAfter(ds: seq<Descriptor>, k: nat): seq<EndpointConfig>
    requires AllSized(ds) && k < |ds|
  {
    Endpoints(ds[k + 1..])
  }

  lemma EndpointsOneMore(ds: seq<Descriptor>, k: nat, j: nat)
    requires AllSized(ds) && k < j < |ds|
    ensures Endpoints(ds[k + 1..j + 1])
            == Endpoints(ds[k + 1..j]) + if ds[j].kind == ENDPOINT then [MakeEPConfig(ds[j])] else []
  {
    assert ds[k + 1..j + 1][..j - k - 1] == ds[k + 1..j] && ds[k + 1..j + 1][j - k - 1] == ds[j];
  }

  lemma EndpointsPrefix(ds: seq<Descriptor>, k: nat, j: nat)
    requires AllSized(ds) && k < j <= |ds|
    ensures Endpoints(ds[k + 1..j]) <= EndpointsAfter(ds, k)
  {
    assert ds[k + 1..] == ds[k + 1..j] + ds[j..];
    EndpointsConcat(ds[k + 1..j], ds[j..]);
  }

  class Device {
    const epConfigs: array<EndpointConfig>
    const classDrivers: array<Option<Driver>>
    var numEpConfigs: nat
    var initializePhase: nat

    predicate Valid() {
      epConfigs.Length == MAX_ENDPOINTS && classDrivers.Length == 16
    }

    constructor ()
      ensures Valid() && fresh(epConfigs) && fresh(classDrivers) && numEpConfigs == 0 && initializePhase == 0
    {
      epConfigs := new EndpointConfig[MAX_ENDPOINTS];
      classDrivers := new Option<Driver>[16](_ => None);
      numEpConfigs, initializePhase := 0, 0;
    }

    /** The fields of the endpoint that the reader stands at. */
    method ReadEndpoint(reader: ConfigurationDescriptorReader, ghost ds: seq<Descriptor>, ghost i: nat)
      returns (conf: EndpointConfig)
      requires reader.Reads(ds, i) && ds[i].kind == ENDPOINT
      ensures conf == MakeEPConfig(ds[i])
    {
      ReadContained(reader.descBuf, reader.len, ds, i);
      var body := reader.descBuf[reader.p + 2..reader.p + 7];
      assert body == ds[i].body[..5];
      conf := EndpointConfig(EndpointID(body[0] % 16, body[0] / 0x80 == 1), body[1] % 4, TwoBytes(body[2], body[3]), body[4]);
    }

    /** The driver for the interface that the reader stands at, and the endpoints it claims. */
    method ReadInterface(reader: ConfigurationDescriptorReader, ghost ds: seq<Descriptor>, ghost i: nat)
      returns (driver: Option<Driver>, numEndpoints: nat)
      requires reader.Reads(ds, i) && ds[i].kind == INTERFACE
      ensures driver == NewClassDriver(ds[i]) && numEndpoints == NumEndpoints(ds[i])
    {
      ReadContained(reader.descBuf, reader.len, ds, i);
      var body := reader.descBuf[reader.p + 2..reader.p + 9];
      assert body == ds[i].body[..7];
      driver, numEndpoints := NewClassDriver(Descriptor(INTERFACE, body)), body[2];
    }

    method StoreEndpoint(conf: EndpointConfig, driver: Driver, ghost before: seq<Option<Driver>>)
      requires Valid() && numEpConfigs < MAX_ENDPOINTS && Number(conf.epId) < 16
      requires Assigned(before, classDrivers[..], epConfigs[..numEpConfigs], driver)
      modifies this`numEpConfigs, epConfigs, classDrivers
      ensures numEpConfigs == old(numEpConfigs) + 1
      ensures epConfigs[..numEpConfigs] == old(epConfigs[..numEpConfigs]) + [conf]
      ensures Assigned(before, classDrivers[..], epConfigs[..numEpConfigs], driver)
    {
      AssignedMore(before, classDrivers[..], epConfigs[..numEpConfigs], conf, driver);
      epConfigs[numEpConfigs] := conf;
      numEpConfigs := numEpConfigs + 1;
      classDrivers[Number(conf.epId)] := Some(driver);
    }

    /** The descriptor at `j`, after the interface at `k`: an endpoint is stored if there is room. */
    method TakeDescriptor(reader: ConfigurationDescriptorReader, driver: Driver, ghost ds: seq<Descriptor>,
                          ghost k: nat, ghost j: nat, ghost before: seq<Option<Driver>>)
      returns (ok: bool)
      requires Valid() && reader.Reads(ds, j) && k < j && numEpConfigs <= MAX_ENDPOINTS
      requires epConfigs[..numEpConfigs] == Endpoints(ds[k + 1..j])
      requires Assigned(before, classDrivers[..], epConfigs[..numEpConfigs], driver)
      modifies this`numEpConfigs, epConfigs, classDrivers
      ensures ok <==> old(numEpConfigs) < MAX_ENDPOINTS || ds[j].kind != ENDPOINT
      ensures ok ==>
                && old(numEpConfigs) <= numEpConfigs <= old(numEpConfigs) + 1 && numEpConfigs <= MAX_ENDPOINTS
                && epConfigs[..numEpConfigs] == Endpoints(ds[k + 1..j + 1])
                && Assigned(before, classDrivers[..], epConfigs[..numEpConfigs], driver)
    {
      EndpointsOneMore(ds, k, j);
      ReadContained(reader.descBuf, reader.len, ds, j);
      if reader.descBuf[reader.p + 1] == ENDPOINT {
        var conf := ReadEndpoint(reader, ds, j);
        if numEpConfigs == MAX_ENDPOINTS { return false; }
        StoreEndpoint(conf, driver, before);
      }
      return true;
    }

    /** Stores the endpoints of the interface at `k`, or faults when they run out or do not fit. */
    method ReadEndpoints(reader: ConfigurationDescriptorReader, driver: Driver, numEndpoints: nat,
                         ghost ds: seq<Descriptor>, ghost k: nat)
      returns (ok: bool)
      requires Valid() && reader.Reads(ds, k)
      modifies reader`p, this`numEpConfigs, epConfigs, classDrivers
      ensures ok <==> CanStore(ds, k, numEndpoints)
      ensures ok ==> Stored(ds, k, numEndpoints, driver, old(classDrivers[..]))
    {
      numEpConfigs := 0;
      ghost var j, before := k, classDrivers[..];
      while numEpConfigs < numEndpoints
        invariant k <= j < |ds| && reader.Reads(ds, j)
        invariant numEpConfigs <= MAX_ENDPOINTS && numEpConfigs <= numEndpoints
        invariant epConfigs[..numEpConfigs] == Endpoints(ds[k + 1..j + 1])
        invariant Assigned(before, classDrivers[..], epConfigs[..numEpConfigs], driver)
        decreases |ds| - j
      {
        StepContained(reader.descBuf, reader.len, ds, j);
        var desc := reader.Next();
        if desc == None {
          assert ds[k + 1..j + 1] == ds[k + 1..];
          return false;
        }
        j := j + 1;
        var stored := TakeDescriptor(reader, driver, ds, k, j, before);
        if !stored { return false; }
      }
      EndpointsPrefix(ds, k, j + 1);
      return true;
    }

    /** Enough endpoints follow the interface at `k`, and `ep_configs_` has room for as many as it claims. */
    ghost predicate CanStore(ds: seq<Descriptor>, k: nat, n: nat)
      requires AllSized(ds) && k < |ds|
    {
      n <= |EndpointsAfter(ds, k)| && n <= 16
    }

    ghost predicate Stored(ds: seq<Descriptor>, k: nat, n: nat, driver: Driver, before: seq<Option<Driver>>)
      requires Valid() && AllSized(ds) && k < |ds|
      reads this, epConfigs, classDrivers
    {
      && CanStore(ds, k, n)
      && numEpConfigs == n && epConfigs[..n] == EndpointsAfter(ds, k)[..n]
      && Assigned(before, classDrivers[..], epConfigs[..n], driver)
    }

    /**
     * The first interface with a driver gets the endpoint descriptors that follow it, as many
     * as it claims; without such an interface nothing happens.
     */
    method InitializePhase2(buf: seq<Byte>, len: nat, ghost ds: seq<Descriptor>) returns (o: Outcome)
      requires Valid() && Contains(buf, len, ds)
      modifies this, epConfigs, classDrivers
      ensures o == InvalidDescriptor <==> ds[0].kind != CONFIGURATION
      ensures o == InvalidDescriptor || o == Unchanged ==>
                && numEpConfigs == old(numEpConfigs) && initializePhase == old(initializePhase)
                && epConfigs[..] == old(epConfigs[..]) && classDrivers[..] == old(classDrivers[..])
      ensures ds[0].kind == CONFIGURATION && NoneSupported(ds) ==> o == Unchanged
      ensures forall k: nat :: ds[0].kind == CONFIGURATION && IsFirst(ds, k) ==>
                if CanStore(ds, k, NumEndpoints(ds[k])) then
                  && o == Configuring(ds[0].body[3]) && initializePhase == 3
                  && Stored(ds, k, NumEndpoints(ds[k]), NewClassDriver(ds[k]).value, old(classDrivers[..]))
                else o == Fault
    {
      ReadContained(buf, len, ds, 0);
      WholeLength(ds);
      if buf[1] != CONFIGURATION { return InvalidDescriptor; }
      var configurationValue := buf[5];
      assert configurationValue == buf[2..2 + |ds[0].body|][3] == ds[0].body[3];
      var reader := new ConfigurationDescriptorReader(buf, len);
      ghost var j := 0;
      while true
        invariant reader.Reads(ds, j) && fresh(reader) && forall i :: 0 < i <= j ==> !IsSupported(ds[i])
        invariant numEpConfigs == old(numEpConfigs) && initializePhase == old(initializePhase)
        invariant epConfigs[..] == old(epConfigs[..]) && classDrivers[..] == old(classDrivers[..])
        decreases |ds| - j
      {
        j := SearchContained(buf, len, ds, j);
        var at := reader.NextInterface();
        if at == None {
          assert NoneSupported(ds);
          return Unchanged;
        }
        var classDriver, numEndpoints := ReadInterface(reader, ds, j);
        if classDriver.Some? {
          FirstUnique(ds, j);
          o := Configure(reader, classDriver.value, numEndpoints, configurationValue, ds, j);
          return;
        }
      }
    }

    /** Once an interface has a driver. */
    method Configure(reader: ConfigurationDescriptorReader, driver: Driver, numEndpoints: nat, value: Byte,
                     ghost ds: seq<Descriptor>, ghost k: nat)
      returns (o: Outcome)
      requires Valid() && reader.Reads(ds, k)
      modifies reader`p, this`numEpConfigs, this`initializePhase, epConfigs, classDrivers
      ensures if CanStore(ds, k, numEndpoints) then
                && o == Configuring(value) && initializePhase == 3
                && Stored(ds, k, numEndpoints, driver, old(classDrivers[..]))
              else o == Fault
    {
      var ok := ReadEndpoints(reader, driver, numEndpoints, ds, k);
      if !ok { return Fault; }
      initializePhase := 3;
      return Configuring(value);
    }
  }

  // ---------------------------------------------------------------------------
  // Well-formed configurations
  // ---------------------------------------------------------------------------

  /** An interface and what follows it up to the next one. */
  datatype Interface = Interface(head: Descriptor, items: seq<Descriptor>)

  /** As many endpoints as the interface claims, and no other interface among them. */
  ghost predicate IsInterface(f: Interface) {
    && IsSized(f.head) && f.head.kind == INTERFACE && AllSized(f.items)
    && (forall i :: 0 <= i < |f.items| ==> f.items[i].kind != INTERFACE)
    && |Endpoints(f.items)| == NumEndpoints(f.head) <= MAX_ENDPOINTS
  }

  ghost predicate AllInterfaces(fs: seq<Interface>) {
    forall i :: 0 <= i < |fs| ==> IsInterface(fs[i])
  }

  ghost function Flat(fs: seq<Interface>): (ds: seq<Descriptor>)
    requires AllInterfaces(fs)
    ensures AllSized(ds)
  {
    if fs == [] then [] else ([fs[0].head] + fs[0].items) + Flat(fs[1..])
  }

  /** The first interface with a driver, if there is one. */
  ghost predicate FirstInterface(fs: seq<Interface>, b: nat)
    requires AllInterfaces(fs)
  {
    b < |fs| && IsSupported(fs[b].head) && forall i :: 0 <= i < b ==> !IsSupported(fs[i].head)
  }

  lemma NothingBefore(f: Interface, rest: seq<Descriptor>, k: nat)
    requires IsInterface(f) && !IsSupported(f.head) && AllSized(rest) && k <= |rest|
    requires forall i :: 0 <= i < k ==> !IsSupported(rest[i])
    ensures forall i :: 0 <= i < |f.items| + 1 + k ==> !IsSupported((([f.head] + f.items) + rest)[i])
  {
    forall i | 0 <= i < |f.items| + 1 + k ensures !IsSupported((([f.head] + f.items) + rest)[i]) {
      if 0 < i <= |f.items| { assert f.items[i - 1].kind != INTERFACE; }
    }
  }

  lemma ConcatTail(front: seq<Descriptor>, rest: seq<Descriptor>, k: nat)
    requires k < |rest|
    ensures (front + rest)[|front| + k] == rest[k] && (front + rest)[|front| + k + 1..] == rest[k + 1..]
  {
  }

  /** The endpoints from a supported interface on begin with its own. */
  lemma FlatHere(f: Interface, rest: seq<Descriptor>)
    requires IsInterface(f) && AllSized(rest)
    ensures Endpoints(f.items) <= Endpoints((([f.head] + f.items) + rest)[1..])
  {
    assert (([f.head] + f.items) + rest)[1..] == f.items + rest;
    EndpointsConcat(f.items, rest);
  }

  /** The first supported interface of a flat list is at `k`, with these endpoints behind it. */
  ghost predicate Leads(ds: seq<Descriptor>, k: nat, f: Interface)
    requires AllSized(ds) && AllSized(f.items)
  {
    && k < |ds| && ds[k] == f.head && (forall i :: 0 <= i < k ==> !IsSupported(ds[i]))
    && Endpoints(f.items) <= Endpoints(ds[k + 1..])
  }

  lemma LeadsLater(g: Interface, rest: seq<Descriptor>, k: nat, f: Interface)
    requires IsInterface(g) && !IsSupported(g.head) && AllSized(rest) && AllSized(f.items) && Leads(rest, k, f)
    ensures Leads(([g.head] + g.items) + rest, |g.items| + 1 + k, f)
  {
    NothingBefore(g, rest, k);
    ConcatTail([g.head] + g.items, rest, k);
  }

  lemma FirstOfRest(fs: seq<Interface>, b: nat)
    requires AllInterfaces(fs) && FirstInterface(fs, b) && b > 0
    ensures AllInterfaces(fs[1..]) && FirstInterface(fs[1..], b - 1) && fs[1..][b - 1] == fs[b] && !IsSupported(fs[0].head)
  {
  }

  /** Its place among the descriptors, and the endpoints found from there on. */
  lemma {:induction false} FlatFirst(fs: seq<Interface>, b: nat) returns (k: nat)
    requires AllInterfaces(fs) && FirstInterface(fs, b)
    ensures Leads(Flat(fs), k, fs[b])
  {
    if b == 0 {
      k := 0;
      FlatHere(fs[0], Flat(fs[1..]));
    } else {
      FirstOfRest(fs, b);
      k := FlatFirst(fs[1..], b - 1);
      LeadsLater(fs[0], Flat(fs[1..]), k, fs[b]);
      k := |fs[0].items| + 1 + k;
    }
  }

  lemma {:induction false} FlatNone(fs: seq<Interface>)
    requires AllInterfaces(fs) && forall i :: 0 <= i < |fs| ==> !IsSupported(fs[i].head)
    ensures forall i :: 0 <= i < |Flat(fs)| ==> !IsSupported(Flat(fs)[i])
  {
    if fs != [] { FlatNone(fs[1..]); }
  }

  /** Descriptors that are no interfaces do not matter in front. */
  lemma LeadsBehind(others: seq<Descriptor>, ds: seq<Descriptor>, k: nat, f: Interface)
    requires AllSized(others) && AllSized(ds) && AllSized(f.items) && Leads(ds, k, f)
    requires forall i :: 0 <= i < |others| ==> others[i].kind != INTERFACE
    ensures Leads(others + ds, |others| + k, f)
  {
    ConcatTail(others, ds, k);
  }

  /** A configuration: its own descriptor, others such as an association, and the interfaces. */
  ghost function Whole(config: Descriptor, others: seq<Descriptor>, fs: seq<Interface>): (ds: seq<Descriptor>)
    requires IsSized(config) && AllSized(others) && AllInterfaces(fs)
    ensures AllSized(ds) && |ds| > 0
  {
    [config] + (others + Flat(fs))
  }

  ghost predicate IsWhole(config: Descriptor, others: seq<Descriptor>, fs: seq<Interface>) {
    && IsSized(config) && config.kind == CONFIGURATION && AllSized(others) && AllInterfaces(fs)
    && forall i :: 0 <= i < |others| ==> others[i].kind != INTERFACE
  }

  /**
   * A configuration whose interfaces have the endpoints they claim never faults, and what is
   * stored is exactly the endpoint list of the first supported interface.
   */
  lemma WellFormedStoresExactly(config: Descriptor, others: seq<Descriptor>, fs: seq<Interface>, b: nat) returns (k: nat)
    requires IsWhole(config, others, fs) && FirstInterface(fs, b)
    ensures IsFirst(Whole(config, others, fs), k)
    ensures var ds, n := Whole(config, others, fs), NumEndpoints(fs[b].head);
            && ds[k] == fs[b].head && n <= |EndpointsAfter(ds, k)| && n <= MAX_ENDPOINTS
            && EndpointsAfter(ds, k)[..n] == Endpoints(fs[b].items)
  {
    k := FlatFirst(fs, b);
    LeadsBehind(others, Flat(fs), k, fs[b]);
    ConcatTail([config], others + Flat(fs), |others| + k);
    k := 1 + |others| + k;
  }

  /** Without a supported interface there is nothing to store. */
  lemma UnsupportedStoresNothing(config: Descriptor, others: seq<Descriptor>, fs: seq<Interface>)
    requires IsWhole(config, others, fs)
    ensures NoneSupported(Whole(config, others, fs)) <==> forall i :: 0 <= i < |fs| ==> !IsSupported(fs[i].head)
  {
    if forall i :: 0 <= i < |fs| ==> !IsSupported(fs[i].head) {
      FlatNone(fs);
    } else {
      var b := FirstOf(fs);
      var k := WellFormedStoresExactly(config, others, fs, b);
    }
  }

  lemma FirstOf(fs: seq<Interface>) returns (b: nat)
    requires AllInterfaces(fs) && exists i :: 0 <= i < |fs| && IsSupported(fs[i].head)
    ensures FirstInterface(fs, b)
  {
    b := 0;
    while !IsSupported(fs[b].head)
      invariant b < |fs| && (forall i :: 0 <= i < b ==> !IsSupported(fs[i].head))
      invariant exists i :: b <= i < |fs| && IsSupported(fs[i].head)
      decreases |fs| - b
    {
      b := b + 1;
    }
  }

  lemma SerializedFront(ds: seq<Descriptor>)
    requires AllSized(ds) && ds != []
    ensures Serialized(ds) == Bytes(ds[0]) + Serialized(ds[1..])
  {
    assert ds == [ds[0]] + ds[1..];
    SerializedConcat([ds[0]], ds[1..]);
    assert Serialized([ds[0]]) == Bytes(ds[0]);
  }

  lemma SameFront(d: Descriptor, e: Descriptor, s: seq<Byte>, t: seq<Byte>)
    requires IsSized(d) && IsSized(e) && Bytes(d) + s == Bytes(e) + t
    ensures d == e && s == t
  {
    var all := Bytes(d) + s;
    assert all[0] == |d.body| + 2 && all[1] == d.kind;
    assert d.body == all[2..|d.body| + 2] == e.body;
    assert s == all[|d.body| + 2..] == t;
  }

  /** Bytes are the serialization of one list of descriptors only. */
  lemma {:induction false} SerializedUnique(s: seq<Descriptor>, t: seq<Descriptor>)
    requires AllSized(s) && AllSized(t) && Serialized(s) == Serialized(t)
    ensures s == t
  {
    if s != [] { SerializedFront(s); }
    if t != [] { SerializedFront(t); }
    if s != [] && t != [] {
      SameFront(s[0], t[0], Serialized(s[1..]), Serialized(t[1..]));
      SerializedUnique(s[1..], t[1..]);
    }
  }
}
