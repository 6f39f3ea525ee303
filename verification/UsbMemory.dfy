/** The USB driver's memory pool: a pointer that moves forward to aligned places and never back. */
module UsbMemory {
  import opened Wrappers
  import opened Bits

  const POOL_SIZE: nat := 0x20000

  type UInt = x: nat | x < TWO_TO_THE_32

  /** An alignment or a boundary: 0 for none, or a power of two in 32 bits. */
  ghost predicate IsConstraint(c: nat) {
    c == 0 || exists k: nat :: k < 32 && c == Pow2(k)
  }

  /** An address is a multiple of a constraint. */
  ghost predicate Meets(x: nat, c: nat) {
    forall k: nat :: c == Pow2(k) ==> Aligned(x, k)
  }

  /** No multiple of the boundary lies inside the block. */
  ghost predicate InOneWindow(p: nat, size: nat, boundary: UInt) {
    boundary > 0 ==> forall m: nat :: Meets(m, boundary) ==> !(p < m < p + size)
  }

  function Wrap(x: nat): nat {
    if x < WORD then x else x % WORD
  }

  /** The pool and everything a constraint can round an address in it up to. */
  const TOP: nat := 0x8000_0000_0000_0000

  // ---------------------------------------------------------------------------
  // One allocation
  // ---------------------------------------------------------------------------

  function Ceil(value: nat, alignment: UInt): nat
    requires alignment > 0
  {
    And(Wrap(value + alignment - 1), Not(alignment - 1))
  }

  /** Where the pointer goes before the block is taken or refused. */
  function Place(ptr: nat, size: nat, alignment: UInt, boundary: UInt): nat {
    var p := if alignment > 0 then Ceil(ptr, alignment) else ptr;
    if boundary > 0 && Ceil(p, boundary) < Wrap(p + size) then Ceil(p, boundary) else p
  }

  predicate Refused(base: nat, p: nat, size: nat) {
    base + POOL_SIZE < Wrap(p + size)
  }

  class Pool {
    const base: nat
    var allocPtr: nat

    constructor (base: nat)
      ensures this.base == base && allocPtr == base
    {
      this.base := base;
      allocPtr := base;
    }

    /** A refused request still moves the pointer. */
    method AllocMem(size: nat, alignment: UInt, boundary: UInt) returns (r: Option<nat>)
      modifies this`allocPtr
      ensures var p := Place(old(allocPtr), size, alignment, boundary);
              if Refused(base, p, size) then r == None && allocPtr == p
              else r == Some(p) && allocPtr == Wrap(p + size)
    {
      if alignment > 0 { allocPtr := Ceil(allocPtr, alignment); }
      assert allocPtr == if alignment > 0 then Ceil(old(allocPtr), alignment) else old(allocPtr);
      if boundary > 0 {
        var nextBoundary := Ceil(allocPtr, boundary);
        if nextBoundary < Wrap(allocPtr + size) { allocPtr := nextBoundary; }
      }
      assert allocPtr == Place(old(allocPtr), size, alignment, boundary);
      if base + POOL_SIZE < Wrap(allocPtr + size) { return None; }
      r := Some(allocPtr);
      allocPtr := Wrap(allocPtr + size);
    }
  }

  // ---------------------------------------------------------------------------
  // What an allocation promises
  // ---------------------------------------------------------------------------

  lemma {:induction false} Pow2Injective(j: nat, k: nat)
    requires Pow2(j) == Pow2(k)
    ensures j == k
  {
    if j < k { Pow2Grows(j, k); }
    if k < j { Pow2Grows(k, j); }
  }

  lemma TopAligned(k: nat)
    requires k < WIDTH
    ensures Aligned(TOP, k)
  {
    WordSize();
    assert 2 * Pow2(WIDTH - 1) == Pow2(WIDTH);
    Pow2Aligned(WIDTH - 1, k);
  }

  lemma MeetsPow2(x: nat, k: nat)
    ensures Meets(x, Pow2(k)) <==> Aligned(x, k)
  {
    forall j: nat | Pow2(j) == Pow2(k) ensures j == k { Pow2Injective(j, k); }
  }

  /** The least multiple of the constraint from an address on, and no higher than the top. */
  lemma CeilIsLeast(x: nat, c: UInt)
    requires c > 0 && IsConstraint(c) && x <= TOP
    ensures x <= Ceil(x, c) <= TOP && Meets(Ceil(x, c), c)
    ensures forall y: nat :: x <= y && Meets(y, c) ==> Ceil(x, c) <= y
  {
    var k: nat :| k < 32 && c == Pow2(k);
    MaskRoundsUp(x, k);
    TopAligned(k);
    MeetsPow2(Ceil(x, c), k);
  }

  lemma MultiplesApart(x: nat, y: nat, c: UInt)
    requires c > 0 && IsConstraint(c) && Meets(x, c) && Meets(y, c) && x < y
    ensures x + c <= y
  {
    var k: nat :| k < 32 && c == Pow2(k);
    AlignedApart(x, y, k);
  }

  /** Of two powers of two, the multiples of the larger are multiples of the smaller. */
  lemma OneDivides(a: UInt, b: UInt, x: nat)
    requires a > 0 && b > 0 && IsConstraint(a) && IsConstraint(b)
    ensures Meets(x, a) ==> b > a || Meets(x, b)
    ensures Meets(x, b) ==> a > b || Meets(x, a)
  {
    var j: nat :| j < 32 && a == Pow2(j);
    var k: nat :| k < 32 && b == Pow2(k);
    MeetsPow2(x, j);
    MeetsPow2(x, k);
    if j < k { Pow2Grows(j, k); }
    if k < j { Pow2Grows(k, j); }
    if Meets(x, a) && k <= j { CoarserAligned(x, k, j); }
    if Meets(x, b) && j <= k { CoarserAligned(x, j, k); }
  }

  /** A place that suits a request. */
  ghost predicate Suits(q: nat, size: nat, alignment: UInt, boundary: UInt) {
    (alignment > 0 ==> Meets(q, alignment)) && InOneWindow(q, size, boundary)
  }

  ghost predicate IsRequest(size: nat, alignment: UInt, boundary: UInt) {
    IsConstraint(alignment) && IsConstraint(boundary) && size < WORD
  }

  /** The jump to the next boundary keeps the alignment. */
  lemma PlaceAligned(ptr: nat, size: nat, alignment: UInt, boundary: UInt)
    requires IsRequest(size, alignment, boundary) && ptr <= TOP
    ensures ptr <= Place(ptr, size, alignment, boundary) <= TOP
    ensures alignment > 0 ==> Meets(Place(ptr, size, alignment, boundary), alignment)
  {
    if alignment > 0 { CeilIsLeast(ptr, alignment); }
    var p := if alignment > 0 then Ceil(ptr, alignment) else ptr;
    if boundary > 0 {
      CeilIsLeast(p, boundary);
      if alignment > 0 {
        OneDivides(alignment, boundary, p);
        OneDivides(alignment, boundary, Ceil(p, boundary));
      }
    }
  }

  /** A block no larger than the boundary stays in one window, jump or no jump. */
  lemma PlaceInWindow(ptr: nat, size: nat, alignment: UInt, boundary: UInt)
    requires IsRequest(size, alignment, boundary) && ptr <= TOP && size <= boundary
    ensures InOneWindow(Place(ptr, size, alignment, boundary), size, boundary)
  {
    if alignment > 0 { CeilIsLeast(ptr, alignment); }
    var p := if alignment > 0 then Ceil(ptr, alignment) else ptr;
    if boundary > 0 {
      CeilIsLeast(p, boundary);
      var next := Ceil(p, boundary);
      forall m: nat | Meets(m, boundary) && p < m && next < m ensures next + boundary <= m {
        MultiplesApart(next, m, boundary);
      }
    }
  }

  /** No earlier place would have done. */
  lemma PlaceIsLeast(ptr: nat, size: nat, alignment: UInt, boundary: UInt, q: nat)
    requires IsRequest(size, alignment, boundary) && ptr <= TOP
    requires ptr <= q && Suits(q, size, alignment, boundary)
    ensures Place(ptr, size, alignment, boundary) <= q
  {
    if alignment > 0 { CeilIsLeast(ptr, alignment); }
    var p := if alignment > 0 then Ceil(ptr, alignment) else ptr;
    if boundary > 0 {
      CeilIsLeast(p, boundary);
    }
  }

  /** The first address from one on that meets a constraint. */
  ghost predicate IsFirst(from: nat, c: UInt, q: nat) {
    from <= q && if c == 0 then q == from else Meets(q, c) && forall y: nat :: from <= y < q ==> !Meets(y, c)
  }

  /** For a request of any size, larger than its boundary too: the block goes to the first aligned
      address, or, if it would reach into another window there, to the next boundary. */
  lemma PlaceExactly(ptr: nat, size: nat, alignment: UInt, boundary: UInt, q: nat)
    requires IsRequest(size, alignment, boundary) && ptr <= TOP && IsFirst(ptr, alignment, q) && q + size < WORD
    ensures InOneWindow(q, size, boundary) ==> Place(ptr, size, alignment, boundary) == q
    ensures !InOneWindow(q, size, boundary) ==> IsFirst(q, boundary, Place(ptr, size, alignment, boundary))
  {
    if alignment > 0 { CeilIsLeast(ptr, alignment); }
    assert q == if alignment > 0 then Ceil(ptr, alignment) else ptr;
    if boundary > 0 {
      CeilIsLeast(q, boundary);
      var next := Ceil(q, boundary);
      assert q < next < q + size ==> !InOneWindow(q, size, boundary);
    }
  }

  /**
   * Granting and lying in the pool are the same for a request that the pool could hold, and
   * for no other: a larger one that is granted has an end that wrapped past `2^64`.
   */
  lemma GrantedInPoolExactly(base: nat, ptr: nat, size: nat, alignment: UInt, boundary: UInt)
    requires IsRequest(size, alignment, boundary) && base <= ptr <= TOP && base + POOL_SIZE <= TOP
    requires !Refused(base, Place(ptr, size, alignment, boundary), size)
    ensures Place(ptr, size, alignment, boundary) + size <= base + POOL_SIZE <==> size <= POOL_SIZE
  {
    PlaceAligned(ptr, size, alignment, boundary);
  }

  /**
   * A request that the pool could hold is granted exactly when some suitable place from the
   * pointer on leaves the block inside the pool, and then it gets the first one.
   */
  lemma AllocExactly(base: nat, ptr: nat, size: nat, alignment: UInt, boundary: UInt)
    requires IsRequest(size, alignment, boundary) && (boundary == 0 || size <= boundary)
    requires base <= ptr <= TOP && base + POOL_SIZE <= TOP
    ensures var p := Place(ptr, size, alignment, boundary);
            && Suits(p, size, alignment, boundary)
            && (forall q: nat :: ptr <= q && Suits(q, size, alignment, boundary) ==> p <= q)
            && (size <= POOL_SIZE && !Refused(base, p, size) <==>
                exists q: nat :: ptr <= q && Suits(q, size, alignment, boundary) && q + size <= base + POOL_SIZE)
  {
    var p := Place(ptr, size, alignment, boundary);
    PlaceAligned(ptr, size, alignment, boundary);
    if boundary > 0 { PlaceInWindow(ptr, size, alignment, boundary); }
    forall q: nat | ptr <= q && Suits(q, size, alignment, boundary) ensures p <= q {
      PlaceIsLeast(ptr, size, alignment, boundary, q);
    }
    assert Suits(p, size, alignment, boundary);
    if q: nat :| ptr <= q && Suits(q, size, alignment, boundary) && q + size <= base + POOL_SIZE {
      assert p <= q;
    }
    if !Refused(base, p, size) { GrantedInPoolExactly(base, ptr, size, alignment, boundary); }
  }

  lemma HugeSizeGranted(base: nat)
    requires 0 < base < WORD
    ensures !Refused(base, Place(base, WORD - base, 0, 0), WORD - base)
  {
  }

  // ---------------------------------------------------------------------------
  // Any number of allocations
  // ---------------------------------------------------------------------------

  datatype Request = Request(size: nat, alignment: UInt, boundary: UInt)

  datatype Block = Block(address: nat, request: Request)

  function AfterAlloc(base: nat, ptr: nat, r: Request): nat {
    var p := Place(ptr, r.size, r.alignment, r.boundary);
    if Refused(base, p, r.size) then p else Wrap(p + r.size)
  }

  /** The blocks granted to some requests, in order. */
  function Granted(base: nat, ptr: nat, requests: seq<Request>): seq<Block>
    decreases |requests|
  {
    if requests == [] then []
    else
      var p := Place(ptr, requests[0].size, requests[0].alignment, requests[0].boundary);
      var rest := Granted(base, AfterAlloc(base, ptr, requests[0]), requests[1..]);
      if Refused(base, p, requests[0].size) then rest else [Block(p, requests[0])] + rest
  }

  /** Inside the pool and from `from` on, aligned, and in one window if it can be. */
  ghost predicate GoodBlock(b: Block, base: nat, from: nat) {
    var r := b.request;
    && from <= b.address && b.address + r.size <= base + POOL_SIZE
    && (r.alignment > 0 ==> Meets(b.address, r.alignment))
    && (r.size <= r.boundary ==> InOneWindow(b.address, r.size, r.boundary))
  }

  lemma PlaceGood(base: nat, ptr: nat, r: Request, p: nat)
    requires IsRequest(r.size, r.alignment, r.boundary) && ptr <= TOP
    requires p == Place(ptr, r.size, r.alignment, r.boundary) && p + r.size <= base + POOL_SIZE
    ensures GoodBlock(Block(p, r), base, ptr)
  {
    PlaceAligned(ptr, r.size, r.alignment, r.boundary);
    if r.size <= r.boundary { PlaceInWindow(ptr, r.size, r.alignment, r.boundary); }
  }

  /** The pointer stays in reach and a granted block is good exactly as long as the pool could hold it. */
  lemma AllocGood(base: nat, ptr: nat, r: Request)
    requires IsRequest(r.size, r.alignment, r.boundary) && base <= ptr <= TOP && base + POOL_SIZE <= TOP
    ensures var p := Place(ptr, r.size, r.alignment, r.boundary);
            if Refused(base, p, r.size) then ptr <= AfterAlloc(base, ptr, r) <= TOP
            else
              && (GoodBlock(Block(p, r), base, ptr) <==> r.size <= POOL_SIZE)
              && (r.size <= POOL_SIZE ==> ptr <= AfterAlloc(base, ptr, r) == p + r.size <= TOP)
  {
    var p := Place(ptr, r.size, r.alignment, r.boundary);
    PlaceAligned(ptr, r.size, r.alignment, r.boundary);
    if !Refused(base, p, r.size) {
      GrantedInPoolExactly(base, ptr, r.size, r.alignment, r.boundary);
      if r.size <= POOL_SIZE { PlaceGood(base, ptr, r, p); }
    }
  }

  /** No granted block is larger than the pool. */
  ghost predicate NoneTooLarge(bs: seq<Block>) {
    forall i :: 0 <= i < |bs| ==> bs[i].request.size <= POOL_SIZE
  }

  ghost predicate AllGood(bs: seq<Block>, base: nat, from: nat) {
    forall i :: 0 <= i < |bs| ==> GoodBlock(bs[i], base, from)
  }

  ghost predicate Apart(bs: seq<Block>) {
    forall i, j :: 0 <= i < j < |bs| ==> bs[i].address + bs[i].request.size <= bs[j].address
  }

  lemma AllGoodEarlier(bs: seq<Block>, base: nat, from: nat, later: nat)
    requires from <= later && AllGood(bs, base, later)
    ensures AllGood(bs, base, from)
  {
  }

  lemma OneMoreBefore(b: Block, bs: seq<Block>, base: nat, from: nat)
    requires GoodBlock(b, base, from) && AllGood(bs, base, b.address + b.request.size) && Apart(bs)
    ensures AllGood([b] + bs, base, from) && Apart([b] + bs)
  {
    AllGoodEarlier(bs, base, from, b.address + b.request.size);
  }

  lemma GoodIsSmall(bs: seq<Block>, base: nat, from: nat)
    requires AllGood(bs, base, from) && base <= from
    ensures NoneTooLarge(bs)
  {
  }

  lemma {:induction false} GrantedGood(base: nat, ptr: nat, requests: seq<Request>)
    requires forall i :: 0 <= i < |requests| ==> IsRequest(requests[i].size, requests[i].alignment, requests[i].boundary)
    requires base <= ptr <= TOP && base + POOL_SIZE <= TOP && NoneTooLarge(Granted(base, ptr, requests))
    ensures AllGood(Granted(base, ptr, requests), base, ptr) && Apart(Granted(base, ptr, requests))
    decreases |requests|
  {
    if requests != [] {
      var r := requests[0];
      var p, next := Place(ptr, r.size, r.alignment, r.boundary), AfterAlloc(base, ptr, r);
      var rest := Granted(base, next, requests[1..]);
      AllocGood(base, ptr, r);
      if Refused(base, p, r.size) {
        GrantedGood(base, next, requests[1..]);
        AllGoodEarlier(rest, base, ptr, next);
      } else {
        var granted := Granted(base, ptr, requests);
        assert granted[0] == Block(p, r) && granted[1..] == rest;
        GrantedGood(base, next, requests[1..]);
        OneMoreBefore(Block(p, r), rest, base, ptr);
      }
    }
  }

  /**
   * Over any sequence of requests, of any size: every block is good and no two overlap, if
   * and only if no request larger than the pool was granted.
   */
  lemma AllGoodAndApart(base: nat, ptr: nat, requests: seq<Request>)
    requires forall i :: 0 <= i < |requests| ==> IsRequest(requests[i].size, requests[i].alignment, requests[i].boundary)
    requires base <= ptr <= TOP && base + POOL_SIZE <= TOP
    ensures AllGood(Granted(base, ptr, requests), base, ptr) && Apart(Granted(base, ptr, requests))
            <==> NoneTooLarge(Granted(base, ptr, requests))
  {
    var bs := Granted(base, ptr, requests);
    if NoneTooLarge(bs) {
      GrantedGood(base, ptr, requests);
    } else if AllGood(bs, base, ptr) {
      GoodIsSmall(bs, base, ptr);
    }
  }

  lemma {:induction false} GrantedWasRequested(base: nat, ptr: nat, requests: seq<Request>, b: Block)
    requires b in Granted(base, ptr, requests)
    ensures b.request in requests
    decreases |requests|
  {
    if b !in Granted(base, AfterAlloc(base, ptr, requests[0]), requests[1..]) {
      assert b.request == requests[0];
    } else {
      GrantedWasRequested(base, AfterAlloc(base, ptr, requests[0]), requests[1..], b);
    }
  }

  /** So a caller that asks for no more than the pool holds is always safe. */
  lemma SmallRequestsAreSafe(base: nat, ptr: nat, requests: seq<Request>)
    requires forall i :: 0 <= i < |requests| ==> IsRequest(requests[i].size, requests[i].alignment, requests[i].boundary)
    requires base <= ptr <= TOP && base + POOL_SIZE <= TOP
    requires forall i :: 0 <= i < |requests| ==> requests[i].size <= POOL_SIZE
    ensures AllGood(Granted(base, ptr, requests), base, ptr) && Apart(Granted(base, ptr, requests))
  {
    var bs := Granted(base, ptr, requests);
    forall i | 0 <= i < |bs| ensures bs[i].request.size <= POOL_SIZE {
      GrantedWasRequested(base, ptr, requests, bs[i]);
    }
    GrantedGood(base, ptr, requests);
  }
}
