/** From the firmware's memory map to the page allocator, the kernel heap and `sbrk`. */
module BootMemory {
  import opened Wrappers
  import opened Bitmaps
  import A = Allocations

  /** A UEFI memory descriptor: its type, its first byte and its length in pages. */
  datatype Descriptor = Descriptor(kind: nat, physicalStart: nat, numberOfPages: nat)

  const BOOT_SERVICES_CODE: nat := 3
  const BOOT_SERVICES_DATA: nat := 4
  const CONVENTIONAL_MEMORY: nat := 7

  predicate IsAvailable(kind: nat) {
    kind == BOOT_SERVICES_CODE || kind == BOOT_SERVICES_DATA || kind == CONVENTIONAL_MEMORY
  }

  function First(d: Descriptor): nat {
    d.physicalStart / FRAME_BYTES
  }

  function After(d: Descriptor): nat {
    First(d) + d.numberOfPages
  }

  function FramesOf(d: Descriptor): set<nat> {
    Span(First(d), d.numberOfPages)
  }

  /** Page-aligned, and below what the bitmap covers. */
  predicate WellFormed(map_: seq<Descriptor>) {
    forall d :: d in map_ ==> d.physicalStart % FRAME_BYTES == 0 && After(d) <= FRAMES
  }

  predicate Sorted(map_: seq<Descriptor>) {
    forall i, j :: 0 <= i < j < |map_| ==> After(map_[i]) <= First(map_[j])
  }

  /** Some descriptor of the given kind of availability holds the frame. */
  ghost predicate Holds(map_: seq<Descriptor>, available: bool, f: nat) {
    exists i :: 0 <= i < |map_| && IsAvailable(map_[i].kind) == available && f in FramesOf(map_[i])
  }

  // ---------------------------------------------------------------------------
  // The walk over the memory map
  // ---------------------------------------------------------------------------

  /** The first frame after the available memory seen last, and the frames marked so far. */
  datatype Walk = Walk(end: nat, marked: set<nat>)

  function Visit(w: Walk, d: Descriptor): Walk {
    var marked := if w.end < First(d) then w.marked + Span(w.end, First(d) - w.end) else w.marked;
    if IsAvailable(d.kind) then Walk(After(d), marked) else Walk(w.end, marked + FramesOf(d))
  }

  function WalkOver(map_: seq<Descriptor>): Walk {
    if map_ == [] then Walk(0, {}) else Visit(WalkOver(map_[..|map_| - 1]), map_[|map_| - 1])
  }

  lemma HoldsMore(map_: seq<Descriptor>, d: Descriptor, available: bool, f: nat)
    ensures Holds(map_ + [d], available, f) <==>
            Holds(map_, available, f) || (IsAvailable(d.kind) == available && f in FramesOf(d))
  {
    var more := map_ + [d];
    if Holds(map_, available, f) {
      var i :| 0 <= i < |map_| && IsAvailable(map_[i].kind) == available && f in FramesOf(map_[i]);
      assert more[i] == map_[i];
    }
    if IsAvailable(d.kind) == available && f in FramesOf(d) { assert more[|map_|] == d; }
  }

  /** An unmarked frame below the end lies in available memory and in nothing else. */
  ghost predicate Safe(w: Walk, map_: seq<Descriptor>) {
    && (forall f: nat :: f < w.end && f !in w.marked ==> Holds(map_, true, f))
    && (forall f: nat :: Holds(map_, false, f) ==> f in w.marked)
  }

  lemma VisitSafe(w: Walk, map_: seq<Descriptor>, d: Descriptor)
    requires Safe(w, map_)
    ensures Safe(Visit(w, d), map_ + [d])
  {
    forall f: nat
      ensures Holds(map_ + [d], true, f) <==> Holds(map_, true, f) || (IsAvailable(d.kind) && f in FramesOf(d))
      ensures Holds(map_ + [d], false, f) <==> Holds(map_, false, f) || (!IsAvailable(d.kind) && f in FramesOf(d))
    {
      HoldsMore(map_, d, true, f);
      HoldsMore(map_, d, false, f);
    }
  }

  /** Whatever the order of the map, and even if descriptors overlap. */
  lemma {:induction false} WalkSafe(map_: seq<Descriptor>)
    ensures Safe(WalkOver(map_), map_)
  {
    if map_ != [] {
      var front := map_[..|map_| - 1];
      WalkSafe(front);
      VisitSafe(WalkOver(front), front, map_[|map_| - 1]);
      assert map_ == front + [map_[|map_| - 1]];
    }
  }

  /** Nothing is marked beyond the descriptors seen. */
  ghost predicate Below(w: Walk, n: nat) {
    w.end <= n && forall f :: f in w.marked ==> f < n
  }

  /** Where the last available descriptor ends, or 0. */
  function AvailableEnd(map_: seq<Descriptor>): nat {
    if map_ == [] then 0
    else if IsAvailable(map_[|map_| - 1].kind) then After(map_[|map_| - 1])
    else AvailableEnd(map_[..|map_| - 1])
  }

  /** The frame is in a gap: beyond the available memory seen so far when a descriptor begins above it. */
  ghost predicate InGap(map_: seq<Descriptor>, f: nat) {
    exists j :: 0 <= j < |map_| && AvailableEnd(map_[..j]) <= f < First(map_[j])
  }

  lemma InGapMore(map_: seq<Descriptor>, d: Descriptor, f: nat)
    ensures InGap(map_ + [d], f) <==> InGap(map_, f) || AvailableEnd(map_) <= f < First(d)
  {
    var more := map_ + [d];
    assert more[..|map_|] == map_ && more[|map_|] == d;
    if j :| 0 <= j < |map_| && AvailableEnd(map_[..j]) <= f < First(map_[j]) {
      assert more[..j] == map_[..j] && more[j] == map_[j];
    }
    if j :| 0 <= j < |more| && AvailableEnd(more[..j]) <= f < First(more[j]) {
      if j < |map_| { assert more[..j] == map_[..j] && more[j] == map_[j]; }
    }
  }

  lemma EndMore(map_: seq<Descriptor>, d: Descriptor)
    ensures AvailableEnd(map_ + [d]) == if IsAvailable(d.kind) then After(d) else AvailableEnd(map_)
  {
    assert (map_ + [d])[..|map_|] == map_;
  }

  lemma VisitMarks(w: Walk, map_: seq<Descriptor>, d: Descriptor, f: nat)
    requires w.end == AvailableEnd(map_) && (f in w.marked <==> Holds(map_, false, f) || InGap(map_, f))
    ensures Visit(w, d).end == AvailableEnd(map_ + [d])
    ensures f in Visit(w, d).marked <==> Holds(map_ + [d], false, f) || InGap(map_ + [d], f)
  {
    EndMore(map_, d);
    HoldsMore(map_, d, false, f);
    InGapMore(map_, d, f);
  }

  /** What the walk marks, for every map: the frames of non-available descriptors, and the gaps. */
  lemma {:induction false} WalkMarksExactly(map_: seq<Descriptor>, f: nat)
    ensures WalkOver(map_).end == AvailableEnd(map_)
    ensures f in WalkOver(map_).marked <==> Holds(map_, false, f) || InGap(map_, f)
  {
    if map_ != [] {
      var front, d := map_[..|map_| - 1], map_[|map_| - 1];
      WalkMarksExactly(front, f);
      VisitMarks(WalkOver(front), front, d, f);
      assert map_ == front + [d];
    }
  }

  /** A frame can be allocated: it is below the end and not marked. */
  predicate Left(w: Walk, f: nat) {
    f < w.end && f !in w.marked
  }

  /** The frame is held as available, and by no descriptor of another kind. */
  ghost predicate OnlyAvailable(map_: seq<Descriptor>, f: nat) {
    Holds(map_, true, f) && !Holds(map_, false, f)
  }

  /** For every map: the walk leaves all the available memory exactly when none of it is above the end or in a gap. */
  lemma WalkKeepsExactly(map_: seq<Descriptor>)
    ensures (forall f: nat :: Left(WalkOver(map_), f) <==> OnlyAvailable(map_, f)) <==>
            (forall f: nat :: OnlyAvailable(map_, f) ==> f < AvailableEnd(map_) && !InGap(map_, f))
  {
    WalkSafe(map_);
    forall f: nat
      ensures Left(WalkOver(map_), f) ==> OnlyAvailable(map_, f)
      ensures OnlyAvailable(map_, f) ==> (Left(WalkOver(map_), f) <==> f < AvailableEnd(map_) && !InGap(map_, f))
    {
      WalkMarksExactly(map_, f);
    }
  }

  // ---------------------------------------------------------------------------
  // The same on whole descriptors
  // ---------------------------------------------------------------------------

  predicate Disjoint(map_: seq<Descriptor>) {
    forall i, j :: 0 <= i < j < |map_| ==> FramesOf(map_[i]) !! FramesOf(map_[j])
  }

  function Max(a: nat, b: nat): nat {
    if a < b then b else a
  }

  function Min(a: nat, b: nat): nat {
    if a < b then a else b
  }

  /** When descriptor `j` is visited, some of `d` is in the gap before it. */
  predicate GapCuts(map_: seq<Descriptor>, d: Descriptor, j: nat)
    requires j < |map_|
  {
    Max(AvailableEnd(map_[..j]), First(d)) < Min(First(map_[j]), After(d))
  }

  /** Every available descriptor ends by the final end and is cut by no gap. */
  predicate InOrder(map_: seq<Descriptor>) {
    forall i :: 0 <= i < |map_| && IsAvailable(map_[i].kind) && map_[i].numberOfPages > 0 ==>
      After(map_[i]) <= AvailableEnd(map_) && forall j :: 0 <= j < |map_| ==> !GapCuts(map_, map_[i], j)
  }

  lemma HeldOnce(map_: seq<Descriptor>, i: nat, f: nat)
    requires Disjoint(map_) && i < |map_| && IsAvailable(map_[i].kind) && f in FramesOf(map_[i])
    ensures OnlyAvailable(map_, f)
  {
    forall j | 0 <= j < |map_| && j != i ensures f !in FramesOf(map_[j]) {
    }
  }

  lemma InOrderKeeps(map_: seq<Descriptor>, f: nat)
    requires InOrder(map_) && Holds(map_, true, f)
    ensures f < AvailableEnd(map_) && !InGap(map_, f)
  {
    var i :| 0 <= i < |map_| && IsAvailable(map_[i].kind) && f in FramesOf(map_[i]);
    if j :| 0 <= j < |map_| && AvailableEnd(map_[..j]) <= f < First(map_[j]) {
      assert GapCuts(map_, map_[i], j);
    }
  }

  /** A descriptor out of order loses a frame. */
  lemma OutOfOrderLoses(map_: seq<Descriptor>) returns (i: nat, f: nat)
    requires !InOrder(map_)
    ensures i < |map_| && IsAvailable(map_[i].kind) && f in FramesOf(map_[i])
    ensures AvailableEnd(map_) <= f || InGap(map_, f)
  {
    i :| i < |map_| && IsAvailable(map_[i].kind) && map_[i].numberOfPages > 0
         && (After(map_[i]) > AvailableEnd(map_) || exists j :: 0 <= j < |map_| && GapCuts(map_, map_[i], j));
    if After(map_[i]) > AvailableEnd(map_) {
      f := After(map_[i]) - 1;
    } else {
      var j :| 0 <= j < |map_| && GapCuts(map_, map_[i], j);
      f := Max(AvailableEnd(map_[..j]), First(map_[i]));
      assert AvailableEnd(map_[..j]) <= f < First(map_[j]);
    }
  }

  /**
   * For a map of disjoint descriptors, a check of the descriptors decides whether the walk is
   * exact: what it leaves is the available memory if and only if the map is in order.
   */
  lemma WalkExactly(map_: seq<Descriptor>)
    requires Disjoint(map_)
    ensures (forall f: nat :: Left(WalkOver(map_), f) <==> Holds(map_, true, f)) <==> InOrder(map_)
  {
    WalkSafe(map_);
    if InOrder(map_) {
      forall f: nat | Holds(map_, true, f) ensures Left(WalkOver(map_), f) {
        InOrderKeeps(map_, f);
        WalkMarksExactly(map_, f);
        var i :| 0 <= i < |map_| && IsAvailable(map_[i].kind) && f in FramesOf(map_[i]);
        HeldOnce(map_, i, f);
      }
    } else {
      var i, f := OutOfOrderLoses(map_);
      WalkMarksExactly(map_, f);
      assert Holds(map_, true, f) && !Left(WalkOver(map_), f);
    }
  }

  lemma {:induction false} EndsBy(map_: seq<Descriptor>, i: nat, n: nat)
    requires Sorted(map_) && i < |map_| && IsAvailable(map_[i].kind) && i < n <= |map_|
    ensures After(map_[i]) <= AvailableEnd(map_[..n])
    decreases n
  {
    var front := map_[..n];
    assert front[..n - 1] == map_[..n - 1];
    if i < n - 1 {
      EndsBy(map_, i, n - 1);
      assert After(map_[i]) <= First(map_[n - 1]);
    }
  }

  /** Sorted descriptors are disjoint and in order. */
  lemma SortedInOrder(map_: seq<Descriptor>)
    requires Sorted(map_)
    ensures Disjoint(map_) && InOrder(map_)
  {
    forall i | 0 <= i < |map_| && IsAvailable(map_[i].kind) && map_[i].numberOfPages > 0
      ensures After(map_[i]) <= AvailableEnd(map_) && forall j :: 0 <= j < |map_| ==> !GapCuts(map_, map_[i], j)
    {
      EndsBy(map_, i, |map_|);
      assert map_[..|map_|] == map_;
      forall j | 0 <= j < |map_| ensures !GapCuts(map_, map_[i], j) {
        if i < j { EndsBy(map_, i, j); }
      }
    }
  }

  /** For a sorted map the walk is exact: an unmarked frame below the end is an available one. */
  lemma WalkExact(map_: seq<Descriptor>)
    requires Sorted(map_)
    ensures forall f: nat :: Left(WalkOver(map_), f) <==> Holds(map_, true, f)
    ensures forall f: nat :: Holds(map_, true, f) ==> !Holds(map_, false, f)
  {
    SortedInOrder(map_);
    WalkExactly(map_);
    forall f: nat | Holds(map_, true, f) ensures !Holds(map_, false, f) {
      var i :| 0 <= i < |map_| && IsAvailable(map_[i].kind) && f in FramesOf(map_[i]);
      HeldOnce(map_, i, f);
    }
  }

  /** The end is where the last available descriptor ends. */
  ghost predicate EndsLastAvailable(map_: seq<Descriptor>, i: nat, end: nat) {
    && i < |map_| && IsAvailable(map_[i].kind) && end == After(map_[i])
    && forall j :: i < j < |map_| ==> !IsAvailable(map_[j].kind)
  }

  lemma {:induction false} WalkEnd(map_: seq<Descriptor>)
    ensures if exists i :: 0 <= i < |map_| && IsAvailable(map_[i].kind)
            then exists i: nat :: EndsLastAvailable(map_, i, WalkOver(map_).end)
            else WalkOver(map_).end == 0
  {
    if map_ != [] {
      var n := |map_| - 1;
      WalkEnd(map_[..n]);
      if IsAvailable(map_[n].kind) {
        assert EndsLastAvailable(map_, n, WalkOver(map_).end);
      } else if i :| 0 <= i < n && IsAvailable(map_[i].kind) {
        assert IsAvailable(map_[..n][i].kind);
        var k: nat :| EndsLastAvailable(map_[..n], k, WalkOver(map_[..n]).end);
        assert EndsLastAvailable(map_, k, WalkOver(map_).end);
      }
    }
  }

  /** Out of order the walk loses memory: the end moves back over available frames. */
  lemma UnsortedLoses()
    ensures var map_ := [Descriptor(CONVENTIONAL_MEMORY, 4 * FRAME_BYTES, 4), Descriptor(CONVENTIONAL_MEMORY, 0, 1)];
            WellFormed(map_) && Disjoint(map_) && !InOrder(map_) && Holds(map_, true, 5) && WalkOver(map_).end == 1
  {
    var d, e := Descriptor(CONVENTIONAL_MEMORY, 4 * FRAME_BYTES, 4), Descriptor(CONVENTIONAL_MEMORY, 0, 1);
    var map_ := [d, e];
    assert 5 in FramesOf(map_[0]);
    assert map_[..1] == [d] && [d][..0] == [];
  }

  lemma WalkWithin(map_: seq<Descriptor>, n: nat)
    requires forall d :: d in map_ ==> After(d) <= n
    ensures Below(WalkOver(map_), n)
  {
    if map_ != [] {
      WalkWithin(map_[..|map_| - 1], n);
      assert map_[|map_| - 1] in map_;
    }
  }

  lemma WalkOneMore(map_: seq<Descriptor>, i: nat)
    requires i < |map_|
    ensures WalkOver(map_[..i + 1]) == Visit(WalkOver(map_[..i]), map_[i])
  {
    assert map_[..i + 1][..i] == map_[..i];
  }

  /** For page-aligned descriptors the divisions by the frame size are exact. */
  lemma WholeFrames(end: nat, d: Descriptor)
    requires d.physicalStart % FRAME_BYTES == 0
    ensures d.physicalStart == First(d) * FRAME_BYTES
    ensures end * FRAME_BYTES / FRAME_BYTES == end
    ensures end <= First(d) ==> (d.physicalStart - end * FRAME_BYTES) / FRAME_BYTES == First(d) - end
    ensures d.numberOfPages * FRAME_BYTES / FRAME_BYTES == d.numberOfPages
  {
  }

  method WalkMemoryMap(memoryManager: BitmapMemoryManager, memoryMap: seq<Descriptor>) returns (availableEnd: nat)
    requires memoryManager.Valid() && memoryManager.Contents() == {}
    requires WellFormed(memoryMap)
    modifies memoryManager.allocMap
    ensures availableEnd == WalkOver(memoryMap).end * FRAME_BYTES
    ensures memoryManager.Contents() == WalkOver(memoryMap).marked
  {
    availableEnd := 0;
    for i := 0 to |memoryMap|
      invariant availableEnd == WalkOver(memoryMap[..i]).end * FRAME_BYTES && availableEnd <= FRAMES * FRAME_BYTES
      invariant memoryManager.Contents() == WalkOver(memoryMap[..i]).marked
    {
      var desc := memoryMap[i];
      ghost var w := WalkOver(memoryMap[..i]);
      WalkOneMore(memoryMap, i);
      WholeFrames(w.end, desc);
      assert desc in memoryMap;
      if availableEnd < desc.physicalStart {
        memoryManager.MarkAllocated(availableEnd / FRAME_BYTES, (desc.physicalStart - availableEnd) / FRAME_BYTES);
      }
      var physicalEnd := desc.physicalStart + desc.numberOfPages * FRAME_BYTES;
      if IsAvailable(desc.kind) {
        availableEnd := physicalEnd;
      } else {
        memoryManager.MarkAllocated(desc.physicalStart / FRAME_BYTES, desc.numberOfPages * FRAME_BYTES / FRAME_BYTES);
      }
    }
    assert memoryMap[..|memoryMap|] == memoryMap;
  }

  // ---------------------------------------------------------------------------
  // The heap
  // ---------------------------------------------------------------------------

  const HEAP_FRAMES: nat := 32768  // 128 MiB

  /** What `sbrk` moves and what stops it; both are null before the heap exists. */
  datatype Break = Break(brk: nat, end: nat)

  /** An increment is a C int; the sum is a pointer, so it wraps. */
  function Moved(b: Break, incr: int): nat {
    (b.brk + incr) % TWO_TO_THE_64
  }

  predicate Refused(b: Break, incr: int) {
    b.brk == 0 || Moved(b, incr) >= b.end
  }

  /** An increment fits in 32 bits. */
  predicate IsInt(incr: int) {
    -0x8000_0000 <= incr < 0x8000_0000
  }

  function AfterSbrk(b: Break, incr: int): Break {
    if Refused(b, incr) then b else b.(brk := Moved(b, incr))
  }

  class Heap {
    var programBreak: nat
    var programBreakEnd: nat

    constructor ()
      ensures Value() == Break(0, 0)
    {
      programBreak, programBreakEnd := 0, 0;
    }

    function Value(): Break
      reads this
    {
      Break(programBreak, programBreakEnd)
    }

    method InitializeHeap(memoryManager: BitmapMemoryManager) returns (error: Error)
      requires memoryManager.Valid()
      modifies this, memoryManager.allocMap
      ensures error == NoEnoughMemory ==>
                && Value() == old(Value()) && memoryManager.Contents() == old(memoryManager.Contents())
                && FirstFit(old(memoryManager.Contents()), memoryManager.rangeBegin, memoryManager.rangeEnd, HEAP_FRAMES, None)
      ensures error == Success ==>
                && programBreak % FRAME_BYTES == 0 && programBreakEnd == programBreak + HEAP_FRAMES * FRAME_BYTES
                && FirstFit(old(memoryManager.Contents()), memoryManager.rangeBegin, memoryManager.rangeEnd, HEAP_FRAMES,
                            Some(programBreak / FRAME_BYTES))
                && memoryManager.Contents()
                   == old(memoryManager.Contents()) + Span(programBreak / FRAME_BYTES, HEAP_FRAMES)
    {
      var heapStart;
      heapStart, error := memoryManager.Allocate(HEAP_FRAMES);
      if error != Success { return; }
      programBreak := heapStart.value * FRAME_BYTES;
      programBreakEnd := programBreak + HEAP_FRAMES * FRAME_BYTES;
    }

    /** The old break, or none where the original sets ENOMEM and returns -1. */
    method Sbrk(incr: int) returns (r: Option<nat>)
      modifies this
      ensures Value() == AfterSbrk(old(Value()), incr)
      ensures r == if Refused(old(Value()), incr) then None else Some(old(programBreak))
      ensures 0 < old(programBreak) < old(programBreakEnd) < TWO_TO_THE_64 / 2 && IsInt(incr) ==>
                && programBreakEnd == old(programBreakEnd)
                && (r == Some(old(programBreak)) <==> 0 <= old(programBreak) + incr < old(programBreakEnd))
                && (r != Some(old(programBreak)) <==> r == None)
                && programBreak == if r.Some? then old(programBreak) + incr else old(programBreak)
    {
      if programBreak == 0 || (programBreak + incr) % TWO_TO_THE_64 >= programBreakEnd { return None; }
      r := Some(programBreak);
      programBreak := (programBreak + incr) % TWO_TO_THE_64;
    }
  }

  /** A request is granted if and only if the new break is in front of the heap's end, and then
      that is the break; before there is a heap none is. */
  lemma GrantedExactly(b: Break, incr: int)
    requires b.brk < b.end < TWO_TO_THE_64 / 2 && IsInt(incr)
    ensures !Refused(b, incr) <==> b.brk != 0 && 0 <= b.brk + incr < b.end
    ensures AfterSbrk(b, incr) == if b.brk != 0 && 0 <= b.brk + incr < b.end then Break(b.brk + incr, b.end) else b
    ensures Refused(Break(0, 0), incr) && AfterSbrk(Break(0, 0), incr) == Break(0, 0)
  {
  }

  /** The break leaves the heap exactly when a refusal does not stop it below the start. */
  lemma StaysInHeapExactly(b: Break, start: nat, incr: int)
    requires 0 < start <= b.brk < b.end < TWO_TO_THE_64 / 2 && IsInt(incr)
    ensures start <= AfterSbrk(b, incr).brk < b.end <==> !(0 <= b.brk + incr < start)
  {
  }

  /** The bytes `[address, address + size)` that a successful call hands out. */
  datatype Bytes = Bytes(address: nat, size: nat)

  function Granted(b: Break, incrs: seq<nat>): seq<Bytes>
    decreases |incrs|
  {
    if incrs == [] then []
    else if Refused(b, incrs[0]) then Granted(b, incrs[1..])
    else [Bytes(b.brk, incrs[0])] + Granted(AfterSbrk(b, incrs[0]), incrs[1..])
  }

  predicate FitsInt(incrs: seq<nat>) {
    forall i :: 0 <= i < |incrs| ==> incrs[i] < 0x8000_0000
  }

  /** Blocks one after another, from an address on and in front of another. */
  ghost predicate Successive(bs: seq<Bytes>, from: nat, end: nat) {
    && (forall i :: 0 <= i < |bs| ==> from <= bs[i].address && bs[i].address + bs[i].size < end)
    && forall i, j :: 0 <= i < j < |bs| ==> bs[i].address + bs[i].size <= bs[j].address
  }

  lemma OneBefore(b: Bytes, bs: seq<Bytes>, end: nat)
    requires Successive(bs, b.address + b.size, end) && b.address + b.size < end
    ensures Successive([b] + bs, b.address, end)
  {
  }

  lemma SbrkGrows(b: Break, incr: nat)
    requires b.brk < b.end < TWO_TO_THE_64 / 2 && incr < 0x8000_0000
    ensures AfterSbrk(b, incr) == if Refused(b, incr) then b else Break(b.brk + incr, b.end)
    ensures !Refused(b, incr) ==> b.brk + incr < b.end
  {
  }

  /** Growing calls hand out blocks one after another, inside the heap. */
  lemma {:induction false} GrantedApart(b: Break, incrs: seq<nat>)
    requires FitsInt(incrs) && b.brk < b.end < TWO_TO_THE_64 / 2
    ensures Successive(Granted(b, incrs), b.brk, b.end)
    decreases |incrs|
  {
    if incrs != [] {
      SbrkGrows(b, incrs[0]);
      var next := AfterSbrk(b, incrs[0]);
      GrantedApart(next, incrs[1..]);
      if !Refused(b, incrs[0]) { OneBefore(Bytes(b.brk, incrs[0]), Granted(next, incrs[1..]), b.end); }
    }
  }

  function Sum(incrs: seq<nat>): nat {
    if incrs == [] then 0 else incrs[0] + Sum(incrs[1..])
  }

  /** Every request is granted, each block right behind the one before. */
  ghost predicate AllGranted(b: Break, incrs: seq<nat>) {
    && |Granted(b, incrs)| == |incrs|
    && forall k :: 0 <= k < |incrs| ==> Granted(b, incrs)[k] == Bytes(b.brk + Sum(incrs[..k]), incrs[k])
  }

  lemma {:induction false} FewGranted(b: Break, incrs: seq<nat>)
    ensures |Granted(b, incrs)| <= |incrs|
    decreases |incrs|
  {
    if incrs != [] { FewGranted(AfterSbrk(b, incrs[0]), incrs[1..]); }
  }

  /** A sequence of growing calls is granted as a whole if and only if all of it fits in the heap. */
  lemma {:induction false} AllGrantedExactly(b: Break, incrs: seq<nat>)
    requires 0 < b.brk < b.end < TWO_TO_THE_64 / 2 && FitsInt(incrs)
    ensures AllGranted(b, incrs) <==> b.brk + Sum(incrs) < b.end
    decreases |incrs|
  {
    if incrs != [] {
      var next, rest := AfterSbrk(b, incrs[0]), incrs[1..];
      GrantedExactly(b, incrs[0]);
      FewGranted(next, rest);
      if !Refused(b, incrs[0]) {
        AllGrantedExactly(next, rest);
        assert Granted(b, incrs) == [Bytes(b.brk, incrs[0])] + Granted(next, rest);
        assert forall k :: 0 < k <= |incrs| ==> incrs[..k][0] == incrs[0] && incrs[..k][1..] == rest[..k - 1];
        assert forall k :: 0 < k <= |incrs| ==> Sum(incrs[..k]) == incrs[0] + Sum(rest[..k - 1]);
        assert AllGranted(b, incrs) ==> AllGranted(next, rest) by {
          if AllGranted(b, incrs) {
            forall k | 0 <= k < |rest| ensures Granted(next, rest)[k] == Bytes(next.brk + Sum(rest[..k]), rest[k]) {
              assert Granted(b, incrs)[k + 1] == Bytes(b.brk + Sum(incrs[..k + 1]), incrs[k + 1]);
            }
          }
        }
      }
    }
  }

  // ---------------------------------------------------------------------------
  // End to end
  // ---------------------------------------------------------------------------

  function Usable(map_: seq<Descriptor>): A.Range {
    A.Range(1, WalkOver(map_).end)
  }

  /** By the type numbers and the page size of the UEFI specification, section 7.2: boot services
      code and data and conventional memory, in pages of 4 KiB. */
  predicate HoldsByte(d: Descriptor, a: nat) {
    d.kind in {3, 4, 7} && d.physicalStart <= a < d.physicalStart + 4096 * d.numberOfPages
  }

  lemma ByteIsInFrame(d: Descriptor, a: nat)
    requires d.physicalStart % 4096 == 0
    ensures HoldsByte(d, a) <==> IsAvailable(d.kind) && a / FRAME_BYTES in FramesOf(d)
  {
    var first := d.physicalStart / 4096;
    assert d.physicalStart == 4096 * first;
    assert a / FRAME_BYTES in FramesOf(d) <==> first <= a / 4096 < first + d.numberOfPages;
  }

  /** Start-up offers the allocator every byte of available memory from the second page on, and no other. */
  lemma OfferedExactly(map_: seq<Descriptor>, a: nat)
    requires WellFormed(map_) && Sorted(map_)
    ensures Usable(map_).lo <= a / 4096 < Usable(map_).hi && a / 4096 !in WalkOver(map_).marked
            <==> a >= 4096 && exists i :: 0 <= i < |map_| && HoldsByte(map_[i], a)
  {
    WalkExact(map_);
    var f := a / FRAME_BYTES;
    assert Left(WalkOver(map_), f) <==> Holds(map_, true, f);
    forall i | 0 <= i < |map_| ensures HoldsByte(map_[i], a) <==> IsAvailable(map_[i].kind) && f in FramesOf(map_[i]) {
      assert map_[i] in map_;
      ByteIsInFrame(map_[i], a);
    }
  }

  /** Start-up: walk the map, set the range, make the heap. */
  method Boot(memoryManager: BitmapMemoryManager, heap: Heap, memoryMap: seq<Descriptor>) returns (error: Error)
    requires memoryManager.Valid() && memoryManager.Contents() == {} && WellFormed(memoryMap)
    modifies memoryManager, memoryManager.allocMap, heap
    ensures memoryManager.Valid()
    ensures memoryManager.rangeBegin == Usable(memoryMap).lo && memoryManager.rangeEnd == Usable(memoryMap).hi
    ensures error == NoEnoughMemory ==>
              && memoryManager.Contents() == WalkOver(memoryMap).marked
              && A.Legal(A.Start(WalkOver(memoryMap).marked), Usable(memoryMap), A.Allocate(HEAP_FRAMES, None))
    ensures error == Success ==>
              && var op := A.Allocate(HEAP_FRAMES, Some(heap.programBreak / FRAME_BYTES));
              && A.Legal(A.Start(WalkOver(memoryMap).marked), Usable(memoryMap), op)
              && memoryManager.Contents() == A.Apply(A.Start(WalkOver(memoryMap).marked), Usable(memoryMap), op).marked
              && heap.programBreak % FRAME_BYTES == 0
              && heap.programBreakEnd == heap.programBreak + 0x800_0000
  {
    var availableEnd := WalkMemoryMap(memoryManager, memoryMap);
    WalkWithin(memoryMap, FRAMES);
    memoryManager.SetMemoryRange(1, availableEnd / FRAME_BYTES);
    error := heap.InitializeHeap(memoryManager);
  }

  ghost predicate KeepsHeap(ops: seq<A.Op>) {
    forall i :: 0 <= i < |ops| ==> ops[i] != A.Free(0)
  }

  lemma {:induction false} OldestStays(s: A.State, r: A.Range, ops: seq<A.Op>)
    requires A.CanRun(s, r, ops) && KeepsHeap(ops) && |s.live| > 0
    ensures |A.Run(s, r, ops).live| > 0 && A.Run(s, r, ops).live[0] == s.live[0]
    decreases |ops|
  {
    if ops != [] {
      OldestStays(A.Apply(s, r, ops[0]), r, ops[1..]);
    }
  }

  /**
   * Whatever the allocator is asked after start-up, as long as nobody frees the heap: live
   * blocks are pairwise disjoint, and each lies in available memory, in nothing else, and
   * not in frame 0.
   */
  lemma BootSafe(map_: seq<Descriptor>, ops: seq<A.Op>)
    requires WellFormed(map_) && A.CanRun(A.Start(WalkOver(map_).marked), Usable(map_), ops)
    ensures var live := A.Run(A.Start(WalkOver(map_).marked), Usable(map_), ops).live;
            && A.Apart(live)
            && forall i, f: nat :: 0 <= i < |live| && f in A.Of(live[i]) ==>
                 f != 0 && Holds(map_, true, f) && !Holds(map_, false, f)
  {
    WalkWithin(map_, FRAMES);
    WalkSafe(map_);
    A.RunSafe(WalkOver(map_).marked, Usable(map_), ops);
  }

  lemma HeapIsBelow(map_: seq<Descriptor>, h: nat)
    requires WellFormed(map_)
    requires A.Legal(A.Start(WalkOver(map_).marked), Usable(map_), A.Allocate(HEAP_FRAMES, Some(h)))
    ensures h + HEAP_FRAMES <= FRAMES
  {
    WalkWithin(map_, FRAMES);
    assert h + HEAP_FRAMES - 1 in Span(h, HEAP_FRAMES);
  }

  lemma InHeap(h: nat, incrs: seq<nat>, i: nat, a: nat)
    requires h + HEAP_FRAMES <= FRAMES && FitsInt(incrs)
    requires var granted := Granted(Break(h * FRAME_BYTES, (h + HEAP_FRAMES) * FRAME_BYTES), incrs);
             && i < |granted| && granted[i].address <= a < granted[i].address + granted[i].size
    ensures h <= a / FRAME_BYTES < h + HEAP_FRAMES
  {
    GrantedApart(Break(h * FRAME_BYTES, (h + HEAP_FRAMES) * FRAME_BYTES), incrs);
  }

  /** Every byte that growing `sbrk` calls hand out is available memory that no other allocation holds. */
  lemma SbrkSafe(map_: seq<Descriptor>, h: nat, ops: seq<A.Op>, incrs: seq<nat>, i: nat, a: nat)
    requires WellFormed(map_) && KeepsHeap(ops) && FitsInt(incrs)
    requires A.CanRun(A.Start(WalkOver(map_).marked), Usable(map_), [A.Allocate(HEAP_FRAMES, Some(h))] + ops)
    requires var granted := Granted(Break(h * FRAME_BYTES, (h + HEAP_FRAMES) * FRAME_BYTES), incrs);
             && i < |granted| && granted[i].address <= a < granted[i].address + granted[i].size
    ensures Holds(map_, true, a / FRAME_BYTES) && !Holds(map_, false, a / FRAME_BYTES) && a / FRAME_BYTES != 0
    ensures var live := A.Run(A.Start(WalkOver(map_).marked), Usable(map_),
                              [A.Allocate(HEAP_FRAMES, Some(h))] + ops).live;
            forall k :: 1 <= k < |live| ==> a / FRAME_BYTES !in A.Of(live[k])
  {
    var first, start := A.Allocate(HEAP_FRAMES, Some(h)), A.Start(WalkOver(map_).marked);
    HeapIsBelow(map_, h);
    InHeap(h, incrs, i, a);
    BootSafe(map_, [first] + ops);
    assert ([first] + ops)[1..] == ops;
    OldestStays(A.Apply(start, Usable(map_), first), Usable(map_), ops);
    assert a / FRAME_BYTES in A.Of(A.Run(start, Usable(map_), [first] + ops).live[0]);
  }
}
