/** The page allocator over whole runs: what is handed out stays apart, and no frame is lost. */
module Allocations {
  import opened Wrappers
  import opened Bitmaps

  datatype Block = Block(start: nat, n: nat)

  function Of(b: Block): set<nat> {
    Span(b.start, b.n)
  }

  function Total(live: seq<Block>): nat {
    if live == [] then 0 else live[0].n + Total(live[1..])
  }

  function Without(live: seq<Block>, k: nat): seq<Block>
    requires k < |live|
  {
    live[..k] + live[k + 1..]
  }

  ghost predicate InUse(live: seq<Block>, f: nat) {
    exists i :: 0 <= i < |live| && f in Of(live[i])
  }

  /**
   * The marked frames, those of them that no live allocation accounts for, and the live
   * allocations in the order they were made.
   */
  datatype State = State(marked: set<nat>, reserved: set<nat>, live: seq<Block>)

  /** The range that allocations come from. */
  datatype Range = Range(lo: nat, hi: nat)

  datatype Op =
    | Allocate(n: nat, found: Option<nat>)
    | MarkAllocated(block: Block)
    | Free(k: nat)

  ghost predicate Legal(s: State, r: Range, op: Op) {
    match op
    case Allocate(n, found) => FirstFit(s.marked, r.lo, r.hi, n, found)
    case MarkAllocated(b) => b.start + b.n <= FRAMES
    case Free(k) => k < |s.live|
  }

  ghost function Apply(s: State, r: Range, op: Op): State
    requires Legal(s, r, op)
  {
    match op
    case Allocate(n, None) => s
    case Allocate(n, Some(start)) =>
      State(s.marked + Span(start, n), s.reserved, s.live + [Block(start, n)])
    case MarkAllocated(b) =>
      State(s.marked + Of(b), s.reserved + (set f | f in Of(b) && !InUse(s.live, f)), s.live)
    case Free(k) =>
      State(s.marked - Of(s.live[k]), s.reserved, Without(s.live, k))
  }

  // ---------------------------------------------------------------------------
  // The invariant
  // ---------------------------------------------------------------------------

  ghost predicate Apart(live: seq<Block>) {
    forall i, j :: 0 <= i < j < |live| ==> Of(live[i]) !! Of(live[j])
  }

  ghost predicate InRange(live: seq<Block>, r: Range) {
    forall i, f: nat :: 0 <= i < |live| && f in Of(live[i]) ==> r.lo <= f < r.hi
  }

  /** Every marked frame is reserved or belongs to a live allocation, and never both. */
  ghost predicate Accounted(s: State) {
    forall f: nat ::
      && (f in s.marked <==> f in s.reserved || InUse(s.live, f))
      && !(f in s.reserved && InUse(s.live, f))
  }

  ghost predicate Inv(s: State, r: Range) {
    && Apart(s.live) && InRange(s.live, r) && Accounted(s)
    && (forall f :: f in s.marked ==> f < FRAMES)
    && |s.marked| == |s.reserved| + Total(s.live)
  }

  lemma SpanSize(start: nat, n: nat)
    ensures |Span(start, n)| == n
  {
    if n > 0 {
      SpanSize(start, n - 1);
      assert Span(start, n) == Span(start, n - 1) + {start + n - 1};
    }
  }

  lemma DisjointSizes(a: set<nat>, b: set<nat>)
    requires a !! b
    ensures |a + b| == |a| + |b|
  {
  }

  lemma TotalOfTwo(a: seq<Block>, b: seq<Block>)
    ensures Total(a + b) == Total(a) + Total(b)
  {
    if a == [] {
      assert a + b == b;
    } else {
      assert (a + b)[0] == a[0] && (a + b)[1..] == a[1..] + b;
      TotalOfTwo(a[1..], b);
    }
  }

  lemma TotalWithout(live: seq<Block>, k: nat)
    requires k < |live|
    ensures Total(live) == Total(Without(live, k)) + live[k].n
  {
    TotalOfTwo(live[..k], live[k + 1..]);
    TotalOfTwo(live[..k], live[k..]);
    assert live == live[..k] + live[k..];
  }

  lemma InUsePlus(live: seq<Block>, b: Block, f: nat)
    ensures InUse(live + [b], f) <==> InUse(live, f) || f in Of(b)
  {
    if f in Of(b) { assert f in Of((live + [b])[|live|]); }
    if InUse(live, f) {
      var i :| 0 <= i < |live| && f in Of(live[i]);
      assert f in Of((live + [b])[i]);
    }
  }

  /** Where the block at `i` was before block `k` left. */
  function Before(k: nat, i: nat): nat {
    if i < k then i else i + 1
  }

  lemma WithoutAt(live: seq<Block>, k: nat)
    requires k < |live|
    ensures |Without(live, k)| == |live| - 1
    ensures forall i: nat :: i < |live| - 1 ==> Without(live, k)[i] == live[Before(k, i)]
  {
  }

  lemma InUseFewer(live: seq<Block>, k: nat, f: nat)
    requires k < |live| && InUse(Without(live, k), f)
    ensures exists i: nat :: i < |live| && i != k && f in Of(live[i])
  {
    WithoutAt(live, k);
    var i: nat :| i < |Without(live, k)| && f in Of(Without(live, k)[i]);
    assert f in Of(live[Before(k, i)]);
  }

  lemma InUseStill(live: seq<Block>, k: nat, f: nat)
    requires k < |live| && InUse(live, f) && f !in Of(live[k])
    ensures InUse(Without(live, k), f)
  {
    WithoutAt(live, k);
    var i: nat :| i < |live| && f in Of(live[i]);
    assert live[i] == Without(live, k)[if i < k then i else i - 1];
  }

  lemma InUseWithout(live: seq<Block>, k: nat, f: nat)
    requires k < |live| && Apart(live)
    ensures InUse(Without(live, k), f) <==> InUse(live, f) && f !in Of(live[k])
  {
    if InUse(live, f) && f !in Of(live[k]) { InUseStill(live, k, f); }
    if InUse(Without(live, k), f) {
      InUseFewer(live, k, f);
      var i: nat :| i < |live| && i != k && f in Of(live[i]);
      assert if i < k then Of(live[i]) !! Of(live[k]) else Of(live[k]) !! Of(live[i]);
    }
  }

  lemma WithoutApart(live: seq<Block>, k: nat, r: Range)
    requires k < |live| && Apart(live) && InRange(live, r)
    ensures Apart(Without(live, k)) && InRange(Without(live, k), r)
  {
    WithoutAt(live, k);
  }

  lemma WithoutAccounted(s: State, k: nat)
    requires k < |s.live| && Apart(s.live) && Accounted(s)
    ensures Accounted(State(s.marked - Of(s.live[k]), s.reserved, Without(s.live, k)))
  {
    forall f: nat
      ensures InUse(Without(s.live, k), f) <==> InUse(s.live, f) && f !in Of(s.live[k])
      ensures f in Of(s.live[k]) ==> InUse(s.live, f)
    {
      InUseWithout(s.live, k, f);
    }
  }

  lemma PlusApart(live: seq<Block>, marked: set<nat>, r: Range, b: Block)
    requires Apart(live) && InRange(live, r) && forall i :: 0 <= i < |live| ==> Of(live[i]) <= marked
    requires FreeRun(marked, r.lo, r.hi, b.n, b.start)
    ensures Apart(live + [b]) && InRange(live + [b], r)
  {
  }

  lemma PlusAccounted(s: State, b: Block)
    requires Accounted(s) && Of(b) !! s.marked
    ensures Accounted(State(s.marked + Of(b), s.reserved, s.live + [b]))
  {
    forall f: nat ensures InUse(s.live + [b], f) <==> InUse(s.live, f) || f in Of(b) {
      InUsePlus(s.live, b, f);
    }
  }

  lemma AllocateInv(s: State, r: Range, b: Block)
    requires r.hi <= FRAMES && Inv(s, r) && FreeRun(s.marked, r.lo, r.hi, b.n, b.start)
    ensures Inv(State(s.marked + Of(b), s.reserved, s.live + [b]), r)
  {
    forall i | 0 <= i < |s.live| ensures Of(s.live[i]) <= s.marked {
      LiveIsMarked(s, i);
    }
    PlusApart(s.live, s.marked, r, b);
    PlusAccounted(s, b);
    SpanSize(b.start, b.n);
    DisjointSizes(s.marked, Of(b));
    TotalOfTwo(s.live, [b]);
  }

  /** Marking leaves live frames alone: what it newly marks is what it newly reserves. */
  lemma NewlyMarked(s: State, b: Block)
    requires Accounted(s)
    ensures var more := set f | f in Of(b) && !InUse(s.live, f);
            && s.marked + Of(b) == s.marked + (Of(b) - s.marked)
            && s.reserved + more == s.reserved + (Of(b) - s.marked)
  {
  }

  lemma MarkInv(s: State, r: Range, b: Block)
    requires Inv(s, r) && b.start + b.n <= FRAMES
    ensures Inv(Apply(s, r, MarkAllocated(b)), r)
  {
    NewlyMarked(s, b);
    DisjointSizes(s.marked, Of(b) - s.marked);
    DisjointSizes(s.reserved, Of(b) - s.marked);
  }

  lemma LiveIsMarked(s: State, k: nat)
    requires k < |s.live| && Accounted(s)
    ensures Of(s.live[k]) <= s.marked
  {
    assert forall f :: f in Of(s.live[k]) ==> InUse(s.live, f);
  }

  lemma FreedSize(marked: set<nat>, b: Block)
    requires Of(b) <= marked
    ensures |marked - Of(b)| + b.n == |marked|
  {
    SpanSize(b.start, b.n);
    assert marked == (marked - Of(b)) + Of(b);
  }

  lemma FreeInv(s: State, r: Range, k: nat)
    requires Inv(s, r) && k < |s.live|
    ensures Inv(Apply(s, r, Free(k)), r)
  {
    WithoutApart(s.live, k, r);
    WithoutAccounted(s, k);
    LiveIsMarked(s, k);
    FreedSize(s.marked, s.live[k]);
    TotalWithout(s.live, k);
  }

  lemma ApplyInv(s: State, r: Range, op: Op)
    requires r.hi <= FRAMES && Inv(s, r) && Legal(s, r, op)
    ensures Inv(Apply(s, r, op), r) && s.reserved <= Apply(s, r, op).reserved
    ensures !op.MarkAllocated? ==> Apply(s, r, op).reserved == s.reserved
  {
    match op
    case Allocate(n, found) => if found.Some? { AllocateInv(s, r, Block(found.value, n)); }
    case MarkAllocated(b) => MarkInv(s, r, b);
    case Free(k) => FreeInv(s, r, k);
  }

  // ---------------------------------------------------------------------------
  // Runs
  // ---------------------------------------------------------------------------

  ghost predicate CanRun(s: State, r: Range, ops: seq<Op>)
    decreases |ops|
  {
    ops == [] || (Legal(s, r, ops[0]) && CanRun(Apply(s, r, ops[0]), r, ops[1..]))
  }

  ghost function Run(s: State, r: Range, ops: seq<Op>): State
    requires CanRun(s, r, ops)
    decreases |ops|
  {
    if ops == [] then s else Run(Apply(s, r, ops[0]), r, ops[1..])
  }

  /** An allocator that has marked `marked` and handed out nothing. */
  function Start(marked: set<nat>): State {
    State(marked, marked, [])
  }

  ghost predicate OnlyMarkedFrames(marked: set<nat>) {
    forall f :: f in marked ==> f < FRAMES
  }

  lemma StartInv(marked: set<nat>, r: Range)
    requires OnlyMarkedFrames(marked)
    ensures Inv(Start(marked), r)
  {
  }

  lemma {:induction false} RunInv(s: State, r: Range, ops: seq<Op>)
    requires r.hi <= FRAMES && Inv(s, r) && CanRun(s, r, ops)
    ensures Inv(Run(s, r, ops), r) && s.reserved <= Run(s, r, ops).reserved
    ensures (forall op :: op in ops ==> !op.MarkAllocated?) ==> Run(s, r, ops).reserved == s.reserved
    decreases |ops|
  {
    if ops != [] {
      ApplyInv(s, r, ops[0]);
      RunInv(Apply(s, r, ops[0]), r, ops[1..]);
    }
  }

  function FreeBelow(n: nat, marked: set<nat>): set<nat> {
    set f: nat | f < n && f !in marked
  }

  lemma FreeSize(n: nat, marked: set<nat>)
    requires forall f :: f in marked ==> f < n
    ensures |FreeBelow(n, marked)| + |marked| == n
  {
    SpanSize(0, n);
    assert FreeBelow(n, marked) + marked == Span(0, n);
    DisjointSizes(FreeBelow(n, marked), marked);
  }

  function FreeFrames(s: State): set<nat> {
    FreeBelow(FRAMES, s.marked)
  }

  lemma LiveUnreserved(s: State)
    requires Accounted(s)
    ensures forall i, f :: 0 <= i < |s.live| && f in Of(s.live[i]) ==> f in s.marked && f !in s.reserved
  {
    assert forall i, f :: 0 <= i < |s.live| && f in Of(s.live[i]) ==> InUse(s.live, f);
  }

  /**
   * Whatever is allocated, marked and freed, in any order: live allocations never share a
   * frame, lie in the range, hold no frame that was reserved at the start, and the frames
   * that are free, live and reserved add up to all there are.
   */
  lemma RunSafe(marked: set<nat>, r: Range, ops: seq<Op>)
    requires r.hi <= FRAMES && OnlyMarkedFrames(marked) && CanRun(Start(marked), r, ops)
    ensures var s := Run(Start(marked), r, ops);
            && Apart(s.live) && InRange(s.live, r)
            && (forall i, f :: 0 <= i < |s.live| && f in Of(s.live[i]) ==> f in s.marked && f !in marked)
            && |FreeFrames(s)| + Total(s.live) + |s.reserved| == FRAMES
  {
    StartInv(marked, r);
    RunInv(Start(marked), r, ops);
    var s := Run(Start(marked), r, ops);
    LiveUnreserved(s);
    FreeSize(FRAMES, s.marked);
  }

  /** Once everything handed out has come back, the bitmap is what it was. */
  lemma AllFreed(marked: set<nat>, r: Range, ops: seq<Op>)
    requires r.hi <= FRAMES && OnlyMarkedFrames(marked) && CanRun(Start(marked), r, ops)
    requires forall op :: op in ops ==> !op.MarkAllocated?
    requires Run(Start(marked), r, ops).live == []
    ensures Run(Start(marked), r, ops).marked == marked
  {
    StartInv(marked, r);
    RunInv(Start(marked), r, ops);
  }

  /** Memory runs out only when every window of the size asked for is touched by a live or reserved frame. */
  lemma FailsOnlyWhenFull(s: State, r: Range, n: nat, t: nat)
    requires Inv(s, r) && FirstFit(s.marked, r.lo, r.hi, n, None) && r.lo <= t && t + n <= r.hi
    ensures exists f :: f in Span(t, n) && (f in s.reserved || InUse(s.live, f))
  {
    assert !FreeRun(s.marked, r.lo, r.hi, n, t);
    var f: nat :| f in Span(t, n) && !(f < r.hi && f !in s.marked);
  }
}
