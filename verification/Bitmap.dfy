/** The physical page allocator: one bit a frame, packed in 64-bit words, searched first fit. */
module Bitmaps {
  import opened Wrappers
  import opened Bits

  const LINE: nat := WIDTH
  const FRAMES: nat := 33554432  // 128 GiB in frames of 4 KiB
  const FRAME_BYTES: nat := 4096

  // ---------------------------------------------------------------------------
  // Words as a set of frames
  // ---------------------------------------------------------------------------

  function IsMarked(words: seq<Word64>, f: nat): bool
    requires f < LINE * |words|
  {
    Test(words[f / LINE], f % LINE)
  }

  function Frames(words: seq<Word64>): set<nat> {
    set f: nat | f < LINE * |words| && IsMarked(words, f)
  }

  lemma SameFrame(f: nat, g: nat)
    requires f / LINE == g / LINE && f % LINE == g % LINE
    ensures f == g
  {
  }

  /** Setting or clearing one bit of one word changes the membership of that frame only. */
  lemma OneBitRefines(words: seq<Word64>, f: nat)
    requires f < LINE * |words|
    ensures Frames(words[f / LINE := WithBit(words[f / LINE], f % LINE)]) == Frames(words) + {f}
    ensures Frames(words[f / LINE := WithoutBit(words[f / LINE], f % LINE)]) == Frames(words) - {f}
  {
    var w, b := words[f / LINE], f % LINE;
    forall g: nat | g < LINE * |words|
      ensures IsMarked(words[f / LINE := WithBit(w, b)], g) == (g == f || IsMarked(words, g))
      ensures IsMarked(words[f / LINE := WithoutBit(w, b)], g) == (g != f && IsMarked(words, g))
    {
      if g / LINE == f / LINE {
        SetsOne(w, b, g % LINE);
        BitFits(b);
        ClearsOne(w, b, g % LINE);
        if g % LINE == b { SameFrame(f, g); }
      }
    }
  }

  // ---------------------------------------------------------------------------
  // First fit
  // ---------------------------------------------------------------------------

  predicate Within(f: nat, start: nat, n: nat) {
    start <= f < start + n
  }

  function Span(start: nat, n: nat): (s: set<nat>)
    ensures forall f: nat :: f in s <==> start <= f < start + n
  {
    set f: nat | f < start + n && Within(f, start, n)
  }

  lemma SpanGrows(s: set<nat>, start: nat, n: nat)
    ensures (s + Span(start, n)) + {start + n} == s + Span(start, n + 1)
    ensures (s - Span(start, n)) - {start + n} == s - Span(start, n + 1)
  {
  }

  /** The `n` frames from `start` on are free and in the range. */
  predicate FreeRun(marked: set<nat>, lo: nat, hi: nat, n: nat, start: nat) {
    lo <= start && forall f: nat :: f in Span(start, n) ==> f < hi && f !in marked
  }

  /** What an allocation of `n` frames is promised to find: the least free run, or that there is none. */
  ghost predicate FirstFit(marked: set<nat>, lo: nat, hi: nat, n: nat, found: Option<nat>) {
    match found
    case Some(s) => FreeRun(marked, lo, hi, n, s) && forall t: nat :: t < s ==> !FreeRun(marked, lo, hi, n, t)
    case None => forall t: nat :: !FreeRun(marked, lo, hi, n, t)
  }

  lemma FirstFitUnique(marked: set<nat>, lo: nat, hi: nat, n: nat, a: Option<nat>, b: Option<nat>)
    requires FirstFit(marked, lo, hi, n, a) && FirstFit(marked, lo, hi, n, b)
    ensures a == b
  {
    if a.Some? && b.Some? {
      assert !(a.value < b.value) && !(b.value < a.value);
    }
  }

  /** The search may jump past a marked frame: no run of `n` starts between `start` and it. */
  lemma SkipMissesNothing(marked: set<nat>, lo: nat, hi: nat, n: nat, start: nat, i: nat, t: nat)
    requires i < n && (start + i >= hi || start + i in marked)
    requires start <= t && (t <= start + i || start + i >= hi)
    ensures !FreeRun(marked, lo, hi, n, t)
  {
    assert (if t <= start + i then start + i else t) in Span(t, n);
  }

  datatype Error = Success | NoEnoughMemory

  class BitmapMemoryManager {
    const allocMap: array<Word64>
    var rangeBegin: nat
    var rangeEnd: nat

    predicate Valid()
      reads this
    {
      allocMap.Length * LINE == FRAMES && rangeEnd <= FRAMES
    }

    /** The frames that are marked. */
    function Contents(): set<nat>
      reads this, allocMap
    {
      Frames(allocMap[..])
    }

    constructor ()
      ensures Valid() && fresh(allocMap)
      ensures Contents() == {} && rangeBegin == 0 && rangeEnd == FRAMES
    {
      allocMap := new Word64[FRAMES / LINE](_ => 0);
      rangeBegin, rangeEnd := 0, FRAMES;
      new;
      forall f: nat | f < LINE * |allocMap[..]| ensures !IsMarked(allocMap[..], f) {
        assert allocMap[..][f / LINE] == 0;
        TestZero(f % LINE);
      }
    }

    function GetBit(f: nat): (b: bool)
      requires Valid() && f < FRAMES
      reads this, allocMap
      ensures b == (f in Contents())
    {
      TestIsAnd(allocMap[f / LINE], f % LINE);
      And(allocMap[f / LINE], Pow2(f % LINE)) != 0
    }

    method SetBit(f: nat, mark: bool)
      requires Valid() && f < FRAMES
      modifies allocMap
      ensures Contents() == if mark then old(Contents()) + {f} else old(Contents()) - {f}
    {
      ghost var before := allocMap[..];
      OneBitRefines(before, f);
      var line, bit := f / LINE, f % LINE;
      if mark {
        allocMap[line] := WithBit(allocMap[line], bit);
        assert allocMap[..] == before[line := WithBit(before[line], bit)];
      } else {
        allocMap[line] := WithoutBit(allocMap[line], bit);
        assert allocMap[..] == before[line := WithoutBit(before[line], bit)];
      }
    }

    method MarkAllocated(start: nat, n: nat)
      requires Valid() && (n == 0 || start + n <= FRAMES)
      modifies allocMap
      ensures Contents() == old(Contents()) + Span(start, n)
    {
      ghost var before := Contents();
      for i := 0 to n
        invariant Contents() == before + Span(start, i)
      {
        SetBit(start + i, true);
        SpanGrows(before, start, i);
      }
    }

    method Free(start: nat, n: nat) returns (error: Error)
      requires Valid() && (n == 0 || start + n <= FRAMES)
      modifies allocMap
      ensures error == Success && Contents() == old(Contents()) - Span(start, n)
    {
      ghost var before := Contents();
      for i := start to start + n
        invariant Contents() == before - Span(start, i - start)
      {
        SetBit(i, false);
        SpanGrows(before, start, i - start);
      }
      error := Success;
    }

    method Allocate(n: nat) returns (found: Option<nat>, error: Error)
      requires Valid()
      modifies allocMap
      ensures FirstFit(old(Contents()), rangeBegin, rangeEnd, n, found)
      ensures error == (if found.Some? then Success else NoEnoughMemory)
      ensures Contents() == if found.Some? then old(Contents()) + Span(found.value, n) else old(Contents())
    {
      var start := rangeBegin;
      while true
        invariant start >= rangeBegin && Contents() == old(Contents())
        invariant forall t: nat :: t < start ==> !FreeRun(Contents(), rangeBegin, rangeEnd, n, t)
        decreases FRAMES + rangeBegin + 1 - start
      {
        var i := 0;
        while i < n
          invariant i <= n
          invariant FreeRun(Contents(), rangeBegin, rangeEnd, i, start)
        {
          if i + start >= rangeEnd {
            forall t: nat ensures !FreeRun(Contents(), rangeBegin, rangeEnd, n, t) {
              if t >= start { SkipMissesNothing(Contents(), rangeBegin, rangeEnd, n, start, i, t); }
            }
            return None, NoEnoughMemory;
          }
          if GetBit(i + start) { break; }
          i := i + 1;
        }
        if i == n {
          assert n > 0 ==> start + n - 1 in Span(start, n);
          MarkAllocated(start, n);
          return Some(start), Success;
        }
        forall t: nat | start <= t < start + i + 1 ensures !FreeRun(Contents(), rangeBegin, rangeEnd, n, t) {
          SkipMissesNothing(Contents(), rangeBegin, rangeEnd, n, start, i, t);
        }
        start := start + (i + 1);
      }
    }

    method SetMemoryRange(lo: nat, hi: nat)
      requires Valid()
      modifies this`rangeBegin, this`rangeEnd
      ensures (Valid() <==> hi <= FRAMES) && rangeBegin == lo && rangeEnd == hi && Contents() == old(Contents())
    {
      rangeBegin, rangeEnd := lo, hi;
    }
  }
}
