/** The boot loader's placing of the kernel's load segments in memory. */
module ElfLoader {
  import opened Wrappers

  const PT_LOAD: nat := 1
  const MAX_UINT64: nat := TWO_TO_THE_64 - 1
  const PAGE: nat := 0x1000

  type UInt64 = x: nat | x < TWO_TO_THE_64
  type Memory = UInt64 -> Byte

  datatype Phdr = Phdr(kind: nat, offset: UInt64, vaddr: UInt64, filesz: UInt64, memsz: UInt64)

  predicate IsLoad(p: Phdr) {
    p.kind == PT_LOAD
  }

  /** `x + y` on 64-bit words */
  function Sum(x: UInt64, y: UInt64): UInt64 {
    if x + y < TWO_TO_THE_64 then x + y else x + y - TWO_TO_THE_64
  }

  /** `x - y` on 64-bit words */
  function Diff(x: UInt64, y: UInt64): UInt64 {
    if y <= x then x - y else x - y + TWO_TO_THE_64
  }

  /** No load segment runs over the end of the address space. */
  predicate NoWrap(phdrs: seq<Phdr>) {
    forall i :: 0 <= i < |phdrs| && IsLoad(phdrs[i]) ==> phdrs[i].vaddr + phdrs[i].memsz < TWO_TO_THE_64
  }

  // ---------------------------------------------------------------------------
  // The range
  // ---------------------------------------------------------------------------

  ghost predicate IsFirst(phdrs: seq<Phdr>, first: nat) {
    first == MAX_UINT64 || exists i :: 0 <= i < |phdrs| && IsLoad(phdrs[i]) && first == phdrs[i].vaddr
  }

  ghost predicate IsLast(phdrs: seq<Phdr>, last: nat) {
    last == 0 || exists i :: 0 <= i < |phdrs| && IsLoad(phdrs[i]) && last == Sum(phdrs[i].vaddr, phdrs[i].memsz)
  }

  /** The least first and the greatest last address of the load segments. */
  ghost predicate IsRange(phdrs: seq<Phdr>, first: nat, last: nat) {
    && (forall i :: 0 <= i < |phdrs| && IsLoad(phdrs[i]) ==>
          first <= phdrs[i].vaddr && Sum(phdrs[i].vaddr, phdrs[i].memsz) <= last)
    && IsFirst(phdrs, first) && IsLast(phdrs, last)
  }

  lemma RangeUnique(phdrs: seq<Phdr>, f: UInt64, l: UInt64, f': UInt64, l': UInt64)
    requires IsRange(phdrs, f, l) && IsRange(phdrs, f', l')
    ensures f == f' && l == l'
  {
  }

  lemma RangeSkips(phdrs: seq<Phdr>, p: Phdr, first: UInt64, last: UInt64)
    requires IsRange(phdrs, first, last) && !IsLoad(p)
    ensures IsRange(phdrs + [p], first, last)
  {
    RangeAttained(phdrs, p, first, last);
  }

  /** What is attained among some headers is attained among more. */
  lemma RangeAttained(phdrs: seq<Phdr>, p: Phdr, first: UInt64, last: UInt64)
    requires IsRange(phdrs, first, last)
    ensures IsFirst(phdrs + [p], first) && IsLast(phdrs + [p], last)
  {
    if i :| 0 <= i < |phdrs| && IsLoad(phdrs[i]) && first == phdrs[i].vaddr {
      assert (phdrs + [p])[i] == phdrs[i];
    }
    if i :| 0 <= i < |phdrs| && IsLoad(phdrs[i]) && last == Sum(phdrs[i].vaddr, phdrs[i].memsz) {
      assert (phdrs + [p])[i] == phdrs[i];
    }
  }

  lemma RangeGrows(phdrs: seq<Phdr>, p: Phdr, first: UInt64, last: UInt64)
    requires IsRange(phdrs, first, last) && IsLoad(p)
    ensures var end := Sum(p.vaddr, p.memsz);
            IsRange(phdrs + [p], if p.vaddr < first then p.vaddr else first, if last < end then end else last)
  {
    RangeAttained(phdrs, p, first, last);
    assert (phdrs + [p])[|phdrs|] == p;
  }

  method CalcLoadAddressRange(phdrs: seq<Phdr>) returns (first: UInt64, last: UInt64)
    ensures IsRange(phdrs, first, last)
  {
    first, last := MAX_UINT64, 0;
    for i := 0 to |phdrs|
      invariant IsRange(phdrs[..i], first, last)
    {
      var phdr := phdrs[i];
      assert phdrs[..i + 1] == phdrs[..i] + [phdr];
      if phdr.kind != PT_LOAD {
        RangeSkips(phdrs[..i], phdr, first, last);
        continue;
      }
      RangeGrows(phdrs[..i], phdr, first, last);
      first := if phdr.vaddr < first then phdr.vaddr else first;
      last := if last < Sum(phdr.vaddr, phdr.memsz) then Sum(phdr.vaddr, phdr.memsz) else last;
    }
    assert phdrs[..|phdrs|] == phdrs;
  }

  function NumPages(first: UInt64, last: UInt64): nat {
    Sum(Diff(last, first), 0xfff) / PAGE
  }

  // ---------------------------------------------------------------------------
  // The segments
  // ---------------------------------------------------------------------------

  /** The address lies in the `n` bytes from `start` on; addresses wrap. */
  predicate InBlock(start: UInt64, n: nat, a: UInt64) {
    Diff(a, start) < n
  }

  lemma InBlockPlain(start: UInt64, n: nat, a: UInt64)
    requires start + n <= TWO_TO_THE_64
    ensures InBlock(start, n, a) <==> start <= a < start + n
  {
  }

  /** The file holds what the segments are copied from. */
  predicate InFile(phdrs: seq<Phdr>, file: seq<Byte>) {
    forall i :: 0 <= i < |phdrs| && IsLoad(phdrs[i]) ==> phdrs[i].offset + phdrs[i].filesz <= |file|
  }

  /** No load segment is larger in the file than in memory. Nothing checks this. */
  predicate AllFit(phdrs: seq<Phdr>) {
    forall i :: 0 <= i < |phdrs| && IsLoad(phdrs[i]) ==> phdrs[i].filesz <= phdrs[i].memsz
  }

  /** What loading one segment leaves at an address: the zeros come after the copy. */
  function ByteOf(p: Phdr, file: seq<Byte>, a: UInt64): Option<Byte>
    requires IsLoad(p) ==> p.offset + p.filesz <= |file|
  {
    if !IsLoad(p) then None
    else if InBlock(Sum(p.vaddr, p.filesz), Diff(p.memsz, p.filesz), a) then Some(0)
    else if InBlock(p.vaddr, p.filesz, a) then Some(file[p.offset + Diff(a, p.vaddr)])
    else None
  }

  /** What loading all of them leaves: the last one that writes the address wins. */
  function ImageByte(phdrs: seq<Phdr>, file: seq<Byte>, a: UInt64): Option<Byte>
    requires InFile(phdrs, file)
  {
    if phdrs == [] then None
    else
      var n := |phdrs| - 1;
      if ByteOf(phdrs[n], file, a).Some? then ByteOf(phdrs[n], file, a) else ImageByte(phdrs[..n], file, a)
  }

  function Over(b: Option<Byte>, below: Byte): Byte {
    if b.Some? then b.value else below
  }

  /** The memory after loading. */
  function Loaded(phdrs: seq<Phdr>, file: seq<Byte>, before: Memory): Memory
    requires InFile(phdrs, file)
  {
    (a: UInt64) => Over(ImageByte(phdrs, file, a), before(a))
  }

  class Machine {
    var memory: Memory

    constructor (memory: Memory)
      ensures this.memory == memory
    {
      this.memory := memory;
    }

    method CopyMem(dst: UInt64, src: seq<Byte>)
      requires |src| < TWO_TO_THE_64
      modifies this
      ensures forall a: UInt64 :: memory(a) == if InBlock(dst, |src|, a) then src[Diff(a, dst)] else old(memory)(a)
    {
      var before := memory;
      memory := (a: UInt64) => if InBlock(dst, |src|, a) then src[Diff(a, dst)] else before(a);
    }

    method SetMem(dst: UInt64, n: UInt64, value: Byte)
      modifies this
      ensures forall a: UInt64 :: memory(a) == if InBlock(dst, n, a) then value else old(memory)(a)
    {
      var before := memory;
      memory := (a: UInt64) => if InBlock(dst, n, a) then value else before(a);
    }

    method LoadSegment(p: Phdr, file: seq<Byte>)
      requires IsLoad(p) && p.offset + p.filesz <= |file|
      modifies this
      ensures forall a: UInt64 :: memory(a) == Over(ByteOf(p, file, a), old(memory)(a))
    {
      CopyMem(p.vaddr, file[p.offset..p.offset + p.filesz]);
      var remainBytes := Diff(p.memsz, p.filesz);
      if remainBytes > 0 { SetMem(Sum(p.vaddr, p.filesz), remainBytes, 0); }
    }

    method CopyLoadSegments(phdrs: seq<Phdr>, file: seq<Byte>)
      requires InFile(phdrs, file)
      modifies this
      ensures forall a: UInt64 :: memory(a) == Loaded(phdrs, file, old(memory))(a)
    {
      for i := 0 to |phdrs|
        invariant forall a: UInt64 :: memory(a) == Over(ImageByte(phdrs[..i], file, a), old(memory)(a))
      {
        var phdr := phdrs[i];
        assert phdrs[..i + 1][..i] == phdrs[..i] && phdrs[..i + 1][i] == phdr;
        if phdr.kind != PT_LOAD { continue; }
        LoadSegment(phdr, file);
      }
      assert phdrs[..|phdrs|] == phdrs;
    }
  }

  // ---------------------------------------------------------------------------
  // What loading promises
  // ---------------------------------------------------------------------------

  predicate Covers(p: Phdr, a: UInt64) {
    IsLoad(p) && InBlock(p.vaddr, p.memsz, a)
  }

  /** A segment that fits is written whole and nothing else: its file bytes, then zeros. */
  lemma FittingSegment(p: Phdr, file: seq<Byte>, a: UInt64)
    requires IsLoad(p) && p.filesz <= p.memsz && p.offset + p.filesz <= |file|
    ensures ByteOf(p, file, a) ==
            var k := Diff(a, p.vaddr);
            if k < p.filesz then Some(file[p.offset + k]) else if k < p.memsz then Some(0) else None
  {
  }

  /** One that does not fit is written over the whole address space: the count of zeros wraps. */
  lemma OversizeSegment(p: Phdr, file: seq<Byte>, a: UInt64)
    requires IsLoad(p) && p.filesz > p.memsz && p.offset + p.filesz <= |file|
    ensures ByteOf(p, file, a) ==
            var k := Diff(a, p.vaddr);
            if p.memsz <= k < p.filesz then Some(file[p.offset + k]) else Some(0)
  {
  }

  lemma {:induction false} ImageWritten(phdrs: seq<Phdr>, file: seq<Byte>, a: UInt64)
    requires InFile(phdrs, file)
    ensures ImageByte(phdrs, file, a).Some? <==> exists i :: 0 <= i < |phdrs| && ByteOf(phdrs[i], file, a).Some?
  {
    if phdrs != [] {
      var n := |phdrs| - 1;
      ImageWritten(phdrs[..n], file, a);
      if i :| 0 <= i < |phdrs| && ByteOf(phdrs[i], file, a).Some? {
        if i < n { assert ByteOf(phdrs[..n][i], file, a).Some?; }
      }
      if ImageByte(phdrs[..n], file, a).Some? {
        var i :| 0 <= i < n && ByteOf(phdrs[..n][i], file, a).Some?;
        assert ByteOf(phdrs[i], file, a).Some?;
      }
    }
  }

  lemma PagesCover(first: UInt64, last: UInt64)
    requires first <= last && last - first + 0xfff < TWO_TO_THE_64
    ensures last <= first + NumPages(first, last) * 4096 < last + 4096
  {
  }

  predicate InPages(first: UInt64, last: UInt64, a: UInt64) {
    first <= a < first + NumPages(first, last) * PAGE
  }

  /** The pages are never all of memory. */
  lemma SomeOutside(first: UInt64, last: UInt64) returns (a: UInt64)
    requires last - first + 0xfff < TWO_TO_THE_64
    ensures !InPages(first, last, a)
  {
    a := if first > 0 then 0 else MAX_UINT64;
  }

  lemma FittingInPages(phdrs: seq<Phdr>, file: seq<Byte>, first: UInt64, last: UInt64, a: UInt64)
    requires InFile(phdrs, file) && NoWrap(phdrs) && IsRange(phdrs, first, last) && last - first + 0xfff < TWO_TO_THE_64
    requires AllFit(phdrs) && ImageByte(phdrs, file, a).Some?
    ensures InPages(first, last, a)
  {
    ImageWritten(phdrs, file, a);
    var i :| 0 <= i < |phdrs| && ByteOf(phdrs[i], file, a).Some?;
    FittingSegment(phdrs[i], file, a);
    InBlockPlain(phdrs[i].vaddr, phdrs[i].memsz, a);
    PagesCover(first, last);
  }

  /**
   * Every byte that is written lies in the pages allocated for the kernel, if and only if no
   * load segment is larger in the file than in memory.
   */
  lemma WritesInPagesExactly(phdrs: seq<Phdr>, file: seq<Byte>, first: UInt64, last: UInt64)
    requires InFile(phdrs, file) && NoWrap(phdrs) && IsRange(phdrs, first, last) && last - first + 0xfff < TWO_TO_THE_64
    ensures (forall a: UInt64 :: ImageByte(phdrs, file, a).Some? ==> InPages(first, last, a)) <==> AllFit(phdrs)
  {
    if AllFit(phdrs) {
      forall a: UInt64 | ImageByte(phdrs, file, a).Some? ensures InPages(first, last, a) {
        FittingInPages(phdrs, file, first, last, a);
      }
    } else {
      var i :| 0 <= i < |phdrs| && IsLoad(phdrs[i]) && phdrs[i].filesz > phdrs[i].memsz;
      var a := SomeOutside(first, last);
      OversizeSegment(phdrs[i], file, a);
      ImageWritten(phdrs, file, a);
    }
  }

  ghost predicate Disjoint(phdrs: seq<Phdr>) {
    forall i, j, a: UInt64 :: 0 <= i < j < |phdrs| && Covers(phdrs[i], a) ==> !Covers(phdrs[j], a)
  }

  /** Segments that do not overlap are each loaded whole: their file bytes, then zeros. */
  lemma {:induction false} LoadedWhole(phdrs: seq<Phdr>, file: seq<Byte>, i: nat, k: nat)
    requires InFile(phdrs, file) && AllFit(phdrs) && NoWrap(phdrs) && Disjoint(phdrs)
    requires i < |phdrs| && phdrs[i].kind == 1 && k < phdrs[i].memsz
    ensures ImageByte(phdrs, file, phdrs[i].vaddr + k)
            == Some(if k < phdrs[i].filesz then file[phdrs[i].offset + k] else 0)
  {
    var n, a := |phdrs| - 1, phdrs[i].vaddr + k;
    FittingSegment(phdrs[i], file, a);
    if i < n {
      assert Covers(phdrs[i], a) && !Covers(phdrs[n], a);
      if IsLoad(phdrs[n]) { FittingSegment(phdrs[n], file, a); }
      LoadedWhole(phdrs[..n], file, i, k);
    }
  }

  /**
   * Loading a segment leaves all memory outside it alone, whatever was there, if and only if
   * the segment is no larger in the file than in memory.
   */
  lemma StaysInSegmentExactly(p: Phdr, file: seq<Byte>)
    requires IsLoad(p) && p.offset + p.filesz <= |file|
    ensures (forall before: Memory, a: UInt64 :: !Covers(p, a) ==> Loaded([p], file, before)(a) == before(a))
            <==> p.filesz <= p.memsz
  {
    forall a: UInt64 ensures ImageByte([p], file, a) == ByteOf(p, file, a) {
      assert [p][..0] == [];
    }
    if p.filesz <= p.memsz {
      forall before: Memory, a: UInt64 | !Covers(p, a) ensures Loaded([p], file, before)(a) == before(a) {
        FittingSegment(p, file, a);
      }
    } else {
      var ones: Memory, a: UInt64 := _ => 1, Sum(p.vaddr, p.filesz);
      OversizeSegment(p, file, a);
      assert ByteOf(p, file, a) == Some(0) == ImageByte([p], file, a);
      assert !Covers(p, a) && Loaded([p], file, ones)(a) != ones(a);
    }
  }
}
