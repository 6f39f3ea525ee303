/** The identity page tables, and what 4-level paging makes of them. */
module Paging {
  import opened Bits
  import B = Bitmaps

  const PAGE_4K: nat := 0x1000
  const PAGE_2M: nat := 0x20_0000
  const PAGE_1G: nat := 0x4000_0000
  const DIRECTORIES: nat := 64
  const MAPPED_END: nat := 0x10_0000_0000       // 64 GiB
  const VIRTUAL_END: nat := 0x1_0000_0000_0000  // 48 bits

  /** What an access to an address meets. */
  datatype Translation = NotPresent | Mapped(address: nat, writable: bool, supervisor: bool)

  // ---------------------------------------------------------------------------
  // Entries
  // ---------------------------------------------------------------------------

  predicate Present(e: nat) {
    Test(e, 0)
  }

  predicate Writable(e: nat) {
    Test(e, 1)
  }

  predicate User(e: nat) {
    Test(e, 2)
  }

  predicate IsLeaf(e: nat) {
    Test(e, 7)
  }

  /** The 52-bit address in an entry, rounded down to a page of the given size. */
  function AddressIn(e: nat, size: nat): nat
    requires size > 0
  {
    e % 0x10_0000_0000_0000 / size * size
  }

  /** The 4 KiB page that an entry points to. */
  function PageIn(e: nat): nat {
    e % 0x10_0000_0000_0000 / PAGE_4K
  }

  /** Flags or-ed into a multiple of `2^k` are added to it, and are the bits below `k`. */
  lemma OrFlags(q: nat, m: nat, k: nat, flags: nat)
    requires m == Pow2(k) && flags < m
    ensures Or(q * m, flags) == q * m + flags
    ensures forall b: nat :: b < k ==> Test(Or(q * m, flags), b) == Test(flags, b)
  {
    MultipleIsAligned(q, k);
    OrIsSum(q * m, flags, k);
    forall b: nat | b < k ensures Test(Or(q * m, flags), b) == Test(flags, b) {
      AlignedTest(q * m, k, b);
      TestOr(q * m, flags, b);
    }
  }

  lemma Sizes()
    ensures Pow2(12) == PAGE_4K && Pow2(21) == PAGE_2M
  {
    Pow2Twice(3, 8);
    Pow2Twice(6, 64);
    Pow2Sum(12, 9);
    Pow2Sum(6, 3);
  }

  /** An entry that points to a table. */
  lemma TableEntry(q: nat)
    requires q < 0x100_0000_0000
    ensures var e := Or(q * PAGE_4K, 0x003);
            Present(e) && Writable(e) && !User(e) && !IsLeaf(e) && PageIn(e) == q
  {
    Sizes();
    OrFlags(q, PAGE_4K, 12, 0x003);
  }

  lemma LeafAddress(e: nat, q: nat)
    requires q < 0x8000_0000 && e == q * PAGE_2M + 0x83
    ensures AddressIn(e, PAGE_2M) == q * PAGE_2M
  {
    assert e % 0x10_0000_0000_0000 == e;
    assert e / PAGE_2M == q;
  }

  /** An entry that maps a 2 MiB page. */
  lemma LeafEntry(q: nat)
    requires q < 0x8000_0000
    ensures var e := Or(q * PAGE_2M, 0x83);
            Present(e) && Writable(e) && !User(e) && IsLeaf(e) && AddressIn(e, PAGE_2M) == q * PAGE_2M
  {
    Sizes();
    OrFlags(q, PAGE_2M, 21, 0x83);
    LeafAddress(Or(q * PAGE_2M, 0x83), q);
  }

  // ---------------------------------------------------------------------------
  // Tables
  // ---------------------------------------------------------------------------

  class PageTables {
    const pml4: array<nat>
    const pdp: array<nat>
    const directory: array2<nat>
    /** Where the linker puts the tables, in pages of 4 KiB. */
    const pml4Page: nat
    const pdpPage: nat
    const directoryPage: nat
    /** The rest of memory, by page and entry. */
    const elsewhere: (nat, nat) -> nat
    var cr3: nat

    predicate Valid() {
      && pml4.Length == 512 && pdp.Length == 512 && pml4 != pdp
      && directory.Length0 == DIRECTORIES && directory.Length1 == 512
      && pml4Page != pdpPage
      && !(directoryPage <= pml4Page < directoryPage + DIRECTORIES)
      && !(directoryPage <= pdpPage < directoryPage + DIRECTORIES)
      && pml4Page < 0x100_0000_0000 && pdpPage < 0x100_0000_0000 && directoryPage + DIRECTORIES <= 0x100_0000_0000
    }

    /** The entry that the processor finds in a page of physical memory. */
    function Entry(page: nat, i: nat): nat
      requires Valid() && i < 512
      reads pml4, pdp, directory
    {
      if page == pml4Page then pml4[i]
      else if page == pdpPage then pdp[i]
      else if directoryPage <= page < directoryPage + DIRECTORIES then directory[page - directoryPage, i]
      else elsewhere(page, i)
    }

    /** Intel SDM volume 3A, section 4.5: the 4-level walk of a 48-bit address. */
    function Walk(v: nat): Translation
      requires Valid()
      reads this, pml4, pdp, directory
    {
      var e4 := Entry(cr3 / PAGE_4K, v / 0x80_0000_0000 % 512);
      if !Present(e4) then NotPresent else
      var e3 := Entry(PageIn(e4), v / PAGE_1G % 512);
      if !Present(e3) then NotPresent else
      if IsLeaf(e3) then
        Mapped(AddressIn(e3, PAGE_1G) + v % PAGE_1G, Writable(e4) && Writable(e3), !(User(e4) && User(e3)))
      else
        var e2 := Entry(PageIn(e3), v / PAGE_2M % 512);
        if !Present(e2) then NotPresent else
        if IsLeaf(e2) then
          Mapped(AddressIn(e2, PAGE_2M) + v % PAGE_2M, Writable(e4) && Writable(e3) && Writable(e2),
                 !(User(e4) && User(e3) && User(e2)))
        else
          var e1 := Entry(PageIn(e2), v / PAGE_4K % 512);
          if !Present(e1) then NotPresent
          else Mapped(AddressIn(e1, PAGE_4K) + v % PAGE_4K,
                      Writable(e4) && Writable(e3) && Writable(e2) && Writable(e1),
                      !(User(e4) && User(e3) && User(e2) && User(e1)))
    }

    /** Static storage starts as zeros. */
    predicate Empty()
      requires Valid()
      reads pml4, pdp
    {
      (forall i :: 0 <= i < 512 ==> pml4[i] == 0) && (forall i :: 0 <= i < 512 ==> pdp[i] == 0)
    }

    ghost predicate Built()
      requires Valid()
      reads this, pml4, pdp, directory
    {
      && cr3 == pml4Page * PAGE_4K
      && pml4[0] == Or(pdpPage * PAGE_4K, 0x003) && (forall i :: 1 <= i < 512 ==> pml4[i] == 0)
      && (forall i :: 0 <= i < DIRECTORIES ==> pdp[i] == Or((directoryPage + i) * PAGE_4K, 0x003))
      && (forall i :: DIRECTORIES <= i < 512 ==> pdp[i] == 0)
      && forall i, j :: 0 <= i < DIRECTORIES && 0 <= j < 512 ==> directory[i, j] == Or(i * PAGE_1G + j * PAGE_2M, 0x83)
    }

    method SetupIdentityPageTable()
      requires Valid() && Empty()
      modifies this, pml4, pdp, directory
      ensures Built()
    {
      pml4[0] := Or(pdpPage * PAGE_4K, 0x003);
      for i := 0 to DIRECTORIES
        invariant pml4[0] == Or(pdpPage * PAGE_4K, 0x003) && (forall k :: 1 <= k < 512 ==> pml4[k] == 0)
        invariant forall k :: 0 <= k < i ==> pdp[k] == Or((directoryPage + k) * PAGE_4K, 0x003)
        invariant forall k :: i <= k < 512 ==> pdp[k] == 0
        invariant forall k, j :: 0 <= k < i && 0 <= j < 512 ==> directory[k, j] == Or(k * PAGE_1G + j * PAGE_2M, 0x83)
      {
        pdp[i] := Or((directoryPage + i) * PAGE_4K, 0x003);
        for j := 0 to 512
          modifies directory
          invariant forall k, l :: 0 <= k < i && 0 <= l < 512 ==> directory[k, l] == Or(k * PAGE_1G + l * PAGE_2M, 0x83)
          invariant forall l :: 0 <= l < j ==> directory[i, l] == Or(i * PAGE_1G + l * PAGE_2M, 0x83)
        {
          directory[i, j] := Or(i * PAGE_1G + j * PAGE_2M, 0x83);
        }
      }
      cr3 := pml4Page * PAGE_4K;
    }
  }

  /** The indices that the walk of an address takes. */
  lemma Indices(v: nat)
    requires v < VIRTUAL_END
    ensures v < MAPPED_END ==> v / 0x80_0000_0000 % 512 == 0 && v / PAGE_1G % 512 < DIRECTORIES
    ensures v >= MAPPED_END ==> v / 0x80_0000_0000 % 512 > 0 || v / PAGE_1G % 512 >= DIRECTORIES
  {
  }

  lemma Parts(v: nat)
    requires v < MAPPED_END
    ensures (v / PAGE_1G % 512 * 512 + v / PAGE_2M % 512) * PAGE_2M + v % PAGE_2M == v
  {
    assert v / PAGE_2M / 512 == v / PAGE_1G;
  }

  lemma DirectoryEntry(t: PageTables, i: nat, j: nat)
    requires t.Valid() && t.Built() && i < DIRECTORIES && j < 512
    ensures var e := t.Entry(t.directoryPage + i, j);
            Present(e) && Writable(e) && !User(e) && IsLeaf(e) && AddressIn(e, PAGE_2M) == (i * 512 + j) * PAGE_2M
  {
    assert i * PAGE_1G + j * PAGE_2M == (i * 512 + j) * PAGE_2M;
    LeafEntry(i * 512 + j);
  }

  /** The three entries met on the way to a mapped address. */
  lemma Entries(t: PageTables, i: nat, j: nat)
    requires t.Valid() && t.Built() && i < DIRECTORIES && j < 512
    ensures var e := t.Entry(t.pml4Page, 0);
            Present(e) && Writable(e) && !User(e) && PageIn(e) == t.pdpPage
    ensures var e := t.Entry(t.pdpPage, i);
            Present(e) && Writable(e) && !User(e) && !IsLeaf(e) && PageIn(e) == t.directoryPage + i
    ensures var e := t.Entry(t.directoryPage + i, j);
            Present(e) && Writable(e) && !User(e) && IsLeaf(e) && AddressIn(e, PAGE_2M) == (i * 512 + j) * PAGE_2M
  {
    TableEntry(t.pdpPage);
    TableEntry(t.directoryPage + i);
    DirectoryEntry(t, i, j);
  }

  lemma WalkBelow(t: PageTables, v: nat)
    requires t.Valid() && t.Built() && v < MAPPED_END
    ensures t.Walk(v) == Mapped(v, true, true)
  {
    Indices(v);
    Parts(v);
    Entries(t, v / PAGE_1G % 512, v / PAGE_2M % 512);
  }

  lemma WalkAbove(t: PageTables, v: nat)
    requires t.Valid() && t.Built() && MAPPED_END <= v < VIRTUAL_END
    ensures t.Walk(v) == NotPresent
  {
    Indices(v);
    TableEntry(t.pdpPage);
  }

  /** Every address below 64 GiB is itself, writable and for the supervisor; no other is mapped. */
  lemma IdentityExactly(t: PageTables, v: nat)
    requires t.Valid() && t.Built() && v < VIRTUAL_END
    ensures t.Walk(v) == if v < MAPPED_END then Mapped(v, true, true) else NotPresent
  {
    if v < MAPPED_END { WalkBelow(t, v); } else { WalkAbove(t, v); }
  }

  ghost predicate MappedToItself(t: PageTables, v: nat)
    requires t.Valid()
    reads t, t.pml4, t.pdp, t.directory
  {
    t.Walk(v) == Mapped(v, true, true)
  }

  /** Every byte of a frame is mapped to itself. */
  ghost predicate FrameMapped(t: PageTables, f: nat)
    requires t.Valid()
    reads t, t.pml4, t.pdp, t.directory
  {
    forall v: nat :: f * PAGE_4K <= v < (f + 1) * PAGE_4K ==> MappedToItself(t, v)
  }

  /** A frame lies on one side of the end. */
  lemma FrameSide(f: nat)
    ensures (f + 1) * PAGE_4K <= MAPPED_END <==> f * PAGE_4K < MAPPED_END
  {
  }

  lemma MappedBelow(t: PageTables, v: nat)
    requires t.Valid() && t.Built() && v < VIRTUAL_END
    ensures MappedToItself(t, v) <==> v < MAPPED_END
  {
    IdentityExactly(t, v);
  }

  lemma FrameMappedExactly(t: PageTables, f: nat)
    requires t.Valid() && t.Built() && f < B.FRAMES
    ensures FrameMapped(t, f) <==> (f + 1) * PAGE_4K <= MAPPED_END
  {
    FrameSide(f);
    MappedBelow(t, f * PAGE_4K);
    if f * PAGE_4K < MAPPED_END {
      forall v: nat | f * PAGE_4K <= v < (f + 1) * PAGE_4K ensures MappedToItself(t, v) {
        MappedBelow(t, v);
      }
    }
  }

  /** The bitmap covers 128 GiB and the tables 64: a block can be used exactly when it ends by then. */
  lemma BlockMappedExactly(t: PageTables, start: nat, n: nat)
    requires t.Valid() && t.Built() && n > 0 && start + n <= B.FRAMES
    ensures (forall f: nat :: f in B.Span(start, n) ==> FrameMapped(t, f)) <==> (start + n) * PAGE_4K <= MAPPED_END
  {
    forall f: nat | f in B.Span(start, n) ensures FrameMapped(t, f) <==> (f + 1) * PAGE_4K <= MAPPED_END {
      FrameMappedExactly(t, f);
    }
    assert start + n - 1 in B.Span(start, n);
  }
}
