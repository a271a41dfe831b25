/**
 The software TLB of a 32-bit target (cputlb.c): a direct-mapped table per MMU
 mode, and one area that covers every large page entered since the last full
 flush, so that flushing any page of a large page flushes everything.
 */
module Tlb {
  const NB_MMU_MODES: nat := 2
  const CPU_TLB_SIZE: nat := 256
  const TARGET_PAGE_SIZE: bv32 := 0x400
  const TARGET_PAGE_MASK: bv32 := 0xffff_fc00
  const TLB_INVALID_MASK: bv32 := 0x8
  const TLB_NOTDIRTY: bv32 := 0x10
  const TLB_MMIO: bv32 := 0x20
  const NONE: bv32 := 0xffff_ffff

  // ----- masks -----

  function Mask(a: bv32, m: bv32): bv32 { a & m }

  function Widen(m: bv32): bv32 { m << 1 }

  function PageOf(a: bv32): bv32 { a & TARGET_PAGE_MASK }

  function LargeMask(size: bv32): bv32 { !(size - 1) }

  predicate PowerOfTwo(n: bv32) { n != 0 && n & (n - 1) == 0 }

  /** A mask of leading ones, not all of them. */
  predicate Leading(m: bv32) { !m & (!m + 1) == 0 && m & 1 == 0 }

  /** The ones of `n` are among those of `m`. */
  predicate Within(n: bv32, m: bv32) { n & m == n }

  predicate Differ(a: bv32, b: bv32, m: bv32) { (a ^ b) & m != 0 }

  lemma Widens(m: bv32, a: bv32, b: bv32)
    requires Leading(m) && Differ(a, b, m)
    ensures Widen(m) < m && Leading(Widen(m)) && Within(Widen(m), m)
  {}

  lemma BothLeading(m: bv32, n: bv32)
    requires Leading(m) && Leading(n)
    ensures Leading(Mask(m, n)) && Within(Mask(m, n), m) && Within(Mask(m, n), n)
  {}

  lemma SizeMask(size: bv32)
    requires PowerOfTwo(size) && size >= TARGET_PAGE_SIZE
    ensures Leading(LargeMask(size))
  {}

  /** Equality under a mask is kept by a mask within it. */
  lemma Narrower(a: bv32, b: bv32, m: bv32, n: bv32)
    requires Mask(a, m) == b && Within(n, m)
    ensures Mask(a, n) == Mask(b, n)
  {
    assert (a & m) & n == a & (m & n);
  }

  lemma WithinTrans(k: bv32, m: bv32, n: bv32)
    requires Within(k, m) && Within(m, n)
    ensures Within(k, n)
  {}

  lemma SameUnder(a: bv32, b: bv32, m: bv32)
    requires !Differ(a, b, m)
    ensures Mask(a, m) == Mask(b, m)
  {}

  lemma MaskTwice(a: bv32, m: bv32)
    ensures Mask(Mask(a, m), m) == Mask(a, m)
  {}

  lemma MaskedIsNotNone(a: bv32, m: bv32)
    requires Leading(m) && Mask(a, m) == a
    ensures a != NONE
  {}

  // ----- the flush area -----

  /** A large page, by an address in it and its size. */
  datatype Large = Large(vaddr: bv32, size: bv32)

  predicate InLarge(l: Large, a: bv32) { Mask(a, LargeMask(l.size)) == Mask(l.vaddr, LargeMask(l.size)) }

  /** Every address of every large page entered falls into the area. */
  ghost predicate AreaOk(addr: bv32, mask: bv32, large: set<Large>) {
    && (forall l, a :: l in large && InLarge(l, a) ==> Mask(a, mask) == addr)
    && if large == {} then addr == NONE && mask == 0 else Leading(mask) && Mask(addr, mask) == addr
  }

  lemma AreaNone(addr: bv32, mask: bv32, large: set<Large>)
    requires AreaOk(addr, mask, large)
    ensures addr == NONE <==> large == {}
    ensures large != {} ==> Leading(mask)
  {
    hide Leading, Mask, InLarge;
    if large != {} { MaskedIsNotNone(addr, mask); }
  }

  lemma FirstLarge(l: Large)
    requires PowerOfTwo(l.size) && l.size >= TARGET_PAGE_SIZE
    ensures AreaOk(Mask(l.vaddr, LargeMask(l.size)), LargeMask(l.size), {l})
  {
    hide Mask, LargeMask, Leading;
    SizeMask(l.size);
    MaskTwice(l.vaddr, LargeMask(l.size));
  }

  lemma InBoth(addr: bv32, l: Large, m: bv32, a: bv32)
    requires InLarge(l, a) && Within(m, LargeMask(l.size)) && !Differ(addr, l.vaddr, m)
    ensures Mask(a, m) == Mask(addr, m)
  {
    hide Mask, LargeMask, Within, Differ;
    Narrower(a, Mask(l.vaddr, LargeMask(l.size)), LargeMask(l.size), m);
    Narrower(l.vaddr, Mask(l.vaddr, LargeMask(l.size)), LargeMask(l.size), m);
    SameUnder(addr, l.vaddr, m);
  }

  lemma NextLarge(addr: bv32, mask: bv32, large: set<Large>, l: Large, m: bv32)
    requires AreaOk(addr, mask, large) && large != {}
    requires Leading(m) && Within(m, mask) && Within(m, LargeMask(l.size)) && !Differ(addr, l.vaddr, m)
    ensures AreaOk(Mask(addr, m), m, large + {l})
  {
    hide Mask, InLarge, LargeMask, Leading, Within, Differ;
    forall x, a | x in large + {l} && InLarge(x, a) ensures Mask(a, m) == Mask(addr, m) {
      if x in large { Narrower(a, addr, mask, m); } else { InBoth(addr, l, m, a); }
    }
    MaskTwice(addr, m);
  }

  /** `a` lies on the page of `addr` or on a large page together with it. */
  ghost predicate Together(large: set<Large>, addr: bv32, a: bv32) {
    PageOf(a) == PageOf(addr) || exists l :: l in large && InLarge(l, addr) && InLarge(l, a)
  }

  /** An address outside the area lies on no large page. */
  lemma OutsideArea(addr: bv32, mask: bv32, large: set<Large>, x: bv32, a: bv32)
    requires AreaOk(addr, mask, large) && Mask(x, mask) != addr && Together(large, x, a)
    ensures PageOf(a) == PageOf(x)
  {
    hide Mask, InLarge, PageOf, Leading;
  }

  // ----- entries -----

  datatype Entry = Entry(read: bv32, write: bv32, code: bv32)

  const EMPTY := Entry(NONE, NONE, NONE)

  function Index(a: bv32): (i: nat)
    ensures i < CPU_TLB_SIZE
  {
    ((a >> 10) & 0xff) as int
  }

  /** How the memory access functions compare a field of an entry with a page. */
  predicate Matches(x: bv32, page: bv32) { x & (TARGET_PAGE_MASK | TLB_INVALID_MASK) == page }

  /** Some access to address `a` finds entry `e`. */
  predicate Hits(e: Entry, a: bv32) {
    Matches(e.read, PageOf(a)) || Matches(e.write, PageOf(a)) || Matches(e.code, PageOf(a))
  }

  predicate Invalid(x: bv32) { x & TLB_INVALID_MASK != 0 }

  /** A field of an entry at index `i` is invalid or belongs to a page of that index. */
  predicate FieldOk(x: bv32, i: nat) { Invalid(x) || Index(x) == i }

  predicate EntryOk(e: Entry, i: nat) { FieldOk(e.read, i) && FieldOk(e.write, i) && FieldOk(e.code, i) }

  lemma NoneMatchesNot(a: bv32)
    ensures !Matches(NONE, PageOf(a)) && Invalid(NONE)
  {}

  lemma EmptyOk(i: nat)
    ensures EntryOk(EMPTY, i) && forall a :: !Hits(EMPTY, a)
  {
    hide Index, Matches, PageOf, Invalid;
    NoneMatchesNot(0);
    forall a ensures !Matches(NONE, PageOf(a)) { NoneMatchesNot(a); }
  }

  lemma IndexSame(a: bv32, b: bv32)
    requires (a >> 10) & 0xff == (b >> 10) & 0xff
    ensures Index(a) == Index(b)
  {}

  lemma MatchBits(x: bv32, a: bv32)
    requires Matches(x, PageOf(a))
    ensures !Invalid(x) && (x >> 10) & 0xff == (a >> 10) & 0xff
  {}

  lemma FieldIndex(x: bv32, i: nat, a: bv32)
    requires FieldOk(x, i) && Matches(x, PageOf(a))
    ensures i == Index(a)
  {
    hide Index, Matches, PageOf, Invalid;
    MatchBits(x, a);
    IndexSame(x, a);
  }

  /** An entry can only hit addresses that are looked up at its index. */
  lemma HitIndex(e: Entry, i: nat, a: bv32)
    requires EntryOk(e, i) && Hits(e, a)
    ensures i == Index(a)
  {
    hide FieldOk, Matches, Index, PageOf;
    if Matches(e.read, PageOf(a)) { FieldIndex(e.read, i, a); }
    if Matches(e.write, PageOf(a)) { FieldIndex(e.write, i, a); }
    if Matches(e.code, PageOf(a)) { FieldIndex(e.code, i, a); }
  }

  predicate OnPage(vaddr: bv32) { vaddr & !TARGET_PAGE_MASK == 0 }

  predicate FlagsOnly(flags: bv32) { flags & !(TLB_NOTDIRTY | TLB_MMIO) == 0 }

  function Flagged(vaddr: bv32, flags: bv32): bv32 { vaddr | flags }

  lemma FlaggedBits(vaddr: bv32, flags: bv32)
    requires OnPage(vaddr) && FlagsOnly(flags)
    ensures (Flagged(vaddr, flags) >> 10) & 0xff == (vaddr >> 10) & 0xff && Matches(Flagged(vaddr, flags), PageOf(vaddr))
  {}

  lemma FlaggedOk(vaddr: bv32, flags: bv32)
    requires OnPage(vaddr) && FlagsOnly(flags)
    ensures FieldOk(Flagged(vaddr, flags), Index(vaddr)) && Matches(Flagged(vaddr, flags), PageOf(vaddr))
  {
    hide Index, Matches, Invalid, PageOf, Flagged;
    FlaggedBits(vaddr, flags);
    IndexSame(Flagged(vaddr, flags), vaddr);
  }

  lemma PageIndex(a: bv32)
    ensures Index(PageOf(a)) == Index(a) && PageOf(PageOf(a)) == PageOf(a)
  {
    PageBits(a);
    hide Index, PageOf;
    IndexSame(PageOf(a), a);
  }

  lemma PageBits(a: bv32)
    ensures (PageOf(a) >> 10) & 0xff == (a >> 10) & 0xff && PageOf(PageOf(a)) == PageOf(a)
  {}

  // ----- the TLB of one CPU -----

  class CpuTlb {
    const table: array2<Entry>
    var flushAddr: bv32
    var flushMask: bv32
    ghost var large: set<Large>      // large pages entered since the last full flush

    ghost predicate TableOk()
      reads table
    {
      && table.Length0 == NB_MMU_MODES && table.Length1 == CPU_TLB_SIZE
      && forall m, i :: 0 <= m < NB_MMU_MODES && 0 <= i < CPU_TLB_SIZE ==> EntryOk(table[m, i], i)
    }

    ghost predicate Valid()
      reads this, table
    {
      TableOk() && AreaOk(flushAddr, flushMask, large)
    }

    constructor ()
      ensures Valid() && large == {} && fresh(table)
    {
      table := new Entry[NB_MMU_MODES, CPU_TLB_SIZE]((_, _) => EMPTY);
      flushAddr, flushMask, large := NONE, 0, {};
      new;
      forall i | 0 <= i < CPU_TLB_SIZE ensures EntryOk(EMPTY, i) { EmptyOk(i); }
    }

    /** tlb_flush */
    method Flush()
      requires Valid()
      modifies this, table
      ensures Valid() && large == {} && forall m, i :: 0 <= m < NB_MMU_MODES && 0 <= i < CPU_TLB_SIZE ==> table[m, i] == EMPTY
    {
      forall m, i | 0 <= m < NB_MMU_MODES && 0 <= i < CPU_TLB_SIZE {
        table[m, i] := EMPTY;
      }
      flushAddr, flushMask, large := NONE, 0, {};
      forall i | 0 <= i < CPU_TLB_SIZE ensures EntryOk(EMPTY, i) { EmptyOk(i); }
    }

    /** tlb_add_large_page: the area grows until it holds the old one and the new page. */
    method AddLargePage(vaddr: bv32, size: bv32)
      requires Valid() && PowerOfTwo(size) && size >= TARGET_PAGE_SIZE
      modifies `flushAddr, `flushMask, `large
      ensures Valid() && large == old(large) + {Large(vaddr, size)}
    {
      hide Leading, AreaOk, LargeMask, Mask, Within, Differ, Widen, TableOk, PowerOfTwo;
      ghost var l := Large(vaddr, size);
      SizeMask(size);
      AreaNone(flushAddr, flushMask, large);
      var mask := LargeMask(size);
      if flushAddr == NONE {
        FirstLarge(l);
        assert large + {l} == {l};
        flushAddr, flushMask, large := Mask(vaddr, mask), mask, large + {l};
        return;
      }
      BothLeading(mask, flushMask);
      mask := Mask(mask, flushMask);
      while Differ(flushAddr, vaddr, mask)
        invariant flushAddr == old(flushAddr) && flushMask == old(flushMask) && large == old(large)
        invariant Leading(mask) && Within(mask, flushMask) && Within(mask, LargeMask(size))
        decreases mask
      {
        Widens(mask, flushAddr, vaddr);
        WithinTrans(Widen(mask), mask, flushMask);
        WithinTrans(Widen(mask), mask, LargeMask(size));
        mask := Widen(mask);
      }
      NextLarge(flushAddr, flushMask, large, l, mask);
      flushAddr, flushMask, large := Mask(flushAddr, mask), mask, large + {l};
    }

    /** tlb_set_page: enters the page at its index and remembers it if it is large. */
    method SetPage(vaddr: bv32, flags: bv32, writeFlags: bv32, readable: bool, writable: bool, executable: bool,
                   mode: nat, size: bv32)
      requires Valid() && mode < NB_MMU_MODES && PowerOfTwo(size) && size >= TARGET_PAGE_SIZE
      requires OnPage(vaddr) && FlagsOnly(flags) && FlagsOnly(writeFlags)
      modifies this, table
      ensures Valid()
      ensures large == if size == TARGET_PAGE_SIZE then old(large) else old(large) + {Large(vaddr, size)}
      ensures var e := table[mode, Index(vaddr)];
        && (if readable then Matches(e.read, PageOf(vaddr)) else e.read == NONE)
        && (if writable then Matches(e.write, PageOf(vaddr)) else e.write == NONE)
        && (if executable then Matches(e.code, PageOf(vaddr)) else e.code == NONE)
      ensures forall m, i :: 0 <= m < NB_MMU_MODES && 0 <= i < CPU_TLB_SIZE && (m != mode || i != Index(vaddr)) ==>
        table[m, i] == old(table[m, i])
    {
      hide AreaOk, Index, Invalid, Matches, PageOf, Flagged, PowerOfTwo, OnPage, FlagsOnly;
      if size != TARGET_PAGE_SIZE {
        AddLargePage(vaddr, size);
      }
      FlaggedOk(vaddr, flags);
      FlaggedOk(vaddr, writeFlags);
      NoneMatchesNot(0);
      var index := Index(vaddr);
      var e := Entry(if readable then Flagged(vaddr, flags) else NONE, if writable then Flagged(vaddr, writeFlags) else NONE,
                     if executable then Flagged(vaddr, flags) else NONE);
      assert EntryOk(e, index);
      table[mode, index] := e;
    }

    /** tlb_flush_page: afterwards no entry hits the page of `addr`, nor any page of a large
        page that contains `addr`. */
    method FlushPage(addr: bv32)
      requires Valid()
      modifies this, table
      ensures Valid()
      ensures forall m, i, a :: 0 <= m < NB_MMU_MODES && 0 <= i < CPU_TLB_SIZE && Together(old(large), addr, a) ==>
        !Hits(table[m, i], a)
      ensures Mask(addr, old(flushMask)) != old(flushAddr) ==>
        && flushAddr == old(flushAddr) && flushMask == old(flushMask) && large == old(large)
        && forall m, i :: 0 <= m < NB_MMU_MODES && 0 <= i < CPU_TLB_SIZE ==> FlushedOnly(old(table[m, i]), table[m, i], addr)
    {
      hide AreaOk, Hits, EntryOk, Index, Mask, PageOf, Together;
      EmptyOk(0);
      if Mask(addr, flushMask) == flushAddr {
        Flush();
        return;
      }
      var page := PageOf(addr);
      var i := Index(page);
      PageIndex(addr);
      EmptyOk(i);
      var m := 0;
      while m < NB_MMU_MODES
        invariant 0 <= m <= NB_MMU_MODES && Valid() && large == old(large)
        invariant flushAddr == old(flushAddr) && flushMask == old(flushMask)
        invariant forall k :: 0 <= k < m ==> !Hits(table[k, i], page)
        invariant forall k, j :: 0 <= k < NB_MMU_MODES && 0 <= j < CPU_TLB_SIZE ==> FlushedOnly(old(table[k, j]), table[k, j], addr)
        invariant forall k :: m <= k < NB_MMU_MODES ==> table[k, i] == old(table[k, i])
      {
        HitsSame(table[m, i], page, addr);
        if Hits(table[m, i], page) {
          table[m, i] := EMPTY;
        }
        m := m + 1;
      }
      forall m, j, a | 0 <= m < NB_MMU_MODES && 0 <= j < CPU_TLB_SIZE && Together(old(large), addr, a) ensures !Hits(table[m, j], a) {
        OutsideArea(old(flushAddr), old(flushMask), old(large), addr, a);
        HitsSame(table[m, j], page, a);
        if Hits(table[m, j], page) { HitIndex(table[m, j], j, page); }
      }
    }
  }

  /** An entry is as before, or it hit `addr` and is empty now. */
  predicate FlushedOnly(e: Entry, e': Entry, addr: bv32) { e' == e || (Hits(e, addr) && e' == EMPTY) }

  lemma HitsSame(e: Entry, a: bv32, b: bv32)
    requires PageOf(a) == PageOf(b)
    ensures Hits(e, a) == Hits(e, b)
  {
    hide PageOf, Matches;
  }
}
