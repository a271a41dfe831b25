/**
 Building and using one dispatch in place (exec.c): mem_begin, mem_add for each
 section of the flat view, mem_commit, and lookups afterwards.
 */
module AddressSpace {
  import opened Basics
  import opened PhysPageMap
  import opened PhysPageTree
  import opened PhysDispatch

  /** How many nodes one phys_page_set may allocate. */
  const SET_NODES: nat := 2 * P_L2_LEVELS - 1

  /** The search that the dispatch must agree with: the first section with the address. */
  function Linear(s: seq<Section>, a: nat): Option<(Region, int)> {
    if s == [] then None
    else if Covers(s[0], a) then Through(s[0], a)
    else Linear(s[1..], a)
  }

  /** What an address means through a section that has it. */
  function Through(sec: Section, a: nat): Option<(Region, int)> {
    Some((sec.region, a - sec.offset + sec.inRegion))
  }

  predicate Addable(sec: Section) {
    sec.region.Memory? && sec.size > 0 && sec.offset + sec.size <= TARGET_PAGE_SIZE * ALL_PAGES
  }

  predicate Disjoint(s: Section, t: Section) {
    s.offset + s.size <= t.offset || t.offset + t.size <= s.offset
  }

  /** The addresses of `sec` up to `end` mean `sec`; all others mean what they did in `d`. */
  ghost predicate Added(d: Dispatch, d': Dispatch, sec: Section, end: nat) {
    forall a: nat :: a < TARGET_PAGE_SIZE * ALL_PAGES ==>
      Meaning(d', a) == if sec.offset <= a < end then Through(sec, a) else Meaning(d, a)
  }

  ghost predicate Free(d: Dispatch, lo: nat, hi: nat) {
    forall a: nat :: lo <= a < hi ==> Meaning(d, a) == None
  }

  class AddressSpaceDispatch {
    const tree: NodeArray
    var physMap: Entry
    var sections: seq<Section>
    var tables: seq<seq<nat>>
    ghost var mapped: set<nat>

    ghost function Value(): Dispatch
      reads this, tree
    {
      Dispatch(tree.nodes, tree.home, physMap, sections, tables, mapped)
    }

    /** Section numbers are left or just used up, and no section has cost too many nodes. */
    ghost predicate Room()
      reads this, tree
    {
      |sections| <= TARGET_PAGE_SIZE && |tree.nodes| <= SET_NODES * |sections|
    }

    /** mem_begin */
    constructor ()
      ensures Inv(Value(), PHYS_SECTION_UNASSIGNED) && fresh(tree) && Room()
      ensures |sections| == FIXED_SECTIONS
      ensures forall a: nat :: Meaning(Value(), a) == None
      ensures Subpages(Value()) == {}
    {
      var all := TARGET_PAGE_SIZE * ALL_PAGES;
      tree := new NodeArray();
      sections := [Section(Unassigned, 0, 0, all), Section(NotDirty, 0, 0, all),
                   Section(Rom, 0, 0, all), Section(Watch, 0, 0, all)];
      physMap := NIL_ENTRY;
      tables := [];
      mapped := {};
    }

    /** phys_section_add */
    method SectionAdd(sec: Section) returns (n: nat)
      requires |sections| < TARGET_PAGE_SIZE
      modifies `sections
      ensures n == old(|sections|) && sections == old(sections) + [sec]
    {
      n := |sections|;
      sections := sections + [sec];
    }

    /** Adds a section of whole pages and maps its pages to it. */
    method MapSection(sec: Section)
      requires Inv(Value(), PHYS_SECTION_UNASSIGNED) && WholePages(sec)
      requires AllAre(tree.nodes, physMap, P_L2_LEVELS, FirstPage(sec), EndPage(sec), PHYS_SECTION_UNASSIGNED)
      requires |sections| < TARGET_PAGE_SIZE && |tree.nodes| + SET_NODES <= PHYS_MAP_NODE_NIL
      modifies `physMap, `sections, `mapped, tree
      ensures PagesMapped(old(Value()), Value(), sec)
      ensures |sections| == old(|sections|) + 1 && |tree.nodes| <= old(|tree.nodes|) + SET_NODES
    {
      hide Span, Walk;
      var n := SectionAdd(sec);
      ghost var k := mapped + {n};
      ShapeGrows(tree.nodes, tree.home, mapped, k);
      RangeUncut(tree.nodes, tree.home, k, physMap, FirstPage(sec), EndPage(sec));
      physMap := tree.Set(physMap, FirstPage(sec), EndPage(sec) - FirstPage(sec), n, k);
      mapped := k;
    }

    /** register_multipage; not `ok` where phys_section_add finds all numbers taken and aborts. */
    method RegisterMultipage(sec: Section) returns (ok: bool)
      requires Inv(Value(), PHYS_SECTION_UNASSIGNED) && WholePages(sec) && sec.region.Memory? && Room()
      requires Free(Value(), sec.offset, sec.offset + sec.size)
      modifies this, tree
      ensures ok == (old(|sections|) < TARGET_PAGE_SIZE)
      ensures ok ==> Inv(Value(), PHYS_SECTION_UNASSIGNED) && Added(old(Value()), Value(), sec, sec.offset + sec.size)
      ensures ok ==> |sections| == old(|sections|) + 1 && Room() && Divided(old(Value()), Value(), {})
    {
      hide Span, Walk, Inv, PagesMapped, Meaning, Divided;
      ok := |sections| < TARGET_PAGE_SIZE;
      if !ok { return; }
      ghost var d := Value();
      forall x: nat | FirstPage(sec) <= x < EndPage(sec)
        ensures Walk(tree.nodes, physMap, P_L2_LEVELS, x) == PHYS_SECTION_UNASSIGNED
      {
        PageFree(d, x);
      }
      MapSection(sec);
      MultipageKeepsInv(d, Value(), sec);
      MultipageDivides(d, Value(), sec);
      forall a: nat | a < TARGET_PAGE_SIZE * ALL_PAGES
        ensures Meaning(Value(), a) == if Covers(sec, a) then Through(sec, a) else Meaning(d, a)
      {
        MultipageMeaning(d, Value(), sec, a);
      }
    }

    /** phys_page_find: the walk down the tree and the range check. */
    method PageFind(a: nat) returns (s: nat)
      requires ShapeIn(tree.nodes, tree.home, mapped) && EntryIn(tree.home, physMap, P_L2_LEVELS, 0, mapped)
      requires Fixed(sections) && forall s <- mapped :: s < |sections|
      ensures s == FindSection(Value(), a) && s < |sections|
    {
      hide Span, Walk;
      s := tree.Find(physMap, a / TARGET_PAGE_SIZE, mapped);
      WalkLeaf(tree.nodes, tree.home, mapped, physMap, P_L2_LEVELS, 0, a / TARGET_PAGE_SIZE);
      if !(sections[s].offset <= a < sections[s].offset + sections[s].size) {
        s := PHYS_SECTION_UNASSIGNED;
      }
    }

    /** Creates an empty subpage for an unassigned page. */
    method MakeSubpage(base: nat)
      requires Inv(Value(), PHYS_SECTION_UNASSIGNED) && WholePages(SubpageSection(Value(), base))
      requires PageSection(Value(), base / TARGET_PAGE_SIZE) == PHYS_SECTION_UNASSIGNED
      requires |sections| < TARGET_PAGE_SIZE && |tree.nodes| + SET_NODES <= PHYS_MAP_NODE_NIL
      modifies this, tree
      ensures SubpageMade(old(Value()), Value(), base) && Inv(Value(), old(|sections|))
      ensures Added(old(Value()), Value(), SubpageSection(old(Value()), base), 0)
      ensures |sections| == old(|sections|) + 1 && |tree.nodes| <= old(|tree.nodes|) + SET_NODES
      ensures Divided(old(Value()), Value(), {base / TARGET_PAGE_SIZE})
    {
      hide Span, Walk, Inv, Meaning, Divided;
      ghost var d := Value();
      var sec := Section(Subpage(|tables|), base, 0, TARGET_PAGE_SIZE);
      assert EndPage(sec) == FirstPage(sec) + 1;
      MapSection(sec);
      tables := tables + [EmptyTable()];
      assert PagesMapped(d, Value(), sec);
      SubpageKeepsInv(d, Value(), base);
      SubpageDivides(d, Value(), base);
      forall a: nat | a < TARGET_PAGE_SIZE * ALL_PAGES ensures Meaning(Value(), a) == Meaning(d, a) {
        SubpageMeaning(d, Value(), base, a);
      }
    }

    /** Adds section `sec` and enters it in the table of subpage section `s`. */
    method FillSubpage(s: nat, sec: Section, ghost newest: nat)
      requires Inv(Value(), newest) && (newest == PHYS_SECTION_UNASSIGNED || newest == s)
      requires s in mapped && s < |sections| && sections[s].region.Subpage? && sections[s].region.table < |tables|
      requires sec.region.Memory? && sec.size > 0 && |sections| < TARGET_PAGE_SIZE
      requires sections[s].offset <= sec.offset && sec.offset + sec.size <= sections[s].offset + TARGET_PAGE_SIZE
      modifies `sections, `tables
      ensures Inv(Value(), PHYS_SECTION_UNASSIGNED) && Added(old(Value()), Value(), sec, sec.offset + sec.size)
      ensures |sections| == old(|sections|) + 1 && Divided(old(Value()), Value(), {})
    {
      hide Span, Walk, Inv, Meaning, Divided;
      ghost var d := Value();
      var t, start := sections[s].region.table, sec.offset - sections[s].offset;
      var n := SectionAdd(sec);
      tables := tables[t := Registered(tables[t], start, start + sec.size - 1, n)];
      assert TableFilled(d, Value(), s, sec);
      FillKeepsInv(d, Value(), newest, s, sec);
      FillDivides(d, Value(), newest, s, sec);
      forall a: nat | a < TARGET_PAGE_SIZE * ALL_PAGES
        ensures Meaning(Value(), a) == if Covers(sec, a) then Through(sec, a) else Meaning(d, a)
      {
        FillMeaning(d, Value(), newest, s, sec, a);
      }
    }

    /** register_subpage, for a section that lies within one page; not `ok` where
        phys_section_add aborts, for the subpage or for the section. */
    method RegisterSubpage(sec: Section) returns (ok: bool)
      requires Inv(Value(), PHYS_SECTION_UNASSIGNED) && Addable(sec)
      requires sec.offset % TARGET_PAGE_SIZE + sec.size <= TARGET_PAGE_SIZE
      requires Free(Value(), sec.offset, sec.offset + sec.size) && Room()
      modifies this, tree
      ensures ok ==> Inv(Value(), PHYS_SECTION_UNASSIGNED) && Added(old(Value()), Value(), sec, sec.offset + sec.size)
      ensures ok ==> |sections| == old(|sections|) + old(PartNumbers(Subpages(Value()), sec.offset)) && Room()
      ensures ok ==> Divided(old(Value()), Value(), {sec.offset / TARGET_PAGE_SIZE})
      ensures ok <==> old(|sections|) + old(PartNumbers(Subpages(Value()), sec.offset)) <= TARGET_PAGE_SIZE
    {
      hide Span, Walk, Divided, Subpages, Inv, Meaning, FindSection, PageSection, Shape;
      ghost var d := Value();
      var base := sec.offset - sec.offset % TARGET_PAGE_SIZE;
      Searchable(d);
      var existing := PageFind(base);
      ExistingSubpage(d, sec);
      ExistingDivided(d, sec);
      BaseIs(sec);
      ok := |sections| + (if sections[existing].region.Subpage? then 1 else 2) <= TARGET_PAGE_SIZE;
      if !ok { return; }
      if !sections[existing].region.Subpage? {
        ghost var n := |sections|;
        MakeSubpage(base);
        ghost var d1 := Value();
        FillSubpage(|sections| - 1, sec, n);
        DividedThen(d, d1, Value(), {base / TARGET_PAGE_SIZE}, {});
        assert {base / TARGET_PAGE_SIZE} + {} == {sec.offset / TARGET_PAGE_SIZE};
      } else {
        FillSubpage(existing, sec, PHYS_SECTION_UNASSIGNED);
        DividedAlready(d, Value(), base / TARGET_PAGE_SIZE);
      }
    }

    /** The body of the loop in mem_add: enters the whole pages of what remains, or its
        last bytes, and returns what it entered. */
    method AddPiece(remain: Section) returns (ok: bool, now: Section)
      requires Inv(Value(), PHYS_SECTION_UNASSIGNED) && Addable(remain) && PageAligned(remain.offset) && Room()
      requires Free(Value(), remain.offset, remain.offset + remain.size)
      modifies this, tree
      ensures now == remain.(size := now.size) && now.size == PieceSize(remain)
      ensures ok ==> Inv(Value(), PHYS_SECTION_UNASSIGNED) && Added(old(Value()), Value(), now, now.offset + now.size) && Room()
      ensures ok ==> |sections| == old(|sections|) + old(PieceNumbers(Subpages(Value()), remain))
      ensures ok ==> Divided(old(Value()), Value(), PieceParts(remain))
      ensures ok <==> old(|sections|) + old(PieceNumbers(Subpages(Value()), remain)) <= TARGET_PAGE_SIZE
    {
      hide Span, Walk, Inv, Meaning, WholePages, Divided, PartNumbers;
      now := remain;
      if remain.size < TARGET_PAGE_SIZE {
        ok := RegisterSubpage(now);
      } else {
        now := WholePart(remain);
        WholePartIs(remain);
        hide WholePart;
        ok := RegisterMultipage(now);
      }
    }

    /** mem_add: a section is entered as the rest of its first page, its whole pages and
        its last bytes; not `ok` where phys_section_add aborts, exactly if the numbers that
        these pieces take do not suffice.  The source's branch for an unaligned rest of a
        page or more cannot be reached. */
    method MemAdd(section: Section) returns (ok: bool)
      requires Inv(Value(), PHYS_SECTION_UNASSIGNED) && Addable(section) && Room()
      requires Free(Value(), section.offset, section.offset + section.size)
      modifies this, tree
      ensures ok ==> Inv(Value(), PHYS_SECTION_UNASSIGNED) && Room()
      ensures ok ==> Added(old(Value()), Value(), section, section.offset + section.size)
      ensures ok ==> |sections| == old(|sections|) + old(Numbers(Subpages(Value()), section)) && Divided(old(Value()), Value(), Parts(section))
      ensures ok <==> old(|sections|) + old(Numbers(Subpages(Value()), section)) <= TARGET_PAGE_SIZE
    {
      hide Span, Walk, Inv, Meaning, Divided, Subpages, PartNumbers, Numbers, Pieces;
      ghost var d := Value();
      ghost var parts := FirstParts(section);
      PiecesStart(section, Subpages(d), |d.sections|);
      var now, remain := section, section;
      ok := true;
      if now.offset % TARGET_PAGE_SIZE != 0 {
        var left := TARGET_PAGE_SIZE - now.offset % TARGET_PAGE_SIZE;
        now := now.(size := Min(left, now.size));
        ok := RegisterSubpage(now);
        if !ok { return; }
      } else {
        now := now.(size := 0);
        DividedSame(d);
      }
      while remain.size != now.size
        invariant Inv(Value(), PHYS_SECTION_UNASSIGNED) && Room()
        invariant now.size <= remain.size && remain.region == section.region
        invariant remain.offset - section.offset == remain.inRegion - section.inRegion >= 0
        invariant remain.offset + remain.size == section.offset + section.size
        invariant now.size < remain.size ==> PageAligned(remain.offset + now.size)
        invariant Added(d, Value(), section, remain.offset + now.size)
        invariant Pieces(section, Subpages(d), |d.sections|, remain.size - now.size, |sections|, parts) && Divided(d, Value(), parts)
        decreases remain.size - now.size
      {
        ghost var d1 := Value();
        remain := remain.(size := remain.size - now.size, offset := remain.offset + now.size,
                          inRegion := remain.inRegion + now.size);
        DividedIs(d, d1, parts);
        NextPiece(section, Subpages(d), |d.sections|, remain, |sections|, parts);
        ok, now := AddPiece(remain);
        if !ok { return; }
        AddedNext(d, d1, Value(), section, now);
        DividedThen(d, d1, Value(), parts, PieceParts(remain));
        parts := parts + PieceParts(remain);
      }
      PiecesDone(section, Subpages(d), |d.sections|, |sections|, parts);
      ok := true;
    }

    /** mem_commit: compacts the tree; no lookup changes. */
    method MemCommit()
      requires Inv(Value(), PHYS_SECTION_UNASSIGNED)
      modifies this, tree
      ensures Usable(Value()) && Compacted(old(Value()), Value())
      ensures forall a: nat :: a < TARGET_PAGE_SIZE * ALL_PAGES ==> Meaning(Value(), a) == Meaning(old(Value()), a)
    {
      hide Span, Walk;
      ghost var d := Value();
      TreeIn(d);
      assert Aligned(0, P_L2_LEVELS);
      physMap := tree.Compact(physMap, P_L2_LEVELS, 0, mapped);
      CompactedUsable(d, Value());
      forall a: nat | a < TARGET_PAGE_SIZE * ALL_PAGES ensures Meaning(Value(), a) == Meaning(d, a) {
        CompactionKeepsLookups(d, Value(), a);
      }
    }

    /** address_space_lookup_region with subpages resolved, and the offset in the region. */
    method Translate(a: nat) returns (r: Option<(Region, int)>)
      requires Usable(Value())
      ensures r == Meaning(Value(), a)
    {
      hide Span, Walk;
      var s := PageFind(a);
      if sections[s].region.Subpage? {
        WalkLeaf(tree.nodes, tree.home, mapped, physMap, P_L2_LEVELS, 0, a / TARGET_PAGE_SIZE);
        s := tables[sections[s].region.table][a % TARGET_PAGE_SIZE];
      }
      r := if s == PHYS_SECTION_UNASSIGNED || s >= |sections| then None
           else Some((sections[s].region, a - sections[s].offset + sections[s].inRegion));
    }
  }

  /** The assertion in register_subpage: the page of an unassigned address is unassigned
      or already has a subpage. */
  lemma ExistingSubpage(d: Dispatch, sec: Section)
    requires Inv(d, PHYS_SECTION_UNASSIGNED) && Addable(sec) && Meaning(d, sec.offset) == None
    ensures var base := sec.offset - sec.offset % TARGET_PAGE_SIZE;
      var s := FindSection(d, base);
      && s < |d.sections| && s == PageSection(d, base / TARGET_PAGE_SIZE)
      && (s == PHYS_SECTION_UNASSIGNED || (s in d.mapped && d.sections[s].region.Subpage? && d.sections[s].offset == base))
  {
    hide Span, Walk, Shape, OwnTables, LookupSection, PageSection;
    var base := sec.offset - sec.offset % TARGET_PAGE_SIZE;
    var x := base / TARGET_PAGE_SIZE;
    MeaningIs(d, PHYS_SECTION_UNASSIGNED, base);
    MeaningIs(d, PHYS_SECTION_UNASSIGNED, sec.offset);
    assert sec.offset / TARGET_PAGE_SIZE == x;
    var s := PageSection(d, x);
    if s != PHYS_SECTION_UNASSIGNED {
      assert SectionOk(d, s, PHYS_SECTION_UNASSIGNED);
    }
  }

  /** That page is divided exactly if it has a subpage, and then the subpage has a table. */
  lemma ExistingDivided(d: Dispatch, sec: Section)
    requires Inv(d, PHYS_SECTION_UNASSIGNED) && Addable(sec) && Meaning(d, sec.offset) == None
    ensures var base := sec.offset - sec.offset % TARGET_PAGE_SIZE;
      var s := FindSection(d, base);
      && s < |d.sections|
      && (d.sections[s].region.Subpage? <==> sec.offset / TARGET_PAGE_SIZE in Subpages(d))
      && (d.sections[s].region.Subpage? ==> d.sections[s].region.table < |d.tables|)
      && (!d.sections[s].region.Subpage? ==> s == PHYS_SECTION_UNASSIGNED)
  {
    ExistingSubpage(d, sec);
    PageBelow(sec);
    BaseIs(sec);
    hide Span, Walk, Shape, OwnTables, FindSection, PageSection, Meaning;
    var s := FindSection(d, sec.offset - sec.offset % TARGET_PAGE_SIZE);
    if s in d.mapped { assert SectionOk(d, s, PHYS_SECTION_UNASSIGNED); }
  }

  lemma BaseIs(sec: Section)
    requires Addable(sec)
    ensures var base := sec.offset - sec.offset % TARGET_PAGE_SIZE;
      && base / TARGET_PAGE_SIZE == sec.offset / TARGET_PAGE_SIZE && base % TARGET_PAGE_SIZE == 0
      && base + TARGET_PAGE_SIZE <= TARGET_PAGE_SIZE * ALL_PAGES
  {}

  lemma Searchable(d: Dispatch)
    requires Inv(d, PHYS_SECTION_UNASSIGNED)
    ensures ShapeIn(d.nodes, d.home, d.mapped) && EntryIn(d.home, d.root, P_L2_LEVELS, 0, d.mapped)
    ensures Fixed(d.sections) && forall s <- d.mapped :: s < |d.sections|
  {
    hide Span, Walk, Shape;
    TreeIn(d);
    assert forall s <- d.mapped :: SectionOk(d, s, PHYS_SECTION_UNASSIGNED);
  }

  predicate PageAligned(n: nat) { n % TARGET_PAGE_SIZE == 0 }

  /** The whole pages of a section. */
  function WholePart(sec: Section): Section {
    sec.(size := sec.size - sec.size % TARGET_PAGE_SIZE)
  }

  lemma WholePartIs(sec: Section)
    requires PageAligned(sec.offset) && sec.size >= TARGET_PAGE_SIZE && Addable(sec)
    ensures var w := WholePart(sec);
      && w == sec.(size := w.size) && 0 < w.size <= sec.size < w.size + TARGET_PAGE_SIZE
      && WholePages(w) && PageAligned(sec.offset + w.size)
  {}

  /** Adding the next piece of a section. */
  lemma AddedNext(d: Dispatch, d1: Dispatch, d2: Dispatch, section: Section, piece: Section)
    requires section.offset <= piece.offset && piece.region == section.region
    requires piece.offset - section.offset == piece.inRegion - section.inRegion
    requires Added(d, d1, section, piece.offset) && Added(d1, d2, piece, piece.offset + piece.size)
    ensures Added(d, d2, section, piece.offset + piece.size)
  {
    hide Span, Meaning;
  }

  // ----- section numbers -----

  /** Numbers that a section within one page takes, if the pages `pages` have a subpage: its
      own, and one for a new subpage. */
  function PartNumbers(pages: set<nat>, a: nat): nat { if a / TARGET_PAGE_SIZE in pages then 1 else 2 }

  function PieceSize(remain: Section): nat {
    if remain.size < TARGET_PAGE_SIZE then remain.size else remain.size - remain.size % TARGET_PAGE_SIZE
  }

  function PieceNumbers(pages: set<nat>, remain: Section): nat {
    if remain.size < TARGET_PAGE_SIZE then PartNumbers(pages, remain.offset) else 1
  }

  function PieceParts(remain: Section): set<nat> {
    if remain.size < TARGET_PAGE_SIZE then {remain.offset / TARGET_PAGE_SIZE} else {}
  }

  /** What is left of a section behind the rest of its first page. */
  function Behind(sec: Section): nat {
    if sec.offset % TARGET_PAGE_SIZE == 0 then sec.size
    else sec.size - Min(TARGET_PAGE_SIZE - sec.offset % TARGET_PAGE_SIZE, sec.size)
  }

  function FirstParts(sec: Section): set<nat> {
    if sec.offset % TARGET_PAGE_SIZE == 0 then {} else {sec.offset / TARGET_PAGE_SIZE}
  }

  function LastParts(sec: Section, rest: nat): set<nat> {
    if rest % TARGET_PAGE_SIZE == 0 then {} else {(sec.offset + sec.size) / TARGET_PAGE_SIZE}
  }

  /** The pages of which a section has only a part. */
  function Parts(sec: Section): set<nat> { FirstParts(sec) + LastParts(sec, Behind(sec)) }

  /** Numbers that whole pages and last bytes take. */
  function RestNumbers(pages: set<nat>, sec: Section, rest: nat): nat {
    (if rest >= TARGET_PAGE_SIZE then 1 else 0)
    + if rest % TARGET_PAGE_SIZE == 0 then 0 else PartNumbers(pages, sec.offset + sec.size)
  }

  function FirstNumbers(pages: set<nat>, sec: Section): nat {
    if sec.offset % TARGET_PAGE_SIZE == 0 then 0 else PartNumbers(pages, sec.offset)
  }

  /** Numbers that a section takes. */
  function Numbers(pages: set<nat>, sec: Section): nat {
    FirstNumbers(pages, sec) + RestNumbers(pages, sec, Behind(sec))
  }

  /** Starting with `n0` numbers, with `rest` bytes of the section to come, `n` are used and
      `parts` divided. */
  ghost predicate Pieces(sec: Section, pages: set<nat>, n0: nat, rest: nat, n: nat, parts: set<nat>) {
    && n + RestNumbers(pages, sec, rest) == n0 + Numbers(pages, sec)
    && parts + LastParts(sec, rest) == Parts(sec)
    && (rest > 0 ==> parts == FirstParts(sec))
  }

  lemma PiecesStart(sec: Section, pages: set<nat>, n0: nat)
    ensures Pieces(sec, pages, n0, Behind(sec), n0 + FirstNumbers(pages, sec), FirstParts(sec))
    ensures FirstNumbers(pages, sec) <= Numbers(pages, sec)
  {
    hide PartNumbers, Behind, FirstParts, LastParts;
  }

  /** The next piece takes the numbers and divides the pages that it takes and divides
      regardless of the pieces before. */
  lemma NextPiece(sec: Section, pages: set<nat>, n0: nat, remain: Section, n: nat, parts: set<nat>)
    requires Pieces(sec, pages, n0, remain.size, n, parts) && remain.size > 0
    requires PageAligned(remain.offset) && sec.offset <= remain.offset && remain.offset + remain.size == sec.offset + sec.size
    ensures PieceNumbers(pages + parts, remain) == PieceNumbers(pages, remain)
    ensures n + PieceNumbers(pages, remain) <= n0 + Numbers(pages, sec)
    ensures 0 < PieceSize(remain) <= remain.size
    ensures PageAligned(remain.offset + PieceSize(remain)) || PieceSize(remain) == remain.size
    ensures Pieces(sec, pages, n0, remain.size - PieceSize(remain), n + PieceNumbers(pages, remain), parts + PieceParts(remain))
  {
    PieceArithmetic(sec, remain);
    hide Behind, Numbers, Parts;
  }

  lemma PieceArithmetic(sec: Section, remain: Section)
    requires remain.size > 0
    requires PageAligned(remain.offset) && sec.offset <= remain.offset && remain.offset + remain.size == sec.offset + sec.size
    ensures sec.offset % TARGET_PAGE_SIZE != 0 ==> remain.offset / TARGET_PAGE_SIZE != sec.offset / TARGET_PAGE_SIZE
    ensures remain.size < TARGET_PAGE_SIZE ==>
      remain.size % TARGET_PAGE_SIZE != 0 && (sec.offset + sec.size) / TARGET_PAGE_SIZE == remain.offset / TARGET_PAGE_SIZE
    ensures remain.size >= TARGET_PAGE_SIZE ==>
      && (remain.size - PieceSize(remain)) % TARGET_PAGE_SIZE == remain.size % TARGET_PAGE_SIZE
      && remain.size - PieceSize(remain) < TARGET_PAGE_SIZE && PageAligned(remain.offset + PieceSize(remain))
  {}

  lemma PiecesDone(sec: Section, pages: set<nat>, n0: nat, n: nat, parts: set<nat>)
    requires Pieces(sec, pages, n0, 0, n, parts)
    ensures n == n0 + Numbers(pages, sec) && parts == Parts(sec)
  {
    hide Parts, FirstParts, Numbers, Behind;
  }

  lemma PageBelow(sec: Section)
    requires Addable(sec)
    ensures sec.offset / TARGET_PAGE_SIZE < ALL_PAGES
  {}

  lemma DividedSame(d: Dispatch)
    ensures Divided(d, d, {})
  {}

  lemma DividedThen(d: Dispatch, d1: Dispatch, d2: Dispatch, parts: set<nat>, more: set<nat>)
    requires Divided(d, d1, parts) && Divided(d1, d2, more)
    ensures Divided(d, d2, parts + more)
  {
    hide Subpages;
  }

  lemma DividedIs(d: Dispatch, d': Dispatch, parts: set<nat>)
    requires Divided(d, d', parts)
    ensures Subpages(d') == Subpages(d) + parts
  {}

  lemma DividedAlready(d: Dispatch, d': Dispatch, x: nat)
    requires Divided(d, d', {}) && x in Subpages(d)
    ensures Divided(d, d', {x})
  {
    hide Subpages;
  }

  ghost predicate Layout(s: seq<Section>) {
    && (forall i :: 0 <= i < |s| ==> Addable(s[i]))
    && (forall i, j :: 0 <= i < j < |s| ==> Disjoint(s[i], s[j]))
  }

  lemma {:induction false} LinearNone(s: seq<Section>, sec: Section, a: nat)
    requires Covers(sec, a) && forall i :: 0 <= i < |s| ==> Disjoint(s[i], sec)
    ensures Linear(s, a) == None
  {
    if s != [] {
      assert Disjoint(s[0], sec);
      LinearNone(s[1..], sec, a);
    }
  }

  lemma {:induction false} LinearAppend(s: seq<Section>, sec: Section, a: nat)
    ensures Linear(s + [sec], a) ==
      if Linear(s, a).Some? then Linear(s, a) else if Covers(sec, a) then Through(sec, a) else None
  {
    if s != [] {
      assert (s + [sec])[1..] == s[1..] + [sec];
      LinearAppend(s[1..], sec, a);
    }
  }

  /** The pages of which some section of a list has only a part. */
  function ListParts(s: seq<Section>): set<nat> {
    if s == [] then {} else ListParts(s[..|s| - 1]) + Parts(s[|s| - 1])
  }

  /** Numbers that a list of sections takes. */
  function ListNumbers(s: seq<Section>): nat {
    if s == [] then 0 else ListNumbers(s[..|s| - 1]) + Numbers(ListParts(s[..|s| - 1]), s[|s| - 1])
  }

  lemma ListNone()
    ensures ListParts([]) == {} && ListNumbers([]) == 0
  {}

  lemma ListNext(s: seq<Section>, i: nat)
    requires i < |s|
    ensures ListParts(s[..i + 1]) == ListParts(s[..i]) + Parts(s[i])
    ensures ListNumbers(s[..i + 1]) == ListNumbers(s[..i]) + Numbers(ListParts(s[..i]), s[i])
  {
    hide Parts, Numbers;
    assert s[..i + 1][..i] == s[..i];
  }

  lemma {:induction false} ListNumbersGrow(s: seq<Section>, i: nat)
    requires i <= |s|
    ensures ListNumbers(s[..i]) <= ListNumbers(s)
  {
    if i < |s| {
      ListNumbersGrow(s[..|s| - 1], i);
      assert s[..|s| - 1][..i] == s[..i];
    } else {
      assert s[..i] == s;
    }
  }

  /** Rebuilding the dispatch from any list of disjoint sections: every address is then
      found in the region and at the offset a linear search of the list finds it; the
      program aborts exactly if the numbers that the sections take do not suffice. */
  method Rebuild(s: seq<Section>) returns (ok: bool, d: AddressSpaceDispatch)
    requires Layout(s)
    ensures fresh(d) && fresh(d.tree)
    ensures ok ==> Usable(d.Value()) && forall a: nat :: a < TARGET_PAGE_SIZE * ALL_PAGES ==> Meaning(d.Value(), a) == Linear(s, a)
    ensures ok <==> FIXED_SECTIONS + ListNumbers(s) <= TARGET_PAGE_SIZE
  {
    hide Span, Walk, Inv, Usable, Meaning, Subpages, Numbers, Parts, ListParts, ListNumbers;
    d := new AddressSpaceDispatch();
    ListNone();
    var i := 0;
    while i < |s|
      invariant 0 <= i <= |s| && fresh(d) && fresh(d.tree)
      invariant Inv(d.Value(), PHYS_SECTION_UNASSIGNED) && d.Room()
      invariant |d.sections| == FIXED_SECTIONS + ListNumbers(s[..i]) && Subpages(d.Value()) == ListParts(s[..i])
      invariant forall a: nat :: a < TARGET_PAGE_SIZE * ALL_PAGES ==> Meaning(d.Value(), a) == Linear(s[..i], a)
    {
      ghost var d0 := d.Value();
      forall a: nat | s[i].offset <= a < s[i].offset + s[i].size ensures Meaning(d0, a) == None {
        LinearNone(s[..i], s[i], a);
      }
      ListNext(s, i);
      ListNumbersGrow(s, i + 1);
      ok := d.MemAdd(s[i]);
      if !ok { return; }
      forall a: nat | a < TARGET_PAGE_SIZE * ALL_PAGES ensures Meaning(d.Value(), a) == Linear(s[..i + 1], a) {
        assert s[..i + 1] == s[..i] + [s[i]];
        LinearAppend(s[..i], s[i], a);
        if Covers(s[i], a) { LinearNone(s[..i], s[i], a); }
      }
      i := i + 1;
    }
    assert s[..i] == s;
    d.MemCommit();
    ok := true;
  }
}
