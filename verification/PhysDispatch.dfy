/**
 Physical address dispatch (exec.c): sections of the address space are entered
 into the page tree, whole pages directly and parts of pages through a table of
 one page (a subpage), and looked up by byte address.
 */
module PhysDispatch {
  import opened Basics
  import opened PhysPageMap

  const TARGET_PAGE_SIZE: pos := 1024
  const FIXED_SECTIONS: nat := 4
  const ALL_PAGES: nat := Span(P_L2_LEVELS)

  datatype Region = Unassigned | NotDirty | Rom | Watch | Memory(id: nat) | Subpage(table: nat)

  /** `size` bytes from `offset` in the address space are the bytes from `inRegion` in `region`. */
  datatype Section = Section(region: Region, offset: nat, inRegion: nat, size: nat)

  /** The state of one dispatch: page tree, section array, subpage tables, and the
      numbers of the sections the tree refers to. */
  datatype Dispatch = Dispatch(
    nodes: seq<Node>, home: seq<Home>, root: Entry,
    sections: seq<Section>, tables: seq<seq<nat>>, mapped: set<nat>)

  predicate Covers(s: Section, addr: nat) {
    s.offset <= addr < s.offset + s.size
  }

  function PageSection(d: Dispatch, x: nat): nat {
    Walk(d.nodes, d.root, P_L2_LEVELS, x)
  }

  /** phys_page_find */
  function FindSection(d: Dispatch, addr: nat): nat {
    var s := PageSection(d, addr / TARGET_PAGE_SIZE);
    if s < |d.sections| && Covers(d.sections[s], addr) then s else PHYS_SECTION_UNASSIGNED
  }

  /** address_space_lookup_region with subpages resolved */
  function LookupSection(d: Dispatch, addr: nat): nat {
    var s := FindSection(d, addr);
    if s < |d.sections| && d.sections[s].region.Subpage? then
      TableEntry(d.tables, d.sections[s].region.table, addr % TARGET_PAGE_SIZE)
    else s
  }

  function TableEntry(tables: seq<seq<nat>>, t: nat, o: nat): nat {
    if t < |tables| && o < |tables[t]| then tables[t][o] else PHYS_SECTION_UNASSIGNED
  }

  /** The region and the offset in it that an address means. */
  function Meaning(d: Dispatch, addr: nat): Option<(Region, int)> {
    var s := LookupSection(d, addr);
    if s == PHYS_SECTION_UNASSIGNED || s >= |d.sections| then None
    else Some((d.sections[s].region, addr - d.sections[s].offset + d.sections[s].inRegion))
  }

  // ----- invariant -----

  predicate Fixed(sections: seq<Section>) {
    && |sections| >= FIXED_SECTIONS
    && sections[0] == Section(Unassigned, 0, 0, TARGET_PAGE_SIZE * ALL_PAGES)
  }

  ghost predicate TreeOk(d: Dispatch) {
    && Shape(d.nodes, d.home, d.mapped)
    && EntryOk(d.home, d.root, P_L2_LEVELS, 0, d.mapped) && d.root.skip == 1
    && PHYS_MAP_NODE_NIL !in d.mapped
  }

  /** Section `s` is whole pages, and exactly its pages are mapped to it. */
  ghost predicate Exact(d: Dispatch, s: nat)
    requires s < |d.sections|
  {
    var sec := d.sections[s];
    && sec.offset % TARGET_PAGE_SIZE == 0 && sec.size % TARGET_PAGE_SIZE == 0 && sec.size > 0
    && sec.offset + sec.size <= TARGET_PAGE_SIZE * ALL_PAGES
    && forall x: nat :: x < ALL_PAGES ==> (PageSection(d, x) == s <==> Covers(sec, x * TARGET_PAGE_SIZE))
  }

  /** A subpage table names, for each byte, nothing or a section with that byte. */
  predicate TableOk(sections: seq<Section>, tables: seq<seq<nat>>, sec: Section) {
    sec.region.Subpage? ==>
      && sec.size == TARGET_PAGE_SIZE && sec.region.table < |tables| && |tables[sec.region.table]| == TARGET_PAGE_SIZE
      && forall o: nat :: o < TARGET_PAGE_SIZE ==>
           var t := TableEntry(tables, sec.region.table, o);
           t == PHYS_SECTION_UNASSIGNED ||
           (t < |sections| && sections[t].region.Memory? && Covers(sections[t], sec.offset + o))
  }

  ghost predicate TableUsed(tables: seq<seq<nat>>, sec: Section) {
    sec.region.Subpage? ==>
      exists o: nat :: o < TARGET_PAGE_SIZE && TableEntry(tables, sec.region.table, o) != PHYS_SECTION_UNASSIGNED
  }

  /** Section `s` of the tree is sound; `newest` may still have an empty table. */
  ghost predicate SectionOk(d: Dispatch, s: nat, newest: nat) {
    && FIXED_SECTIONS <= s < |d.sections|
    && (d.sections[s].region.Memory? || d.sections[s].region.Subpage?)
    && Exact(d, s)
    && TableOk(d.sections, d.tables, d.sections[s])
    && (s != newest ==> TableUsed(d.tables, d.sections[s]))
  }

  /** Distinct subpages have distinct tables. */
  ghost predicate OwnTables(d: Dispatch) {
    forall s, s' | s in d.mapped && s' in d.mapped && s != s' && s < |d.sections| && s' < |d.sections| ::
      d.sections[s].region.Subpage? && d.sections[s'].region.Subpage? ==>
        d.sections[s].region.table != d.sections[s'].region.table
  }

  ghost predicate Inv(d: Dispatch, newest: nat) {
    && Fixed(d.sections) && TreeOk(d) && OwnTables(d)
    && forall s <- d.mapped :: SectionOk(d, s, newest)
  }

  // ----- reading a dispatch -----

  lemma TreeIn(d: Dispatch)
    requires TreeOk(d)
    ensures ShapeIn(d.nodes, d.home, d.mapped) && EntryIn(d.home, d.root, P_L2_LEVELS, 0, d.mapped)
  {
    hide Span, Walk;
    ShapeGivesShapeIn(d.nodes, d.home, d.mapped);
  }

  lemma MappedOrNot(d: Dispatch, x: nat)
    requires TreeOk(d)
    ensures PageSection(d, x) == PHYS_SECTION_UNASSIGNED || PageSection(d, x) in d.mapped
  {
    hide Span, Walk;
    TreeIn(d);
    WalkLeaf(d.nodes, d.home, d.mapped, d.root, P_L2_LEVELS, 0, x);
  }

  /** How a byte is found: its page decides between nothing, a section of whole pages
      and a table. */
  lemma MeaningIs(d: Dispatch, newest: nat, addr: nat)
    requires Inv(d, newest) && addr < TARGET_PAGE_SIZE * ALL_PAGES
    ensures var s := PageSection(d, addr / TARGET_PAGE_SIZE);
      if s == PHYS_SECTION_UNASSIGNED then LookupSection(d, addr) == PHYS_SECTION_UNASSIGNED
      else
        && s in d.mapped && Covers(d.sections[s], addr)
        && LookupSection(d, addr) ==
             if d.sections[s].region.Subpage? then
               TableEntry(d.tables, d.sections[s].region.table, addr % TARGET_PAGE_SIZE)
             else s
  {
    hide Span, Walk, Shape;
    var x := addr / TARGET_PAGE_SIZE;
    MappedOrNot(d, x);
    var s := PageSection(d, x);
    if s in d.mapped {
      assert SectionOk(d, s, newest);
      PageCovered(d.sections[s], addr);
    }
  }

  /** A section of whole pages has an address iff it has the first byte of its page. */
  lemma PageCovered(sec: Section, addr: nat)
    requires sec.offset % TARGET_PAGE_SIZE == 0 && sec.size % TARGET_PAGE_SIZE == 0
    ensures Covers(sec, addr) <==> Covers(sec, addr / TARGET_PAGE_SIZE * TARGET_PAGE_SIZE)
  {}

  /** A page all of whose bytes are unassigned is unassigned in the tree. */
  lemma PageFree(d: Dispatch, x: nat)
    requires Inv(d, PHYS_SECTION_UNASSIGNED) && x < ALL_PAGES
    requires forall a: nat :: x * TARGET_PAGE_SIZE <= a < (x + 1) * TARGET_PAGE_SIZE ==> Meaning(d, a) == None
    ensures PageSection(d, x) == PHYS_SECTION_UNASSIGNED
  {
    hide Span, Walk, Shape, OwnTables, LookupSection, PageSection, Exact;
    MappedOrNot(d, x);
    var s := PageSection(d, x);
    if s != PHYS_SECTION_UNASSIGNED {
      assert SectionOk(d, s, PHYS_SECTION_UNASSIGNED);
      var sec := d.sections[s];
      var o: nat := 0;
      if sec.region.Subpage? {
        o :| o < TARGET_PAGE_SIZE && TableEntry(d.tables, sec.region.table, o) != PHYS_SECTION_UNASSIGNED;
      }
      var a := x * TARGET_PAGE_SIZE + o;
      assert a / TARGET_PAGE_SIZE == x && a % TARGET_PAGE_SIZE == o;
      assert Meaning(d, a) == None;
      MeaningIs(d, PHYS_SECTION_UNASSIGNED, a);
      hide Inv;
    }
  }

  // ----- entering sections -----

  predicate WholePages(sec: Section) {
    && sec.offset % TARGET_PAGE_SIZE == 0 && sec.size % TARGET_PAGE_SIZE == 0 && sec.size > 0
    && sec.offset + sec.size <= TARGET_PAGE_SIZE * ALL_PAGES
  }

  function FirstPage(sec: Section): nat { sec.offset / TARGET_PAGE_SIZE }

  function EndPage(sec: Section): nat { (sec.offset + sec.size) / TARGET_PAGE_SIZE }

  /** `d'` is `d` with the pages of the new section `sec` mapped to it. */
  ghost predicate PagesMapped(d: Dispatch, d': Dispatch, sec: Section) {
    && WholePages(sec) && d'.sections == d.sections + [sec] && d'.mapped == d.mapped + {|d.sections|}
    && d.tables <= d'.tables && TreeOk(d')
    && AllAre(d.nodes, d.root, P_L2_LEVELS, FirstPage(sec), EndPage(sec), PHYS_SECTION_UNASSIGNED)
    && AllAre(d'.nodes, d'.root, P_L2_LEVELS, FirstPage(sec), EndPage(sec), |d.sections|)
    && SameBut(d.nodes, d.root, d'.nodes, d'.root, P_L2_LEVELS, 0, ALL_PAGES, FirstPage(sec), EndPage(sec))
  }

  lemma MappedPages(d: Dispatch, d': Dispatch, sec: Section, x: nat)
    requires Inv(d, PHYS_SECTION_UNASSIGNED) && PagesMapped(d, d', sec) && x < ALL_PAGES
    ensures PageSection(d', x) == if Covers(sec, x * TARGET_PAGE_SIZE) then |d.sections| else PageSection(d, x)
    ensures Covers(sec, x * TARGET_PAGE_SIZE) ==> PageSection(d, x) == PHYS_SECTION_UNASSIGNED
    ensures PageSection(d, x) != |d.sections|
  {
    hide Span, Walk, Shape;
    assert Covers(sec, x * TARGET_PAGE_SIZE) <==> FirstPage(sec) <= x < EndPage(sec);
    MappedOrNot(d, x);
    if PageSection(d, x) in d.mapped { assert SectionOk(d, PageSection(d, x), PHYS_SECTION_UNASSIGNED); }
  }

  lemma MappedExact(d: Dispatch, d': Dispatch, sec: Section, s: nat)
    requires Inv(d, PHYS_SECTION_UNASSIGNED) && PagesMapped(d, d', sec) && s in d'.mapped
    ensures s < |d'.sections| && Exact(d', s)
  {
    hide Span, Walk, Shape;
    assert s in d.mapped ==> SectionOk(d, s, PHYS_SECTION_UNASSIGNED);
    forall x: nat | x < ALL_PAGES
      ensures PageSection(d', x) == s <==> Covers(d'.sections[s], x * TARGET_PAGE_SIZE)
    {
      MappedPages(d, d', sec, x);
    }
  }

  lemma MultipageKeepsInv(d: Dispatch, d': Dispatch, sec: Section)
    requires Inv(d, PHYS_SECTION_UNASSIGNED) && PagesMapped(d, d', sec) && sec.region.Memory? && d'.tables == d.tables
    ensures Inv(d', PHYS_SECTION_UNASSIGNED)
  {
    hide Span, Walk, Shape, Exact;
    forall s | s in d'.mapped ensures SectionOk(d', s, PHYS_SECTION_UNASSIGNED) {
      MappedExact(d, d', sec, s);
      if s in d.mapped { assert SectionOk(d, s, PHYS_SECTION_UNASSIGNED); }
    }
    forall s <- d.mapped ensures s < |d.sections| { assert SectionOk(d, s, PHYS_SECTION_UNASSIGNED); }
  }

  lemma MultipageMeaning(d: Dispatch, d': Dispatch, sec: Section, a: nat)
    requires Inv(d, PHYS_SECTION_UNASSIGNED) && PagesMapped(d, d', sec) && sec.region.Memory? && d'.tables == d.tables
    requires a < TARGET_PAGE_SIZE * ALL_PAGES
    ensures Meaning(d', a) ==
      if Covers(sec, a) then Some((sec.region, a - sec.offset + sec.inRegion)) else Meaning(d, a)
  {
    hide Span, Walk, Shape, Exact;
    MultipageKeepsInv(d, d', sec);
    MeaningIs(d, PHYS_SECTION_UNASSIGNED, a);
    MeaningIs(d', PHYS_SECTION_UNASSIGNED, a);
    MappedPages(d, d', sec, a / TARGET_PAGE_SIZE);
    PageCovered(sec, a);
    var s := PageSection(d, a / TARGET_PAGE_SIZE);
    if s != PHYS_SECTION_UNASSIGNED { assert SectionOk(d, s, PHYS_SECTION_UNASSIGNED); }
  }

  /** Page `x` is divided among sections. */
  predicate HasSubpage(d: Dispatch, x: nat) {
    var s := PageSection(d, x);
    s < |d.sections| && d.sections[s].region.Subpage?
  }

  /** The pages that are divided. */
  ghost function Subpages(d: Dispatch): set<nat> { set x: nat | x < ALL_PAGES && HasSubpage(d, x) }

  /** In `d'` the pages `parts` are divided too. */
  ghost predicate Divided(d: Dispatch, d': Dispatch, parts: set<nat>) { Subpages(d') == Subpages(d) + parts }

  lemma MappedSubpage(d: Dispatch, d': Dispatch, sec: Section, x: nat)
    requires Inv(d, PHYS_SECTION_UNASSIGNED) && PagesMapped(d, d', sec) && x < ALL_PAGES
    ensures HasSubpage(d', x) == if Covers(sec, x * TARGET_PAGE_SIZE) then sec.region.Subpage? else HasSubpage(d, x)
    ensures Covers(sec, x * TARGET_PAGE_SIZE) ==> !HasSubpage(d, x)
  {
    hide Span, Walk, Shape;
    MappedPages(d, d', sec, x);
    MappedOrNot(d, x);
    if PageSection(d, x) in d.mapped { assert SectionOk(d, PageSection(d, x), PHYS_SECTION_UNASSIGNED); }
  }

  lemma MultipageDivides(d: Dispatch, d': Dispatch, sec: Section)
    requires Inv(d, PHYS_SECTION_UNASSIGNED) && PagesMapped(d, d', sec) && sec.region.Memory?
    ensures Divided(d, d', {})
  {
    hide Span, Walk, Inv, PagesMapped, HasSubpage;
    forall x: nat | x < ALL_PAGES ensures HasSubpage(d', x) <==> HasSubpage(d, x) { MappedSubpage(d, d', sec, x); }
    assert Subpages(d') == Subpages(d);
  }

  lemma SubpageDivides(d: Dispatch, d': Dispatch, base: nat)
    requires Inv(d, PHYS_SECTION_UNASSIGNED) && SubpageMade(d, d', base)
    ensures Divided(d, d', {base / TARGET_PAGE_SIZE})
  {
    hide Span, Walk, Inv, HasSubpage;
    var sec := SubpageSection(d, base);
    assert PagesMapped(d, d', sec) && WholePages(sec);
    hide PagesMapped;
    forall x: nat | x < ALL_PAGES ensures HasSubpage(d', x) <==> HasSubpage(d, x) || x in {base / TARGET_PAGE_SIZE} {
      MappedSubpage(d, d', sec, x);
      OnePageCovered(sec, x);
    }
    assert base / TARGET_PAGE_SIZE < ALL_PAGES by { LastPageBelow(sec); }
  }

  lemma LastPageBelow(sec: Section)
    requires WholePages(sec)
    ensures sec.offset / TARGET_PAGE_SIZE < ALL_PAGES
  {}

  lemma OnePageCovered(sec: Section, x: nat)
    requires sec.offset % TARGET_PAGE_SIZE == 0 && sec.size == TARGET_PAGE_SIZE
    ensures Covers(sec, x * TARGET_PAGE_SIZE) <==> x == sec.offset / TARGET_PAGE_SIZE
  {}

  lemma FillDivides(d: Dispatch, d': Dispatch, newest: nat, s: nat, sec: Section)
    requires Inv(d, newest) && TableFilled(d, d', s, sec)
    ensures Divided(d, d', {})
  {
    hide Span, Walk, Shape;
    forall x: nat | x < ALL_PAGES ensures HasSubpage(d', x) <==> HasSubpage(d, x) {
      MappedOrNot(d, x);
      if PageSection(d, x) in d.mapped { assert SectionOk(d, PageSection(d, x), newest); }
    }
  }

  /** The section of a subpage that has just been created at page address `base`. */
  function SubpageSection(d: Dispatch, base: nat): Section {
    Section(Subpage(|d.tables|), base, 0, TARGET_PAGE_SIZE)
  }

  function EmptyTable(): (t: seq<nat>)
    ensures |t| == TARGET_PAGE_SIZE && forall o :: 0 <= o < |t| ==> t[o] == PHYS_SECTION_UNASSIGNED
  {
    seq(TARGET_PAGE_SIZE, o => PHYS_SECTION_UNASSIGNED)
  }

  ghost predicate SubpageMade(d: Dispatch, d': Dispatch, base: nat) {
    && PagesMapped(d, d', SubpageSection(d, base)) && d'.tables == d.tables + [EmptyTable()]
  }

  lemma SubpageKeepsInv(d: Dispatch, d': Dispatch, base: nat)
    requires Inv(d, PHYS_SECTION_UNASSIGNED) && SubpageMade(d, d', base)
    ensures Inv(d', |d.sections|)
  {
    hide Span, Walk, Shape, Exact;
    var sec, n := SubpageSection(d, base), |d.sections|;
    forall s | s in d.mapped ensures s < |d.sections| && (d.sections[s].region.Subpage? ==> d.sections[s].region.table < |d.tables|) {
      assert SectionOk(d, s, PHYS_SECTION_UNASSIGNED);
    }
    forall s | s in d'.mapped ensures SectionOk(d', s, n) {
      MappedExact(d, d', sec, s);
      if s in d.mapped {
        assert SectionOk(d, s, PHYS_SECTION_UNASSIGNED);
        if d.sections[s].region.Subpage? {
          SameTable(d.tables, d'.tables, d.sections[s].region.table);
        }
      }
    }
  }

  lemma SameTable(tables: seq<seq<nat>>, tables': seq<seq<nat>>, t: nat)
    requires t < |tables| && t < |tables'| && tables[t] == tables'[t]
    ensures forall o: nat :: TableEntry(tables', t, o) == TableEntry(tables, t, o)
  {}

  lemma SubpageMeaning(d: Dispatch, d': Dispatch, base: nat, a: nat)
    requires Inv(d, PHYS_SECTION_UNASSIGNED) && SubpageMade(d, d', base) && a < TARGET_PAGE_SIZE * ALL_PAGES
    ensures Meaning(d', a) == Meaning(d, a)
  {
    hide Span, Walk, Shape, Exact;
    var sec := SubpageSection(d, base);
    SubpageKeepsInv(d, d', base);
    MeaningIs(d, PHYS_SECTION_UNASSIGNED, a);
    MeaningIs(d', |d.sections|, a);
    MappedPages(d, d', sec, a / TARGET_PAGE_SIZE);
    PageCovered(sec, a);
    var s := PageSection(d, a / TARGET_PAGE_SIZE);
    if s != PHYS_SECTION_UNASSIGNED {
      assert SectionOk(d, s, PHYS_SECTION_UNASSIGNED);
      if d.sections[s].region.Subpage? { SameTable(d.tables, d'.tables, d.sections[s].region.table); }
    }
  }

  /** subpage_register: bytes [start, end] of a table now name section `n`. */
  function Registered(table: seq<nat>, start: nat, end: nat, n: nat): (r: seq<nat>)
    ensures |r| == |table| && forall o :: 0 <= o < |r| ==> r[o] == if start <= o <= end then n else table[o]
  {
    seq(|table|, o requires 0 <= o < |table| => if start <= o <= end then n else table[o])
  }

  /** `d'` is `d` with the new section `sec` entered in the table of subpage `s`. */
  ghost predicate TableFilled(d: Dispatch, d': Dispatch, s: nat, sec: Section) {
    && s in d.mapped && s < |d.sections| && d.sections[s].region.Subpage? && d.sections[s].region.table < |d.tables|
    && sec.region.Memory? && sec.size > 0
    && d.sections[s].offset <= sec.offset && sec.offset + sec.size <= d.sections[s].offset + TARGET_PAGE_SIZE
    && var t := d.sections[s].region.table;
       var start := sec.offset - d.sections[s].offset;
       d' == d.(sections := d.sections + [sec],
                tables := d.tables[t := Registered(d.tables[t], start, start + sec.size - 1, |d.sections|)])
  }

  lemma FillKeepsSection(d: Dispatch, d': Dispatch, newest: nat, s: nat, sec: Section, s': nat)
    requires Inv(d, newest) && (newest == PHYS_SECTION_UNASSIGNED || newest == s) && TableFilled(d, d', s, sec)
    requires s' in d.mapped
    ensures SectionOk(d', s', PHYS_SECTION_UNASSIGNED)
  {
    hide Span, Walk, Shape;
    assert SectionOk(d, s', newest) && SectionOk(d, s, newest);
    forall x: nat | x < ALL_PAGES ensures PageSection(d', x) == PageSection(d, x) {}
    var q := d.sections[s'];
    if q.region.Subpage? && s' != s { SameTable(d.tables, d'.tables, q.region.table); }
    if s' == s {
      var start := sec.offset - q.offset;
      assert TableEntry(d'.tables, q.region.table, start) == |d.sections|;
      forall o: nat | o < TARGET_PAGE_SIZE
        ensures var t := TableEntry(d'.tables, q.region.table, o);
          t == PHYS_SECTION_UNASSIGNED ||
          (t < |d'.sections| && d'.sections[t].region.Memory? && Covers(d'.sections[t], q.offset + o))
      {
        assert TableEntry(d'.tables, q.region.table, o) ==
          if start <= o < start + sec.size then |d.sections| else TableEntry(d.tables, q.region.table, o);
      }
    }
  }

  lemma FillKeepsInv(d: Dispatch, d': Dispatch, newest: nat, s: nat, sec: Section)
    requires Inv(d, newest) && (newest == PHYS_SECTION_UNASSIGNED || newest == s) && TableFilled(d, d', s, sec)
    ensures Inv(d', PHYS_SECTION_UNASSIGNED)
  {
    hide Span, Walk, Shape, Exact, TableOk, TableUsed;
    forall s' | s' in d'.mapped ensures SectionOk(d', s', PHYS_SECTION_UNASSIGNED) && s' < |d.sections| {
      assert SectionOk(d, s', newest);
      FillKeepsSection(d, d', newest, s, sec, s');
    }
  }

  lemma FillMeaning(d: Dispatch, d': Dispatch, newest: nat, s: nat, sec: Section, a: nat)
    requires Inv(d, newest) && (newest == PHYS_SECTION_UNASSIGNED || newest == s) && TableFilled(d, d', s, sec)
    requires a < TARGET_PAGE_SIZE * ALL_PAGES
    ensures Meaning(d', a) ==
      if Covers(sec, a) then Some((sec.region, a - sec.offset + sec.inRegion)) else Meaning(d, a)
  {
    hide Span, Walk, Shape, LookupSection;
    FillKeepsInv(d, d', newest, s, sec);
    MeaningIs(d, newest, a);
    MeaningIs(d', PHYS_SECTION_UNASSIGNED, a);
    assert SectionOk(d, s, newest);
    var p := PageSection(d, a / TARGET_PAGE_SIZE);
    assert PageSection(d', a / TARGET_PAGE_SIZE) == p;
    PageCovered(d.sections[s], a);
    if p != PHYS_SECTION_UNASSIGNED {
      assert SectionOk(d, p, newest);
      var q := d.sections[p];
      if q.region.Subpage? {
        if p != s { SameTable(d.tables, d'.tables, q.region.table); }
        assert q.offset + a % TARGET_PAGE_SIZE == a;
      }
    }
  }

  // ----- compaction and lookups -----

  /** What lookups need, before and after compaction. */
  ghost predicate Usable(d: Dispatch) {
    && Fixed(d.sections)
    && ShapeIn(d.nodes, d.home, d.mapped) && EntryIn(d.home, d.root, P_L2_LEVELS, 0, d.mapped)
    && forall s <- d.mapped :: s < |d.sections| && TableOk(d.sections, d.tables, d.sections[s])
  }

  /** `d'` is `d` with its tree compacted. */
  ghost predicate Compacted(d: Dispatch, d': Dispatch) {
    && d' == d.(nodes := d'.nodes, root := d'.root)
    && ShapeIn(d'.nodes, d'.home, d'.mapped) && EntryIn(d'.home, d'.root, P_L2_LEVELS, 0, d'.mapped)
    && Similar(d.nodes, d.root, d'.nodes, d'.root, P_L2_LEVELS, 0, ALL_PAGES)
  }

  /** Path compression changes no lookup: an entry merged over empty siblings is told
      apart by the range check, because a section covers exactly the pages mapped to it. */
  lemma CompactionKeepsLookups(d: Dispatch, d': Dispatch, a: nat)
    requires Inv(d, PHYS_SECTION_UNASSIGNED) && Compacted(d, d') && a < TARGET_PAGE_SIZE * ALL_PAGES
    ensures FindSection(d', a) == FindSection(d, a)
    ensures LookupSection(d', a) == LookupSection(d, a) && Meaning(d', a) == Meaning(d, a)
  {
    hide Span, Walk, Shape, ShapeIn;
    var x := a / TARGET_PAGE_SIZE;
    WalkLeaf(d'.nodes, d'.home, d'.mapped, d'.root, P_L2_LEVELS, 0, x);
    var s := PageSection(d', x);
    if s != PageSection(d, x) {
      assert PageSection(d, x) == PHYS_SECTION_UNASSIGNED;
      assert SectionOk(d, s, PHYS_SECTION_UNASSIGNED);
      PageCovered(d.sections[s], a);
    }
  }

  lemma CompactedUsable(d: Dispatch, d': Dispatch)
    requires Inv(d, PHYS_SECTION_UNASSIGNED) && Compacted(d, d')
    ensures Usable(d')
  {
    hide Span, Walk, Shape, ShapeIn, Exact;
    forall s <- d'.mapped ensures s < |d.sections| && TableOk(d.sections, d.tables, d.sections[s]) {
      assert SectionOk(d, s, PHYS_SECTION_UNASSIGNED);
    }
  }
}
