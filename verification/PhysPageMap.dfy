/**
 The radix tree of physical pages (exec.c): nodes of 512 entries in one growing
 array, filled by page ranges and later path-compressed.

 An entry is a leaf (`skip` 0, `ptr` a section number) or leads `skip` levels down
 to node `ptr`; a missing subtree has `ptr` NIL.  `home` records, for the proof,
 which pages a node stands for: 512 * Span(level) pages from `base`.
 */
module PhysPageMap {
  import opened Arithmetic
  import opened Basics

  const P_L2_SIZE: nat := 512
  const P_L2_LEVELS: nat := 6
  const PHYS_MAP_NODE_NIL: nat := 0x3FF_FFFF
  const PHYS_SECTION_UNASSIGNED: nat := 0

  datatype Entry = Entry(skip: nat, ptr: nat)

  const NIL_ENTRY := Entry(1, PHYS_MAP_NODE_NIL)

  type Node = s: seq<Entry> | |s| == P_L2_SIZE witness seq(P_L2_SIZE, i => NIL_ENTRY)

  datatype Home = Home(level: nat, base: nat)

  /** How many pages an entry at level `l` stands for. */
  function Span(l: nat): pos {
    if l == 0 then 1 else P_L2_SIZE * Span(l - 1)
  }

  /** The slot that page `index` takes in a node at level `l`. */
  function Slot(index: nat, l: nat): (j: nat)
    ensures j < P_L2_SIZE
  {
    (index / Span(l)) % P_L2_SIZE
  }

  /** Page `b` starts a run that an entry at level `l` can stand for. */
  predicate Aligned(b: nat, l: nat) {
    b % Span(l) == 0
  }

  /** The first page of slot `j` of a node at level `l` based at `b`. */
  function SlotStart(b: nat, j: nat, l: nat): nat {
    b + j * Span(l)
  }

  // ----- slot arithmetic -----

  lemma SlotStartSucc(b: nat, j: nat, l: nat)
    ensures SlotStart(b, j + 1, l) == SlotStart(b, j, l) + Span(l)
    ensures SlotStart(b, 0, l) == b
    ensures SlotStart(b, P_L2_SIZE, l) == b + Span(l + 1)
  {
    MulAdd(j, 1, Span(l));
  }

  lemma SlotStartMono(b: nat, i: nat, j: nat, l: nat)
    requires i <= j
    ensures SlotStart(b, i, l) <= SlotStart(b, j, l)
  {
    MulMono(i, j, Span(l));
  }

  /** A slot is recognised by the pages it stands for. */
  lemma SlotIs(index: nat, b: nat, j: nat, l: nat)
    requires Aligned(b, l + 1) && j < P_L2_SIZE
    requires SlotStart(b, j, l) <= index < SlotStart(b, j + 1, l)
    ensures Slot(index, l) == j
    ensures b <= SlotStart(b, j, l) && SlotStart(b, j, l) + Span(l) <= b + Span(l + 1)
  {
    var d, k := Span(l), b / Span(l + 1);
    assert b == k * (P_L2_SIZE * d) == k * P_L2_SIZE * d;
    DigitOf(k, P_L2_SIZE, j, index, d);
    SlotStartMono(b, j + 1, P_L2_SIZE, l);
    SlotStartSucc(b, j, l);
  }

  /** Slots of an aligned node partition its pages. */
  lemma SlotOf(index: nat, b: nat, l: nat)
    requires Aligned(b, l + 1) && b <= index < b + Span(l + 1)
    ensures SlotStart(b, Slot(index, l), l) <= index < SlotStart(b, Slot(index, l) + 1, l)
    ensures SlotStart(b, Slot(index, l), l) + Span(l) <= b + Span(l + 1)
    ensures b <= SlotStart(b, Slot(index, l), l)
  {
    var d := Span(l);
    var q := (index - b) / d;
    assert q * d <= index - b < q * d + d;
    MulAdd(q, 1, d);
    MulLess(q, P_L2_SIZE, d);
    SlotIs(index, b, q, l);
  }

  lemma SlotAligned(b: nat, j: nat, l: nat)
    requires Aligned(b, l + 1)
    ensures Aligned(SlotStart(b, j, l), l)
  {
    var d, k := Span(l), b / Span(l + 1);
    assert b == k * (P_L2_SIZE * d) == k * P_L2_SIZE * d;
    MulAdd(k * P_L2_SIZE, j, d);
    ModOfMultiple(k * P_L2_SIZE + j, d);
  }

  /** An aligned page inside a slot is the first page of the slot. */
  lemma AlignedIsStart(index: nat, b: nat, j: nat, l: nat)
    requires Aligned(b, l + 1) && Aligned(index, l)
    requires SlotStart(b, j, l) <= index < SlotStart(b, j + 1, l)
    ensures index == SlotStart(b, j, l)
  {
    SlotAligned(b, j, l);
    SlotStartSucc(b, j, l);
    AlignedClose(SlotStart(b, j, l), index, Span(l));
  }

  lemma AlignedClose(x: nat, y: nat, d: pos)
    requires x % d == 0 && y % d == 0 && x <= y < x + d
    ensures x == y
  {
    var u, v := x / d, y / d;
    MulAdd(u, 1, d);
    MulLess(v, u + 1, d);
    if v < u { MulMono(v + 1, u, d); MulAdd(v, 1, d); }
  }

  // ----- the tree -----

  /** The loop of phys_page_find from entry `e` with `i` levels to go. */
  function Walk(nodes: seq<Node>, e: Entry, i: nat, index: nat): nat
    decreases i
  {
    if e.skip == 0 || i < e.skip then e.ptr
    else if e.ptr == PHYS_MAP_NODE_NIL || e.ptr >= |nodes| then PHYS_SECTION_UNASSIGNED
    else Walk(nodes, nodes[e.ptr][Slot(index, i - e.skip)], i - e.skip, index)
  }

  /** A section number a leaf may carry: unassigned, or one of the mapped sections `k`. */
  predicate LeafOk(ptr: nat, k: set<nat>) {
    ptr == PHYS_SECTION_UNASSIGNED || ptr in k
  }

  /** `e` is a well-formed entry for the Span(l) pages from `b`, before compaction. */
  predicate EntryOk(home: seq<Home>, e: Entry, l: nat, b: nat, k: set<nat>) {
    if e.skip == 0 then LeafOk(e.ptr, k) && (l > 0 ==> e.ptr != PHYS_SECTION_UNASSIGNED)
    else
      && l > 0 && e.skip == 1
      && (e.ptr == PHYS_MAP_NODE_NIL || (e.ptr < |home| && home[e.ptr] == Home(l - 1, b)))
  }

  predicate SlotOk(nodes: seq<Node>, home: seq<Home>, n: nat, j: nat, k: set<nat>)
    requires n < |nodes| == |home| && j < P_L2_SIZE
  {
    EntryOk(home, nodes[n][j], home[n].level, SlotStart(home[n].base, j, home[n].level), k)
  }

  ghost predicate Shape(nodes: seq<Node>, home: seq<Home>, k: set<nat>) {
    && |nodes| == |home| <= PHYS_MAP_NODE_NIL
    && (forall n :: 0 <= n < |home| ==> Aligned(home[n].base, home[n].level + 1))
    && (forall n, j :: 0 <= n < |nodes| && 0 <= j < P_L2_SIZE ==> SlotOk(nodes, home, n, j, k))
  }

  /** Every page of [lo, hi) is in section `v` seen from `e`. */
  ghost predicate AllAre(nodes: seq<Node>, e: Entry, i: nat, lo: nat, hi: nat, v: nat) {
    forall x: nat :: lo <= x < hi ==> Walk(nodes, e, i, x) == v
  }

  /** `e'` in `nodes'` answers like `e` in `nodes` on [from, to) but for [lo, hi). */
  ghost predicate SameBut(nodes: seq<Node>, e: Entry, nodes': seq<Node>, e': Entry, i: nat,
                          from: nat, to: nat, lo: nat, hi: nat)
  {
    forall x: nat :: from <= x < to && !(lo <= x < hi) ==> Walk(nodes', e', i, x) == Walk(nodes, e, i, x)
  }

  /** Lookups of pages outside [lo, hi) are the same from every entry. */
  ghost predicate SameOutside(nodes: seq<Node>, nodes': seq<Node>, home: seq<Home>, k: set<nat>, lo: nat, hi: nat) {
    forall e: Entry, l: nat, b: nat, x: nat ::
      EntryOk(home, e, l, b, k) && b <= x < b + Span(l) && !(lo <= x < hi) ==>
        Walk(nodes', e, l, x) == Walk(nodes, e, l, x)
  }

  /** Writing a node does not matter to entries at or below its level. */
  lemma {:induction false} WriteBelow(nodes: seq<Node>, home: seq<Home>, k: set<nat>, p: nat, nd: Node,
                                      e: Entry, l: nat, b: nat, x: nat)
    requires Shape(nodes, home, k) && p < |nodes| && EntryOk(home, e, l, b, k) && l <= home[p].level
    ensures Walk(nodes[p := nd], e, l, x) == Walk(nodes, e, l, x)
    decreases l
  {
    hide Span, Slot, SlotStart, Aligned;
    if e.skip != 0 && e.ptr != PHYS_MAP_NODE_NIL {
      var c := e.ptr;
      var j := Slot(x, l - 1);
      assert SlotOk(nodes, home, c, j, k);
      WriteBelow(nodes, home, k, p, nd, nodes[c][j], l - 1, SlotStart(b, j, l - 1), x);
    }
  }

  /** Replacing one slot changes only the pages of that slot, and among them only
      those for which the new entry answers differently. */
  lemma {:induction false} WriteOutside(nodes: seq<Node>, home: seq<Home>, k: set<nat>, p: nat, j: nat, e': Entry,
                                        lo: nat, hi: nat, e: Entry, l: nat, b: nat, x: nat)
    requires Shape(nodes, home, k) && p < |nodes| && j < P_L2_SIZE
    requires EntryOk(home, e', home[p].level, SlotStart(home[p].base, j, home[p].level), k)
    requires AgreeOutside(nodes, home, p, j, e', lo, hi)
    requires EntryOk(home, e, l, b, k) && b <= x < b + Span(l) && !(lo <= x < hi)
    ensures Walk(nodes[p := nodes[p][j := e']], e, l, x) == Walk(nodes, e, l, x)
    decreases l
  {
    hide Span, Slot, SlotStart, Aligned;
    if e.skip != 0 && e.ptr != PHYS_MAP_NODE_NIL {
      var c := e.ptr;
      var i := Slot(x, l - 1);
      SlotOf(x, b, l - 1);
      SlotStartSucc(b, i, l - 1);
      assert SlotOk(nodes, home, c, i, k);
      if c == p && i == j {
        WriteBelow(nodes, home, k, p, nodes[p][j := e'], e', l - 1, SlotStart(b, j, l - 1), x);
      } else {
        WriteOutside(nodes, home, k, p, j, e', lo, hi, nodes[c][i], l - 1, SlotStart(b, i, l - 1), x);
      }
    }
  }

  ghost predicate AgreeOutside(nodes: seq<Node>, home: seq<Home>, p: nat, j: nat, e': Entry, lo: nat, hi: nat)
    requires p < |nodes| == |home| && j < P_L2_SIZE
  {
    var Home(l, b) := home[p];
    forall x :: SlotStart(b, j, l) <= x < SlotStart(b, j + 1, l) && !(lo <= x < hi) ==>
      Walk(nodes, e', l, x) == Walk(nodes, nodes[p][j], l, x)
  }

  lemma {:induction false} AppendUnseen(nodes: seq<Node>, home: seq<Home>, k: set<nat>, nd: Node,
                                        e: Entry, l: nat, b: nat, x: nat)
    requires Shape(nodes, home, k) && EntryOk(home, e, l, b, k)
    ensures Walk(nodes + [nd], e, l, x) == Walk(nodes, e, l, x)
    decreases l
  {
    hide Span, Slot, SlotStart, Aligned;
    if e.skip != 0 && e.ptr != PHYS_MAP_NODE_NIL {
      var c := e.ptr;
      var j := Slot(x, l - 1);
      assert SlotOk(nodes, home, c, j, k);
      AppendUnseen(nodes, home, k, nd, nodes[c][j], l - 1, SlotStart(b, j, l - 1), x);
    }
  }

  lemma SameOutsideTrans(n0: seq<Node>, n1: seq<Node>, n2: seq<Node>, h0: seq<Home>, h1: seq<Home>, k: set<nat>,
                         a: nat, b: nat, c: nat, d: nat, lo: nat, hi: nat)
    requires lo <= a && b <= hi && lo <= c && d <= hi && h0 <= h1
    requires SameOutside(n0, n1, h0, k, a, b) && SameOutside(n1, n2, h1, k, c, d)
    ensures SameOutside(n0, n2, h0, k, lo, hi)
  {
    hide Span, Walk;
    forall e: Entry, l: nat, b: nat, x: nat | EntryOk(h0, e, l, b, k) && b <= x < b + Span(l) && !(lo <= x < hi)
      ensures Walk(n2, e, l, x) == Walk(n0, e, l, x)
    {
      assert EntryOk(h1, e, l, b, k);
    }
  }

  /** How many nodes filling part of an entry's pages may allocate: one for the entry,
      and one per lower level on each side that is only partly covered. */
  function Need(leftOpen: bool, rightOpen: bool, level: nat): nat {
    1 + (if leftOpen then level else 0) + (if rightOpen then level else 0)
  }

  /** What storing `e'` in slot `j` of node `p` does to lookups. */
  lemma Stored(nodes: seq<Node>, home: seq<Home>, k: set<nat>, p: nat, j: nat, e': Entry, lo: nat, hi: nat)
    requires Shape(nodes, home, k) && p < |nodes| && j < P_L2_SIZE
    requires EntryOk(home, e', home[p].level, SlotStart(home[p].base, j, home[p].level), k)
    requires AgreeOutside(nodes, home, p, j, e', lo, hi)
    ensures var nodes' := nodes[p := nodes[p][j := e']];
      && Shape(nodes', home, k)
      && SameOutside(nodes, nodes', home, k, lo, hi)
  {
    var nodes' := nodes[p := nodes[p][j := e']];
    hide Span, Slot, SlotStart, Aligned;
    forall n, i | 0 <= n < |nodes'| && 0 <= i < P_L2_SIZE ensures SlotOk(nodes', home, n, i, k) {
      assert SlotOk(nodes, home, n, i, k);
    }
    forall e: Entry, le: nat, be: nat, x: nat | EntryOk(home, e, le, be, k) && be <= x < be + Span(le) && !(lo <= x < hi)
      ensures Walk(nodes', e, le, x) == Walk(nodes, e, le, x)
    {
      WriteOutside(nodes, home, k, p, j, e', lo, hi, e, le, be, x);
    }
  }

  /** Pages of slot `j` that `e'` gives to section `v` are found there through the node. */
  lemma StoredReads(nodes: seq<Node>, home: seq<Home>, k: set<nat>, p: nat, j: nat, e': Entry, lo: nat, hi: nat, v: nat)
    requires Shape(nodes, home, k) && p < |nodes| && j < P_L2_SIZE
    requires EntryOk(home, e', home[p].level, SlotStart(home[p].base, j, home[p].level), k)
    requires SlotStart(home[p].base, j, home[p].level) <= lo && hi <= SlotStart(home[p].base, j + 1, home[p].level)
    requires AllAre(nodes, e', home[p].level, lo, hi, v)
    ensures AllAre(nodes[p := nodes[p][j := e']], Entry(1, p), home[p].level + 1, lo, hi, v)
  {
    hide Span, Slot, SlotStart, Aligned;
    var nodes' := nodes[p := nodes[p][j := e']];
    var Home(l, b) := home[p];
    var i := l + 1;
    forall x: nat | lo <= x < hi ensures Walk(nodes', Entry(1, p), i, x) == v {
      SlotIs(x, b, j, l);
      WriteBelow(nodes, home, k, p, nodes[p][j := e'], e', l, SlotStart(b, j, l), x);
      assert Walk(nodes', Entry(1, p), i, x) == Walk(nodes', e', l, x);
    }
  }

  /** Nodes allocated when part of slot `j` is filled. */
  function SlotNeed(index: nat, nb: nat, level: nat, base: nat, j: nat): nat {
    if index == SlotStart(base, j, level) && nb >= Span(level) then 0
    else Need(index != SlotStart(base, j, level), index + nb < SlotStart(base, j + 1, level),
              if level == 0 then 0 else level - 1)
  }

  /** Filling one more slot stays within what the whole range may allocate. */
  lemma SlotNeedWithin(index0: nat, nb0: nat, index: nat, nb: nat, level: nat, base: nat, j: nat)
    requires j < P_L2_SIZE && nb > 0 && index0 <= index && index + nb == index0 + nb0
    requires SlotStart(base, j, level) <= index < SlotStart(base, j + 1, level)
    requires index > index0 ==> index == SlotStart(base, j, level)
    requires base <= SlotStart(base, j, level) && SlotStart(base, j + 1, level) <= base + Span(level + 1)
    requires SlotStart(base, j + 1, level) == SlotStart(base, j, level) + Span(level)
    ensures var index' := Min(index + nb, SlotStart(base, j + 1, level));
      && SlotNeed(index, nb, level, base, j) + Spent(index0, nb0, index, base, level)
           <= Spent(index0, nb0, index', base, level)
      && index' > index
  {
    hide SlotStart;
  }

  /** What a fill of [index0, index0 + nb0) may have allocated below its own node once
      it has reached `index`. */
  function Spent(index0: nat, nb0: nat, index: nat, base: nat, level: nat): nat {
    (if index0 != base && index > index0 then level else 0) +
    (if index0 + nb0 < base + Span(level + 1) && index == index0 + nb0 then level else 0)
  }

  // ----- leaves cut by an end of a range -----

  /** The level of the leaf in which a lookup of page `index` ends. */
  function LeafLevel(nodes: seq<Node>, e: Entry, i: nat, index: nat): nat
    decreases i
  {
    if e.skip == 0 then i
    else if i < e.skip || e.ptr >= |nodes| then 0
    else LeafLevel(nodes, nodes[e.ptr][Slot(index, i - e.skip)], i - e.skip, index)
  }

  /** No leaf above the bottom level has both page `x` and the page before. */
  predicate Uncut(nodes: seq<Node>, e: Entry, i: nat, x: nat) {
    Aligned(x, LeafLevel(nodes, e, i, x))
  }

  /** Neither end of a range from `x` on cuts a leaf, as far as it is seen from an entry
      for the pages below `to`. */
  predicate EndsUncut(nodes: seq<Node>, e: Entry, i: nat, x: nat, nb: nat, to: nat) {
    Uncut(nodes, e, i, x) && (x + nb < to ==> Uncut(nodes, e, i, x + nb))
  }

  /** A page that is unassigned, or whose predecessor is, does not cut a leaf. */
  lemma {:induction false} UnassignedUncut(nodes: seq<Node>, home: seq<Home>, k: set<nat>, e: Entry, l: nat, b: nat, x: nat)
    requires Shape(nodes, home, k) && EntryOk(home, e, l, b, k) && Aligned(b, l) && b <= x < b + Span(l)
    requires x == b || Walk(nodes, e, l, x) == PHYS_SECTION_UNASSIGNED || Walk(nodes, e, l, x - 1) == PHYS_SECTION_UNASSIGNED
    ensures Uncut(nodes, e, l, x)
    decreases l
  {
    hide Slot, SlotStart;
    if e.skip != 0 && e.ptr < |nodes| {
      hide Span, Aligned;
      var j := Slot(x, l - 1);
      SlotOf(x, b, l - 1);
      SlotAligned(b, j, l - 1);
      SlotStartSucc(b, j, l - 1);
      assert SlotOk(nodes, home, e.ptr, j, k);
      if SlotStart(b, j, l - 1) < x { SlotIs(x - 1, b, j, l - 1); }
      UnassignedUncut(nodes, home, k, nodes[e.ptr][j], l - 1, SlotStart(b, j, l - 1), x);
    }
  }

  /** Seen from a slot, a page cuts what it cuts seen from the node. */
  lemma SlotUncut(nodes: seq<Node>, lp: Entry, level: nat, base: nat, j: nat, x: nat)
    requires lp.skip == 1 && lp.ptr < |nodes| && Aligned(base, level + 1) && j < P_L2_SIZE
    requires SlotStart(base, j, level) <= x < SlotStart(base, j + 1, level)
    requires Uncut(nodes, lp, level + 1, x)
    ensures Uncut(nodes, nodes[lp.ptr][j], level, x)
  {
    hide Span, SlotStart, Slot, Aligned;
    SlotIs(x, base, j, level);
  }

  /** A slot that the range covers only in part holds no leaf if no leaf is cut. */
  lemma PartHasNoLeaf(nodes: seq<Node>, e: Entry, level: nat, b: nat, index: nat, nb: nat)
    requires Aligned(b, level) && b <= index < b + Span(level) && nb > 0
    requires EndsUncut(nodes, e, level, index, nb, b + Span(level))
    requires !(Aligned(index, level) && nb >= Span(level))
    ensures e.skip != 0
  {
    if e.skip == 0 {
      AlignedClose(b, index, Span(level));
      AlignedClose(b, index + nb, Span(level));
    }
  }

  /** What a lookup ends in depends only on the nodes that stand for pages of its entry. */
  lemma {:induction false} LevelInside(nodes: seq<Node>, nodes': seq<Node>, home: seq<Home>, k: set<nat>,
                                       e: Entry, l: nat, b: nat, x: nat)
    requires Shape(nodes, home, k) && |nodes| <= |nodes'| <= PHYS_MAP_NODE_NIL && EntryOk(home, e, l, b, k)
    requires forall n :: 0 <= n < |nodes| && Inside(home[n], b, b + Span(l)) ==> nodes'[n] == nodes[n]
    ensures LeafLevel(nodes', e, l, x) == LeafLevel(nodes, e, l, x)
    decreases l
  {
    hide Span, Slot, SlotStart, Aligned;
    if e.skip != 0 && e.ptr < |nodes| {
      var j := Slot(x, l - 1);
      assert SlotOk(nodes, home, e.ptr, j, k);
      SlotWithin(b, j, l - 1);
      LevelInside(nodes, nodes', home, k, nodes[e.ptr][j], l - 1, SlotStart(b, j, l - 1), x);
    }
  }

  /** The nodes that do not stand for pages of [lo, hi) are as they were. */
  ghost predicate Untouched(nodes: seq<Node>, nodes': seq<Node>, home: seq<Home>, lo: nat, hi: nat)
    requires |nodes| <= |home|
  {
    |nodes| <= |nodes'| && forall n :: 0 <= n < |nodes| && !Inside(home[n], lo, hi) ==> nodes'[n] == nodes[n]
  }

  /** Slots of node `p` from slot `j` on, and all other nodes that do not stand for pages
      of the slots before, are as they were. */
  ghost predicate FilledUpTo(nodes: seq<Node>, nodes': seq<Node>, home: seq<Home>, p: nat, j: nat)
    requires p < |nodes| <= |home|
  {
    && |nodes| <= |nodes'|
    && (forall i :: j <= i < P_L2_SIZE ==> nodes'[p][i] == nodes[p][i])
    && forall n :: 0 <= n < |nodes| && n != p && !Inside(home[n], home[p].base, SlotStart(home[p].base, j, home[p].level)) ==>
         nodes'[n] == nodes[n]
  }

  /** Only slot `j` of node `p` and nodes that stand for its pages have changed. */
  ghost predicate SlotFilled(nodes: seq<Node>, nodes': seq<Node>, home: seq<Home>, p: nat, j: nat)
    requires p < |nodes| <= |home|
  {
    var Home(l, b) := home[p];
    && |nodes| <= |nodes'|
    && (forall i :: 0 <= i < P_L2_SIZE && i != j ==> nodes'[p][i] == nodes[p][i])
    && forall n :: 0 <= n < |nodes| && n != p && !Inside(home[n], SlotStart(b, j, l), SlotStart(b, j + 1, l)) ==>
         nodes'[n] == nodes[n]
  }

  lemma FilledNext(n1: seq<Node>, n2: seq<Node>, n3: seq<Node>, h1: seq<Home>, h2: seq<Home>, p: nat, j: nat)
    requires p < |n1| == |h1| && |n2| == |h2| && h1 <= h2 && j < P_L2_SIZE
    requires FilledUpTo(n1, n2, h1, p, j) && SlotFilled(n2, n3, h2, p, j)
    ensures FilledUpTo(n1, n3, h1, p, j + 1)
  {
    SlotWithin(h1[p].base, j, h1[p].level);
    hide Span, SlotStart;
  }

  lemma FilledUntouched(n1: seq<Node>, nodes: seq<Node>, home: seq<Home>, p: nat, j: nat)
    requires p < |n1| == |home| && j <= P_L2_SIZE && FilledUpTo(n1, nodes, home, p, j)
    ensures Untouched(n1, nodes, home, home[p].base, home[p].base + Span(home[p].level + 1))
  {
    SlotStartSucc(home[p].base, 0, home[p].level);
    SlotStartMono(home[p].base, j, P_L2_SIZE, home[p].level);
    hide Span, SlotStart;
  }

  /** A node does not stand for pages of one of its slots only. */
  lemma NodeNotInSlot(b: nat, j: nat, l: nat)
    requires j < P_L2_SIZE
    ensures !Inside(Home(l, b), SlotStart(b, j, l), SlotStart(b, j + 1, l))
  {
    SlotWithin(b, j, l);
    SpanGrows(l);
  }

  lemma FreshUncut(nodes: seq<Node>, home: seq<Home>, k: set<nat>, e: Entry, l: nat, b: nat, x: nat, nb: nat)
    requires Shape(nodes, home, k) && EntryOk(home, e, l, b, k) && Aligned(b, l) && b <= x < b + Span(l)
    requires AllAre(nodes, e, l, b, b + Span(l), PHYS_SECTION_UNASSIGNED)
    ensures EndsUncut(nodes, e, l, x, nb, b + Span(l))
  {
    hide Span, Walk, Aligned, LeafLevel;
    UnassignedUncut(nodes, home, k, e, l, b, x);
    if x + nb < b + Span(l) { UnassignedUncut(nodes, home, k, e, l, b, x + nb); }
  }

  /** An unassigned range cuts no leaf. */
  lemma RangeUncut(nodes: seq<Node>, home: seq<Home>, k: set<nat>, root: Entry, lo: nat, hi: nat)
    requires Shape(nodes, home, k) && EntryOk(home, root, P_L2_LEVELS, 0, k) && lo < hi <= Span(P_L2_LEVELS)
    requires AllAre(nodes, root, P_L2_LEVELS, lo, hi, PHYS_SECTION_UNASSIGNED)
    ensures EndsUncut(nodes, root, P_L2_LEVELS, lo, hi - lo, Span(P_L2_LEVELS))
  {
    assert Aligned(0, P_L2_LEVELS);
    hide Span, Walk, Aligned, LeafLevel;
    UnassignedUncut(nodes, home, k, root, P_L2_LEVELS, 0, lo);
    if hi < Span(P_L2_LEVELS) {
      assert Walk(nodes, root, P_L2_LEVELS, hi - 1) == PHYS_SECTION_UNASSIGNED;
      UnassignedUncut(nodes, home, k, root, P_L2_LEVELS, 0, hi);
    }
  }

  /** The slots to come are cut only where they were. */
  lemma NextUncut(n1: seq<Node>, h1: seq<Home>, nodes: seq<Node>, k: set<nat>, lp: Entry, level: nat, base: nat, j: nat,
                  index0: nat, index: nat, to: nat)
    requires Shape(n1, h1, k) && lp.skip == 1 && lp.ptr < |n1| && h1[lp.ptr] == Home(level, base) && |nodes| <= PHYS_MAP_NODE_NIL
    requires j < P_L2_SIZE && index0 <= index < to && base <= index0
    requires SlotStart(base, j, level) <= index < SlotStart(base, j + 1, level)
    requires index > index0 ==> index == SlotStart(base, j, level)
    requires EndsUncut(n1, lp, level + 1, index0, to - index0, base + Span(level + 1)) && FilledUpTo(n1, nodes, h1, lp.ptr, j)
    ensures EndsUncut(nodes, nodes[lp.ptr][j], level, index, to - index, SlotStart(base, j + 1, level))
  {
    hide Span, SlotStart, Aligned, LeafLevel;
    var p, b := lp.ptr, SlotStart(base, j, level);
    SlotWithin(base, j, level);
    assert SlotOk(n1, h1, p, j, k);
    forall n | 0 <= n < |n1| && Inside(h1[n], b, b + Span(level)) ensures nodes[n] == n1[n] {
      NodeNotInSlot(base, j, level);
    }
    LevelInside(n1, nodes, h1, k, n1[p][j], level, b, index);
    LevelInside(n1, nodes, h1, k, n1[p][j], level, b, to);
    if index == index0 {
      SlotUncut(n1, lp, level, base, j, index);
    } else {
      SlotAligned(base, j, level);
      StartUncut(n1, n1[p][j], level, index);
    }
    if to < SlotStart(base, j + 1, level) { SlotUncut(n1, lp, level, base, j, to); }
  }

  lemma {:induction false} StartUncut(nodes: seq<Node>, e: Entry, l: nat, x: nat)
    requires Aligned(x, l)
    ensures Uncut(nodes, e, l, x)
    decreases l
  {
    if e.skip != 0 && e.skip <= l && e.ptr < |nodes| {
      AlignedBelow(x, l - e.skip, l);
      StartUncut(nodes, nodes[e.ptr][Slot(x, l - e.skip)], l - e.skip, x);
    }
  }

  lemma {:induction false} AlignedBelow(x: nat, m: nat, l: nat)
    requires m <= l && Aligned(x, l)
    ensures Aligned(x, m)
    decreases l
  {
    if m < l {
      var d, q := Span(l - 1), x / Span(l);
      assert x == q * (P_L2_SIZE * d) == q * P_L2_SIZE * d;
      ModOfMultiple(q * P_L2_SIZE, d);
      AlignedBelow(x, m, l - 1);
    }
  }

  lemma LeafIsAll(nodes: seq<Node>, leaf: nat, i: nat, lo: nat, hi: nat)
    ensures AllAre(nodes, Entry(0, leaf), i, lo, hi, leaf)
  {}

  lemma NilIsUnassigned(nodes: seq<Node>, i: pos, lo: nat, hi: nat)
    ensures AllAre(nodes, NIL_ENTRY, i, lo, hi, PHYS_SECTION_UNASSIGNED)
  {}

  lemma SameOutsideEntry(nodes: seq<Node>, nodes': seq<Node>, home: seq<Home>, k: set<nat>, e: Entry, i: nat, b: nat,
                         lo: nat, hi: nat)
    requires SameOutside(nodes, nodes', home, k, lo, hi) && EntryOk(home, e, i, b, k)
    ensures SameBut(nodes, e, nodes', e, i, b, b + Span(i), lo, hi)
  {
    hide Span, Walk;
  }

  // ----- path compression -----

  /** Node `h` stands for pages inside [lo, hi). */
  predicate Inside(h: Home, lo: nat, hi: nat) {
    lo <= h.base && h.base + Span(h.level + 1) <= hi
  }

  /** Like EntryOk, but the entry may skip levels and so lead to a node that stands
      for only part of its pages. */
  predicate EntryIn(home: seq<Home>, e: Entry, l: nat, b: nat, k: set<nat>) {
    if e.skip == 0 then LeafOk(e.ptr, k)
    else
      && e.skip <= l
      && (e.ptr == PHYS_MAP_NODE_NIL ||
          (e.ptr < |home| && home[e.ptr].level == l - e.skip && Inside(home[e.ptr], b, b + Span(l))))
  }

  predicate SlotIn(nodes: seq<Node>, home: seq<Home>, n: nat, j: nat, k: set<nat>)
    requires n < |nodes| == |home| && j < P_L2_SIZE
  {
    EntryIn(home, nodes[n][j], home[n].level, SlotStart(home[n].base, j, home[n].level), k)
  }

  ghost predicate ShapeIn(nodes: seq<Node>, home: seq<Home>, k: set<nat>) {
    && |nodes| == |home| <= PHYS_MAP_NODE_NIL && PHYS_MAP_NODE_NIL !in k
    && (forall n :: 0 <= n < |home| ==> Aligned(home[n].base, home[n].level + 1))
    && (forall n, j :: 0 <= n < |nodes| && 0 <= j < P_L2_SIZE ==> SlotIn(nodes, home, n, j, k))
  }

  lemma ShapeGivesShapeIn(nodes: seq<Node>, home: seq<Home>, k: set<nat>)
    requires Shape(nodes, home, k) && PHYS_MAP_NODE_NIL !in k
    ensures ShapeIn(nodes, home, k)
  {
    hide Span, SlotStart, Aligned;
    forall n, j | 0 <= n < |nodes| && 0 <= j < P_L2_SIZE ensures SlotIn(nodes, home, n, j, k) {
      assert SlotOk(nodes, home, n, j, k);
    }
  }

  /** Pages keep their section, except that an unassigned page may be given any answer. */
  ghost predicate Similar(nodes: seq<Node>, e: Entry, nodes': seq<Node>, e': Entry, i: nat, lo: nat, hi: nat) {
    forall x: nat :: lo <= x < hi ==>
      Walk(nodes', e', i, x) == Walk(nodes, e, i, x) || Walk(nodes, e, i, x) == PHYS_SECTION_UNASSIGNED
  }

  /** A lookup reads only nodes that stand for pages of its starting entry. */
  lemma {:induction false} ReadsInside(nodes: seq<Node>, nodes': seq<Node>, home: seq<Home>, k: set<nat>,
                                       e: Entry, l: nat, b: nat, x: nat)
    requires ShapeIn(nodes, home, k) && |nodes'| == |nodes| && EntryIn(home, e, l, b, k)
    requires forall n :: 0 <= n < |nodes| && Inside(home[n], b, b + Span(l)) ==> nodes'[n] == nodes[n]
    ensures Walk(nodes', e, l, x) == Walk(nodes, e, l, x)
    decreases l
  {
    hide Span, Slot, SlotStart, Aligned;
    if e.skip != 0 && e.ptr != PHYS_MAP_NODE_NIL {
      var c, m := e.ptr, l - e.skip;
      var j := Slot(x, m);
      var b' := SlotStart(home[c].base, j, m);
      assert SlotIn(nodes, home, c, j, k);
      SlotWithin(home[c].base, j, m);
      ReadsInside(nodes, nodes', home, k, nodes[c][j], m, b', x);
    }
  }

  lemma SlotWithin(b: nat, j: nat, l: nat)
    requires j < P_L2_SIZE
    ensures b <= SlotStart(b, j, l) && SlotStart(b, j, l) + Span(l) == SlotStart(b, j + 1, l) <= b + Span(l + 1)
  {
    SlotStartSucc(b, j, l);
    SlotStartMono(b, 0, j, l);
    SlotStartMono(b, j + 1, P_L2_SIZE, l);
  }

  /** Merging an entry into its only child changes no answer but that of unassigned pages. */
  lemma MergedSimilar(n0: seq<Node>, nodes: seq<Node>, lp: Entry, v: nat, l: pos, b: nat)
    requires lp.skip == 1 && lp.ptr < |n0| == |nodes| <= PHYS_MAP_NODE_NIL && v < P_L2_SIZE && Aligned(b, l)
    requires forall j :: 0 <= j < P_L2_SIZE && j != v ==> n0[lp.ptr][j] == NIL_ENTRY
    requires l > 1 && nodes[lp.ptr][v].skip < l
    requires Similar(n0, n0[lp.ptr][v], nodes, nodes[lp.ptr][v], l - 1, SlotStart(b, v, l - 1), SlotStart(b, v + 1, l - 1))
    ensures Similar(n0, lp, nodes, Merged(lp, nodes[lp.ptr][v]), l, b, b + Span(l))
  {
    hide Span, Slot, SlotStart, Aligned;
    var c := nodes[lp.ptr][v];
    forall x: nat | b <= x < b + Span(l)
      ensures Walk(nodes, Merged(lp, c), l, x) == Walk(n0, lp, l, x) || Walk(n0, lp, l, x) == PHYS_SECTION_UNASSIGNED
    {
      var j := Slot(x, l - 1);
      SlotOf(x, b, l - 1);
      assert Walk(n0, lp, l, x) == Walk(n0, n0[lp.ptr][j], l - 1, x);
      assert Walk(nodes, Merged(lp, c), l, x) == Walk(nodes, c, l - 1, x);
    }
  }

  /** phys_page_compact's result for an entry whose node has the single child `c`. */
  function Merged(lp: Entry, c: Entry): Entry {
    if c.skip == 0 then Entry(0, c.ptr) else Entry(lp.skip + c.skip, c.ptr)
  }

  /** Slots [0, i) of node `p` have been compacted and answer as before; the other
      slots, and all nodes that do not stand for pages of the slots done, are untouched. */
  ghost predicate CompactedUpTo(n0: seq<Node>, nodes: seq<Node>, home: seq<Home>, p: nat, i: nat)
    requires p < |n0| == |nodes| == |home| && i <= P_L2_SIZE
  {
    var Home(l, b) := home[p];
    && (forall j :: i <= j < P_L2_SIZE ==> nodes[p][j] == n0[p][j])
    && (forall j :: 0 <= j < i ==> SlotCompacted(n0, nodes, p, j, l, b))
    && (forall n :: 0 <= n < |nodes| && n != p && !Inside(home[n], b, SlotStart(b, i, l)) ==> nodes[n] == n0[n])
  }

  ghost predicate SlotCompacted(n0: seq<Node>, nodes: seq<Node>, p: nat, j: nat, l: nat, b: nat)
    requires p < |n0| == |nodes| && j < P_L2_SIZE
  {
    && (n0[p][j].ptr == PHYS_MAP_NODE_NIL ==> nodes[p][j] == n0[p][j])
    && (n0[p][j].ptr != PHYS_MAP_NODE_NIL ==> nodes[p][j].ptr != PHYS_MAP_NODE_NIL)
    && Similar(n0, n0[p][j], nodes, nodes[p][j], l, SlotStart(b, j, l), SlotStart(b, j + 1, l))
  }

  /** The nodes that stand for pages of [lo, hi) have not been compacted yet. */
  ghost predicate Plain(nodes: seq<Node>, home: seq<Home>, k: set<nat>, lo: nat, hi: nat)
    requires |nodes| == |home|
  {
    forall n, j :: 0 <= n < |nodes| && Inside(home[n], lo, hi) && 0 <= j < P_L2_SIZE ==> SlotOk(nodes, home, n, j, k)
  }

  /** A slot whose node is replaced by nodes that read the same stays as it was. */
  lemma SimilarFrame(n0: seq<Node>, e0: Entry, nodes: seq<Node>, e: Entry, nodes': seq<Node>, home: seq<Home>, k: set<nat>,
                     l: nat, b: nat)
    requires ShapeIn(nodes, home, k) && |nodes'| == |nodes| && EntryIn(home, e, l, b, k)
    requires Similar(n0, e0, nodes, e, l, b, b + Span(l))
    requires forall n :: 0 <= n < |nodes| && Inside(home[n], b, b + Span(l)) ==> nodes'[n] == nodes[n]
    ensures Similar(n0, e0, nodes', e, l, b, b + Span(l))
  {
    hide Span, Walk;
    forall x: nat | b <= x < b + Span(l) ensures Walk(nodes', e, l, x) == Walk(nodes, e, l, x) {
      ReadsInside(nodes, nodes', home, k, e, l, b, x);
    }
  }

  /** Pages of different slots, and of a slot and its own node, are not inside each other. */
  lemma NotInside(h: Home, b: nat, i: nat, j: nat, l: nat)
    requires i < P_L2_SIZE && j < P_L2_SIZE && i != j
    requires Inside(h, SlotStart(b, i, l), SlotStart(b, i + 1, l))
    ensures !Inside(h, SlotStart(b, j, l), SlotStart(b, j + 1, l))
    ensures h != Home(l, b)
  {
    if i < j { SlotStartMono(b, i + 1, j, l); } else { SlotStartMono(b, j + 1, i, l); }
    SlotStartSucc(b, i, l);
  }

  /** One more slot: its entry has become `e'` and only nodes inside the slot have changed. */
  lemma SlotCompactedNext(n0: seq<Node>, nodes: seq<Node>, n2: seq<Node>, home: seq<Home>, k: set<nat>, p: nat, i: nat, e': Entry)
    requires ShapeIn(nodes, home, k) && ShapeIn(n2, home, k) && p < |n0| == |nodes| && i < P_L2_SIZE
    requires CompactedUpTo(n0, nodes, home, p, i)
    requires var Home(l, b) := home[p];
      && (forall n :: 0 <= n < |nodes| && !Inside(home[n], SlotStart(b, i, l), SlotStart(b, i + 1, l)) ==> n2[n] == nodes[n])
      && EntryIn(home, e', l, SlotStart(b, i, l), k)
      && Similar(nodes, nodes[p][i], n2, e', l, SlotStart(b, i, l), SlotStart(b, i + 1, l))
      && (nodes[p][i].ptr == PHYS_MAP_NODE_NIL ==> e' == nodes[p][i])
      && (nodes[p][i].ptr != PHYS_MAP_NODE_NIL ==> e'.ptr != PHYS_MAP_NODE_NIL)
      && EntryIn(home, n0[p][i], l, SlotStart(b, i, l), k) && ShapeIn(n0, home, k)
    ensures var n3 := n2[p := n2[p][i := e']];
      ShapeIn(n3, home, k) && CompactedUpTo(n0, n3, home, p, i + 1)
  {
    hide Span, SlotStart, Aligned, Walk, Similar;
    var n3 := n2[p := n2[p][i := e']];
    var Home(l, b) := home[p];
    SlotWithin(b, i, l);
    forall n, j | 0 <= n < |n3| && 0 <= j < P_L2_SIZE ensures SlotIn(n3, home, n, j, k) {
      assert SlotIn(n2, home, n, j, k);
    }
    assert !Inside(home[p], SlotStart(b, i, l), SlotStart(b, i + 1, l)) by {
      SlotStartSucc(b, i, l);
      SpanGrows(l);
    }
    assert n2[p] == nodes[p];
    forall j | 0 <= j < i + 1 ensures SlotCompacted(n0, n3, p, j, l, b) {
      SlotWithin(b, j, l);
      SlotStartMono(b, j + 1, i + 1, l);
      if j < i {
        assert SlotCompacted(n0, nodes, p, j, l, b);
        assert SlotIn(nodes, home, p, j, k);
        forall n | 0 <= n < |nodes| && Inside(home[n], SlotStart(b, j, l), SlotStart(b, j + 1, l)) ensures n3[n] == nodes[n] {
          NotInside(home[n], b, j, i, l);
        }
        SimilarFrame(n0, n0[p][j], nodes, nodes[p][j], n3, home, k, l, SlotStart(b, j, l));
      } else {
        forall n | 0 <= n < |nodes| && Inside(home[n], SlotStart(b, i, l), SlotStart(b, i + 1, l))
          ensures n != p && nodes[n] == n0[n]
        {
          SlotStartSucc(b, i, l);
        }
        SimilarBase(n0, nodes, n0[p][i], n2, e', home, k, l, SlotStart(b, i, l));
        SimilarFrame(n0, n0[p][i], n2, e', n3, home, k, l, SlotStart(b, i, l));
      }
    }
    forall n | 0 <= n < |n3| && n != p && !Inside(home[n], b, SlotStart(b, i + 1, l)) ensures n3[n] == n0[n] {
    }
  }

  /** Similarity may be measured from any array that reads the same. */
  lemma SimilarBase(n0: seq<Node>, nodes: seq<Node>, e: Entry, n2: seq<Node>, e': Entry, home: seq<Home>, k: set<nat>,
                    l: nat, b: nat)
    requires ShapeIn(n0, home, k) && |nodes| == |n0| && EntryIn(home, e, l, b, k)
    requires forall n :: 0 <= n < |nodes| && Inside(home[n], b, b + Span(l)) ==> nodes[n] == n0[n]
    requires Similar(nodes, e, n2, e', l, b, b + Span(l))
    ensures Similar(n0, e, n2, e', l, b, b + Span(l))
  {
    hide Span, Walk;
    forall x: nat | b <= x < b + Span(l) ensures Walk(nodes, e, l, x) == Walk(n0, e, l, x) {
      ReadsInside(n0, nodes, home, k, e, l, b, x);
    }
  }

  lemma SpanGrows(l: nat)
    ensures Span(l) < Span(l + 1)
  {}

  /** The next slot to compact is still plain, and so is everything below it. */
  lemma PlainSlot(n0: seq<Node>, nodes: seq<Node>, home: seq<Home>, k: set<nat>, p: nat, i: nat)
    requires ShapeIn(n0, home, k) && ShapeIn(nodes, home, k) && p < |n0| == |nodes| && i < P_L2_SIZE
    requires Plain(n0, home, k, home[p].base, home[p].base + Span(home[p].level + 1))
    requires CompactedUpTo(n0, nodes, home, p, i)
    ensures var Home(l, b) := home[p];
      && SlotStart(b, i, l) + Span(l) == SlotStart(b, i + 1, l) <= b + Span(l + 1) && b <= SlotStart(b, i, l)
      && Plain(nodes, home, k, SlotStart(b, i, l), SlotStart(b, i + 1, l))
      && EntryOk(home, nodes[p][i], l, SlotStart(b, i, l), k) && Aligned(SlotStart(b, i, l), l)
      && EntryIn(home, nodes[p][i], l, SlotStart(b, i, l), k)
  {
    hide Span, SlotStart, Aligned, Walk;
    var Home(l, b) := home[p];
    SlotWithin(b, i, l);
    SlotAligned(b, i, l);
    assert SlotOk(n0, home, p, i, k);
    assert SlotIn(nodes, home, p, i, k);
    forall n, j | 0 <= n < |nodes| && Inside(home[n], SlotStart(b, i, l), SlotStart(b, i + 1, l)) && 0 <= j < P_L2_SIZE
      ensures SlotOk(nodes, home, n, j, k)
    {
      SpanGrows(l);
      assert nodes[n] == n0[n] && SlotOk(n0, home, n, j, k);
    }
  }

  lemma CompactedSimilar(n0: seq<Node>, nodes: seq<Node>, home: seq<Home>, lp: Entry, l: pos, b: nat)
    requires lp.skip == 1 && lp.ptr < |n0| == |nodes| == |home| <= PHYS_MAP_NODE_NIL && Aligned(b, l)
    requires home[lp.ptr] == Home(l - 1, b) && CompactedUpTo(n0, nodes, home, lp.ptr, P_L2_SIZE)
    ensures Similar(n0, lp, nodes, lp, l, b, b + Span(l))
  {
    hide Span, Slot, SlotStart, Aligned;
    forall x: nat | b <= x < b + Span(l)
      ensures Walk(nodes, lp, l, x) == Walk(n0, lp, l, x) || Walk(n0, lp, l, x) == PHYS_SECTION_UNASSIGNED
    {
      var j := Slot(x, l - 1);
      SlotOf(x, b, l - 1);
      assert SlotCompacted(n0, nodes, lp.ptr, j, l - 1, b);
      assert Walk(n0, lp, l, x) == Walk(n0, n0[lp.ptr][j], l - 1, x);
      assert Walk(nodes, lp, l, x) == Walk(nodes, nodes[lp.ptr][j], l - 1, x);
    }
  }

  /** A node with a single child is not a bottom node, and its child leads into its pages. */
  lemma OnlyChild(n0: seq<Node>, nodes: seq<Node>, home: seq<Home>, k: set<nat>, lp: Entry, v: nat, l: pos, b: nat)
    requires ShapeIn(n0, home, k) && ShapeIn(nodes, home, k) && lp.ptr < |n0| == |nodes| && v < P_L2_SIZE && lp.skip == 1
    requires home[lp.ptr] == Home(l - 1, b) && CompactedUpTo(n0, nodes, home, lp.ptr, P_L2_SIZE)
    requires Plain(n0, home, k, b, b + Span(l))
    requires n0[lp.ptr][v].ptr != PHYS_MAP_NODE_NIL
    requires forall j :: 0 <= j < P_L2_SIZE && j != v ==> n0[lp.ptr][j].ptr == PHYS_MAP_NODE_NIL
    ensures l > 1 && forall j :: 0 <= j < P_L2_SIZE && j != v ==> n0[lp.ptr][j] == NIL_ENTRY
    ensures nodes[lp.ptr][v].ptr != PHYS_MAP_NODE_NIL && nodes[lp.ptr][v].skip < l
    ensures EntryIn(home, Merged(lp, nodes[lp.ptr][v]), l, b, k)
    ensures Similar(n0, n0[lp.ptr][v], nodes, nodes[lp.ptr][v], l - 1, SlotStart(b, v, l - 1), SlotStart(b, v + 1, l - 1))
  {
    hide Span, Slot, SlotStart, Aligned, Similar, Walk;
    var p := lp.ptr;
    forall j | 0 <= j < P_L2_SIZE && j != v ensures l > 1 && n0[p][j] == NIL_ENTRY {
      assert SlotOk(n0, home, p, j, k);
    }
    var w := if v == 0 then 1 else 0;
    assert n0[p][w] == NIL_ENTRY && l > 1;
    assert SlotCompacted(n0, nodes, p, v, l - 1, b);
    assert SlotIn(nodes, home, p, v, k);
    SlotWithin(b, v, l - 1);
  }

  /** Every lookup ends in a section the tree was given, or in none. */
  lemma {:induction false} WalkLeaf(nodes: seq<Node>, home: seq<Home>, k: set<nat>, e: Entry, l: nat, b: nat, x: nat)
    requires ShapeIn(nodes, home, k) && EntryIn(home, e, l, b, k)
    ensures LeafOk(Walk(nodes, e, l, x), k)
    decreases l
  {
    hide Span, Slot, SlotStart, Aligned;
    if e.skip != 0 && e.ptr != PHYS_MAP_NODE_NIL {
      var j := Slot(x, l - e.skip);
      assert SlotIn(nodes, home, e.ptr, j, k);
      WalkLeaf(nodes, home, k, nodes[e.ptr][j], l - e.skip, SlotStart(home[e.ptr].base, j, l - e.skip), x);
    }
  }

  /** The tree stays well-formed when more sections may be mapped. */
  lemma ShapeGrows(nodes: seq<Node>, home: seq<Home>, k: set<nat>, k': set<nat>)
    requires Shape(nodes, home, k) && k <= k'
    ensures Shape(nodes, home, k')
  {
    hide Span, SlotStart, Aligned;
    forall n, j | 0 <= n < |nodes| && 0 <= j < P_L2_SIZE ensures SlotOk(nodes, home, n, j, k') {
      assert SlotOk(nodes, home, n, j, k);
    }
  }
}
