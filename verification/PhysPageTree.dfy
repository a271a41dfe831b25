/**
 The code that fills, compacts and searches the page tree in place (exec.c).  An
 entry that the source updates through a pointer is passed in and handed back.
 */
module PhysPageTree {
  import opened Basics
  import opened PhysPageMap

  class NodeArray {
    var nodes: seq<Node>
    var nodesNbAlloc: nat
    ghost var home: seq<Home>

    constructor ()
      ensures nodes == [] && home == [] && nodesNbAlloc == 0
    {
      nodes, home, nodesNbAlloc := [], [], 0;
    }

    /** phys_map_node_reserve */
    method Reserve(n: nat)
      modifies `nodesNbAlloc
      ensures |nodes| + n <= nodesNbAlloc && old(nodesNbAlloc) <= nodesNbAlloc
      ensures old(|nodes| + n <= nodesNbAlloc) ==> nodesNbAlloc == old(nodesNbAlloc)
    {
      if |nodes| + n > nodesNbAlloc {
        nodesNbAlloc := if nodesNbAlloc * 2 > 16 then nodesNbAlloc * 2 else 16;
        if nodesNbAlloc < |nodes| + n { nodesNbAlloc := |nodes| + n; }
      }
    }

    /** phys_map_node_alloc together with the leaf initialisation of a bottom node. */
    method Alloc(level: nat, ghost base: nat, ghost k: set<nat>) returns (ret: nat)
      requires Shape(nodes, home, k) && Aligned(base, level + 1)
      requires |nodes| < PHYS_MAP_NODE_NIL && |nodes| < nodesNbAlloc
      modifies `nodes, `home
      ensures ret == old(|nodes|) && |nodes| == old(|nodes|) + 1 && Shape(nodes, home, k)
      ensures home == old(home) + [Home(level, base)] && old(nodes) <= nodes
      ensures SameOutside(old(nodes), nodes, old(home), k, 0, 0)
      ensures AllAre(nodes, Entry(1, ret), level + 1, base, base + Span(level + 1), PHYS_SECTION_UNASSIGNED)
    {
      ret := |nodes|;
      assert ret != PHYS_MAP_NODE_NIL && ret != nodesNbAlloc;
      var fill := if level == 0 then Entry(0, PHYS_SECTION_UNASSIGNED) else NIL_ENTRY;
      var nd: Node := seq(P_L2_SIZE, i => fill);
      ghost var n0, h0 := nodes, home;
      nodes := nodes + [nd];
      home := home + [Home(level, base)];
      hide Span, Slot, SlotStart, Aligned;
      forall n, j | 0 <= n < |nodes| && 0 <= j < P_L2_SIZE ensures SlotOk(nodes, home, n, j, k) {
        if n < |n0| { assert SlotOk(n0, h0, n, j, k); }
      }
      forall e: Entry, l: nat, b: nat, x: nat | EntryOk(h0, e, l, b, k)
        ensures Walk(nodes, e, l, x) == Walk(n0, e, l, x)
      {
        AppendUnseen(n0, h0, k, nd, e, l, b, x);
      }
      ghost var i := level + 1;
      forall x: nat ensures Walk(nodes, Entry(1, ret), i, x) == PHYS_SECTION_UNASSIGNED {
        assert nodes[ret][Slot(x, level)] == fill;
        assert Walk(nodes, fill, level, x) == PHYS_SECTION_UNASSIGNED;
      }
    }

    /** One turn of the loop in phys_page_set_level, for slot `j` of the node of `lp`:
        a slot wholly covered becomes a leaf, any other is filled a level down. */
    method FillSlot(lp: Entry, index0: nat, nb0: nat, leaf: nat, level: nat, ghost base: nat, ghost k: set<nat>, j: nat)
      returns (index: nat, nb: nat)
      requires Shape(nodes, home, k) && lp.skip == 1 && lp.ptr < |nodes| && home[lp.ptr] == Home(level, base)
      requires j < P_L2_SIZE && SlotStart(base, j, level) <= index0 < SlotStart(base, j + 1, level) && nb0 > 0
      requires leaf in k && leaf != PHYS_SECTION_UNASSIGNED
      requires EndsUncut(nodes, nodes[lp.ptr][j], level, index0, nb0, SlotStart(base, j + 1, level))
      requires |nodes| + SlotNeed(index0, nb0, level, base, j) <= nodesNbAlloc
      requires |nodes| + SlotNeed(index0, nb0, level, base, j) <= PHYS_MAP_NODE_NIL
      modifies `nodes, `home
      ensures index + nb == index0 + nb0
      ensures index == Min(index0 + nb0, SlotStart(base, j + 1, level))
      ensures Shape(nodes, home, k) && old(home) <= home
      ensures |nodes| <= old(|nodes|) + SlotNeed(index0, nb0, level, base, j)
      ensures SameOutside(old(nodes), nodes, old(home), k, index0, index)
      ensures SlotFilled(old(nodes), nodes, old(home), lp.ptr, j)
      ensures AllAre(nodes, lp, level + 1, index0, index, leaf)
      decreases level, 0
    {
      hide Slot, Walk, Aligned;
      var p := lp.ptr;
      ghost var n0, h0 := nodes, home;
      ghost var b := SlotStart(base, j, level);
      SlotStartSucc(base, j, level);
      SlotIs(index0, base, j, level);
      assert SlotOk(nodes, home, p, j, k);
      if Aligned(index0, level) && nb0 >= Span(level) {
        AlignedIsStart(index0, base, j, level);
        Stored(nodes, home, k, p, j, Entry(0, leaf), b, b + Span(level));
        LeafIsAll(nodes, leaf, level, b, b + Span(level));
        StoredReads(nodes, home, k, p, j, Entry(0, leaf), b, b + Span(level), leaf);
        nodes := nodes[p := nodes[p][j := Entry(0, leaf)]];
        assert lp == Entry(1, p);
        index, nb := index0 + Span(level), nb0 - Span(level);
      } else {
        SlotAligned(base, j, level);
        var e, e' := nodes[p][j], NIL_ENTRY;
        PartHasNoLeaf(nodes, e, level, b, index0, nb0);
        e', index, nb := SetLevel(e, index0, nb0, leaf, level - 1, b, k);
        ghost var n1, h1 := nodes, home;
        NodeNotInSlot(base, j, level);
        assert nodes[p][j] == e && AgreeOutside(nodes, home, p, j, e', index0, index);
        Stored(nodes, home, k, p, j, e', index0, index);
        StoredReads(nodes, home, k, p, j, e', index0, index, leaf);
        nodes := nodes[p := nodes[p][j := e']];
        SameOutsideTrans(n0, n1, nodes, h0, h1, k, index0, index, index0, index, index0, index);
        assert lp == Entry(1, p);
      }
    }

    /** The loop of phys_page_set_level over the slots of the node of `lp`. */
    method FillSlots(lp: Entry, index0: nat, nb0: nat, leaf: nat, level: nat, ghost base: nat, ghost k: set<nat>)
      returns (index: nat, nb: nat)
      requires Shape(nodes, home, k) && lp.skip == 1 && lp.ptr < |nodes| && home[lp.ptr] == Home(level, base)
      requires Aligned(base, level + 1) && base <= index0 < base + Span(level + 1) && nb0 > 0
      requires leaf in k && leaf != PHYS_SECTION_UNASSIGNED
      requires EndsUncut(nodes, lp, level + 1, index0, nb0, base + Span(level + 1))
      requires |nodes| + Need(index0 != base, index0 + nb0 < base + Span(level + 1), level) - 1 <= nodesNbAlloc
      requires |nodes| + Need(index0 != base, index0 + nb0 < base + Span(level + 1), level) - 1 <= PHYS_MAP_NODE_NIL
      modifies `nodes, `home
      ensures index + nb == index0 + nb0 && index == Min(index0 + nb0, base + Span(level + 1))
      ensures Shape(nodes, home, k) && old(home) <= home
      ensures |nodes| < old(|nodes|) + Need(index0 != base, index0 + nb0 < base + Span(level + 1), level)
      ensures SameOutside(old(nodes), nodes, old(home), k, index0, index)
      ensures Untouched(old(nodes), nodes, old(home), base, base + Span(level + 1))
      ensures AllAre(nodes, lp, level + 1, index0, index, leaf)
      decreases level, 1
    {
      hide Slot, Walk, SlotStart, Aligned, Span, EndsUncut, SlotFilled, Untouched;
      ghost var n1, h1 := nodes, home;
      ghost var end := base + Span(level + 1);
      index, nb := index0, nb0;
      SlotOf(index0, base, level);
      var j: nat := Slot(index0, level);
      while nb > 0 && j < P_L2_SIZE
        invariant Shape(nodes, home, k) && h1 <= home && j <= P_L2_SIZE
        invariant index0 <= index <= end && index + nb == index0 + nb0
        invariant nb > 0 ==> SlotStart(base, j, level) <= index
        invariant nb > 0 && index > index0 ==> index == SlotStart(base, j, level)
        invariant nb > 0 && j < P_L2_SIZE ==> index < SlotStart(base, j + 1, level)
        invariant j == P_L2_SIZE && nb > 0 ==> index == end
        invariant SameOutside(n1, nodes, h1, k, index0, index)
        invariant FilledUpTo(n1, nodes, h1, lp.ptr, j)
        invariant AllAre(nodes, lp, level + 1, index0, index, leaf)
        invariant |nodes| <= |n1| + Spent(index0, nb0, index, base, level)
      {
        SlotStartSucc(base, j, level);
        SlotStartMono(base, j + 1, P_L2_SIZE, level);
        SlotStartMono(base, 0, j, level);
        SlotNeedWithin(index0, nb0, index, nb, level, base, j);
        ghost var n2, h2, i2 := nodes, home, index;
        NextUncut(n1, h1, nodes, k, lp, level, base, j, index0, index, index0 + nb0);
        index, nb := FillSlot(lp, index, nb, leaf, level, base, k, j);
        SameOutsideTrans(n1, n2, nodes, h1, h2, k, index0, i2, i2, index, index0, index);
        SameOutsideEntry(n2, nodes, h2, k, lp, level + 1, base, i2, index);
        FilledNext(n1, n2, nodes, h1, h2, lp.ptr, j);
        j := j + 1;
        SlotStartSucc(base, j, level);
      }
      FilledUntouched(n1, nodes, h1, lp.ptr, j);
    }

    /** phys_page_set_level: give the pages [index0, index0 + nb0) that fall under entry
        `lp` to section `leaf`.  At most Need(..) nodes are allocated. */
    method SetLevel(lp: Entry, index0: nat, nb0: nat, leaf: nat, level: nat, ghost base: nat, ghost k: set<nat>)
      returns (lp': Entry, index: nat, nb: nat)
      requires Shape(nodes, home, k) && EntryOk(home, lp, level + 1, base, k) && lp.skip == 1
      requires Aligned(base, level + 1) && base <= index0 < base + Span(level + 1) && nb0 > 0
      requires leaf in k && leaf != PHYS_SECTION_UNASSIGNED
      requires EndsUncut(nodes, lp, level + 1, index0, nb0, base + Span(level + 1))
      requires |nodes| + Need(index0 != base, index0 + nb0 < base + Span(level + 1), level) <= nodesNbAlloc
      requires |nodes| + Need(index0 != base, index0 + nb0 < base + Span(level + 1), level) <= PHYS_MAP_NODE_NIL
      modifies `nodes, `home
      ensures index + nb == index0 + nb0 && index == Min(index0 + nb0, base + Span(level + 1))
      ensures Shape(nodes, home, k) && old(home) <= home && EntryOk(home, lp', level + 1, base, k)
      ensures lp'.skip == 1
      ensures |nodes| <= old(|nodes|) + Need(index0 != base, index0 + nb0 < base + Span(level + 1), level)
      ensures SameOutside(old(nodes), nodes, old(home), k, index0, index)
      ensures Untouched(old(nodes), nodes, old(home), base, base + Span(level + 1))
      ensures AllAre(nodes, lp', level + 1, index0, index, leaf)
      ensures SameBut(old(nodes), lp, nodes, lp', level + 1, base, base + Span(level + 1), index0, index)
      decreases level, 2
    {
      hide Slot, Walk, SlotStart, Aligned, Span;
      ghost var n0, h0 := nodes, home;
      ghost var end := base + Span(level + 1);
      lp' := lp;
      if lp.ptr == PHYS_MAP_NODE_NIL {
        var ret := Alloc(level, base, k);
        lp' := Entry(1, ret);
        assert lp == NIL_ENTRY;
        NilIsUnassigned(n0, level + 1, base, end);
        FreshUncut(nodes, home, k, lp', level + 1, base, index0, nb0);
      }
      ghost var n1, h1 := nodes, home;
      assert SameBut(n0, lp, n1, lp', level + 1, base, end, 0, 0);
      index, nb := FillSlots(lp', index0, nb0, leaf, level, base, k);
      SameOutsideTrans(n0, n1, nodes, h0, h1, k, index0, index0, index0, index, index0, index);
      SameOutsideEntry(n1, nodes, h1, k, lp', level + 1, base, index0, index);
    }

    /** phys_page_set: at most 2 * P_L2_LEVELS - 1 nodes are allocated, so after the
        reserve the node array does not grow while entries are being filled. */
    method Set(root: Entry, index: nat, nb: nat, leaf: nat, ghost k: set<nat>) returns (root': Entry)
      requires Shape(nodes, home, k) && EntryOk(home, root, P_L2_LEVELS, 0, k) && root.skip == 1
      requires nb > 0 && index + nb <= Span(P_L2_LEVELS) && leaf in k && leaf != PHYS_SECTION_UNASSIGNED
      requires EndsUncut(nodes, root, P_L2_LEVELS, index, nb, Span(P_L2_LEVELS))
      requires |nodes| + 2 * P_L2_LEVELS - 1 <= PHYS_MAP_NODE_NIL
      modifies this
      ensures Shape(nodes, home, k) && EntryOk(home, root', P_L2_LEVELS, 0, k) && root'.skip == 1
      ensures |nodes| <= old(|nodes|) + 2 * P_L2_LEVELS - 1
      ensures old(|nodes| + 3 * P_L2_LEVELS <= nodesNbAlloc) ==> nodesNbAlloc == old(nodesNbAlloc)
      ensures AllAre(nodes, root', P_L2_LEVELS, index, index + nb, leaf)
      ensures SameBut(old(nodes), root, nodes, root', P_L2_LEVELS, 0, Span(P_L2_LEVELS), index, index + nb)
    {
      Reserve(3 * P_L2_LEVELS);
      assert Aligned(0, P_L2_LEVELS);
      hide Span, Walk;
      var i, n := index, nb;
      root', i, n := SetLevel(root, index, nb, leaf, P_L2_LEVELS - 1, 0, k);
    }

    /** The loop of phys_page_find, before the range check. */
    method Find(root: Entry, index: nat, ghost k: set<nat>) returns (ptr: nat)
      requires ShapeIn(nodes, home, k) && EntryIn(home, root, P_L2_LEVELS, 0, k)
      ensures ptr == Walk(nodes, root, P_L2_LEVELS, index)
    {
      var lp, i: nat := root, P_L2_LEVELS;
      ghost var b: nat := 0;
      while lp.skip != 0 && i >= lp.skip
        invariant EntryIn(home, lp, i, b, k)
        invariant Walk(nodes, root, P_L2_LEVELS, index) == Walk(nodes, lp, i, index)
        decreases i
      {
        i := i - lp.skip;
        if lp.ptr == PHYS_MAP_NODE_NIL { return PHYS_SECTION_UNASSIGNED; }
        var j := Slot(index, i);
        assert SlotIn(nodes, home, lp.ptr, j, k);
        b := SlotStart(home[lp.ptr].base, j, i);
        lp := nodes[lp.ptr][j];
      }
      ptr := lp.ptr;
    }

    /** phys_page_compact on an entry for the Span(l) pages from `b`. */
    method Compact(lp: Entry, ghost l: nat, ghost b: nat, ghost k: set<nat>) returns (lp': Entry)
      requires ShapeIn(nodes, home, k) && EntryOk(home, lp, l, b, k) && lp.skip == 1 && Aligned(b, l)
      requires Plain(nodes, home, k, b, b + Span(l))
      modifies `nodes
      ensures ShapeIn(nodes, home, k) && EntryIn(home, lp', l, b, k)
      ensures lp.ptr == PHYS_MAP_NODE_NIL ==> lp' == lp
      ensures lp.ptr != PHYS_MAP_NODE_NIL ==> lp'.ptr != PHYS_MAP_NODE_NIL
      ensures forall n :: 0 <= n < |nodes| && !Inside(home[n], b, b + Span(l)) ==> nodes[n] == old(nodes)[n]
      ensures Similar(old(nodes), lp, nodes, lp', l, b, b + Span(l))
      decreases l
    {
      hide Span, SlotStart, Slot, Aligned, Walk;
      ghost var n0 := nodes;
      lp' := lp;
      if lp.ptr == PHYS_MAP_NODE_NIL { return; }
      var p := lp.ptr;
      var validPtr: nat, valid: nat, i: nat := P_L2_SIZE, 0, 0;
      SlotStartSucc(b, 0, l - 1);
      while i < P_L2_SIZE
        invariant i <= P_L2_SIZE && |nodes| == |n0|
        invariant ShapeIn(nodes, home, k) && CompactedUpTo(n0, nodes, home, p, i)
        invariant valid == 0 ==> forall j :: 0 <= j < i ==> n0[p][j].ptr == PHYS_MAP_NODE_NIL
        invariant valid == 1 ==> validPtr < i && n0[p][validPtr].ptr != PHYS_MAP_NODE_NIL
        invariant valid == 1 ==> forall j :: 0 <= j < i && j != validPtr ==> n0[p][j].ptr == PHYS_MAP_NODE_NIL
        invariant valid <= i
      {
        var e := nodes[p][i];
        var e' := e;
        ghost var n1 := nodes;
        PlainSlot(n0, nodes, home, k, p, i);
        if e.ptr != PHYS_MAP_NODE_NIL {
          validPtr, valid := i, valid + 1;
          if e.skip != 0 {
            e' := Compact(e, l - 1, SlotStart(b, i, l - 1), k);
          }
        }
        SlotCompactedNext(n0, n1, nodes, home, k, p, i, e');
        nodes := nodes[p := nodes[p][i := e']];
        i := i + 1;
      }
      CompactedSimilar(n0, nodes, home, lp, l, b);
      if valid != 1 { return; }
      OnlyChild(n0, nodes, home, k, lp, validPtr, l, b);
      var c := nodes[p][validPtr];
      if lp.skip + c.skip >= 8 { return; }
      MergedSimilar(n0, nodes, lp, validPtr, l, b);
      lp' := Merged(lp, c);
    }
  }
}
