/**
 The list of RAM blocks (exec.c): where a new block is placed in the ram_addr_t
 space, how the list is kept sorted, and the most-recently-used shortcut of the
 lookup.  ram_addr_t is an unsigned 64-bit integer.
 */
module RamList {
  import opened Basics

  const RAM_ADDR_MAX: nat := 0xffff_ffff_ffff_ffff
  const TWO_64: nat := 0x1_0000_0000_0000_0000

  datatype RamBlock = RamBlock(offset: nat, length: nat)

  function End(b: RamBlock): nat { b.offset + b.length }

  predicate Within(b: RamBlock, addr: nat) { b.offset <= addr < End(b) }

  predicate BlockOk(b: RamBlock) { 0 < b.length && End(b) <= RAM_ADDR_MAX }

  predicate Apart(a: RamBlock, b: RamBlock) { End(a) <= b.offset || End(b) <= a.offset }

  /** Nonempty blocks that do not overlap, the longest first. */
  ghost predicate Ok(blocks: seq<RamBlock>) {
    && (forall b <- blocks :: BlockOk(b))
    && (forall i, j :: 0 <= i < j < |blocks| ==> Apart(blocks[i], blocks[j]))
    && (forall i, j :: 0 <= i < j < |blocks| ==> blocks[i].length >= blocks[j].length)
  }

  /** `addr - block->offset < block->length` in unsigned arithmetic */
  predicate Hit(b: RamBlock, addr: nat) { (addr - b.offset) % TWO_64 < b.length }

  lemma HitIsWithin(b: RamBlock, addr: nat)
    requires BlockOk(b) && addr <= RAM_ADDR_MAX
    ensures Hit(b, addr) <==> Within(b, addr)
  {
    assert addr >= b.offset ==> (addr - b.offset) % TWO_64 == addr - b.offset;
    assert addr < b.offset ==> (addr - b.offset) % TWO_64 == addr - b.offset + TWO_64;
  }

  // ----- gaps -----

  /** The start of the first block from `end` on, or the end of the address space. */
  function NextOffset(blocks: seq<RamBlock>, end: nat): nat {
    if blocks == [] then RAM_ADDR_MAX
    else
      var n := |blocks| - 1;
      var r := NextOffset(blocks[..n], end);
      if blocks[n].offset >= end && blocks[n].offset < r then blocks[n].offset else r
  }

  lemma {:induction false} NextOffsetIs(blocks: seq<RamBlock>, end: nat)
    ensures var r := NextOffset(blocks, end);
      && r <= RAM_ADDR_MAX && (forall b <- blocks :: b.offset >= end ==> r <= b.offset)
      && (r == RAM_ADDR_MAX || exists b <- blocks :: b.offset == r && r >= end)
  {
    if blocks != [] {
      var n := |blocks| - 1;
      NextOffsetIs(blocks[..n], end);
      assert blocks == blocks[..n] + [blocks[n]];
    }
  }

  /** The free space behind block `i`. */
  function Gap(blocks: seq<RamBlock>, i: nat): int
    requires i < |blocks|
  {
    NextOffset(blocks, End(blocks[i])) - End(blocks[i])
  }

  predicate Fits(blocks: seq<RamBlock>, size: nat, i: nat)
    requires i < |blocks|
  {
    Gap(blocks, i) >= size
  }

  /** Block `i` is the first of the first `n` with a smallest gap that holds `size`. */
  ghost predicate Best(blocks: seq<RamBlock>, size: nat, n: nat, i: nat)
    requires n <= |blocks|
  {
    && i < n && Fits(blocks, size, i)
    && (forall j :: 0 <= j < n && Fits(blocks, size, j) ==> Gap(blocks, i) <= Gap(blocks, j))
    && (forall j :: 0 <= j < i && Fits(blocks, size, j) ==> Gap(blocks, i) < Gap(blocks, j))
  }

  ghost predicate BestSoFar(blocks: seq<RamBlock>, size: nat, n: nat, best: Option<nat>)
    requires n <= |blocks|
  {
    if best.Some? then Best(blocks, size, n, best.value) else forall j :: 0 <= j < n ==> !Fits(blocks, size, j)
  }

  lemma BestStep(blocks: seq<RamBlock>, size: nat, n: nat, best: Option<nat>)
    requires n < |blocks| && BestSoFar(blocks, size, n, best)
    ensures best.Some? ==> best.value < n
    ensures BestSoFar(blocks, size, n + 1,
      if Gap(blocks, n) >= size && (best.Some? ==> Gap(blocks, n) < Gap(blocks, best.value)) then Some(n) else best)
  {
    hide Gap;
  }

  lemma GapBound(blocks: seq<RamBlock>, i: nat)
    requires Ok(blocks) && i < |blocks|
    ensures 0 <= Gap(blocks, i) < RAM_ADDR_MAX && End(blocks[i]) <= RAM_ADDR_MAX
  {
    hide NextOffset;
    NextOffsetIs(blocks, End(blocks[i]));
    assert BlockOk(blocks[i]);
  }

  /** A block placed behind block `i`, in a gap that holds it, overlaps none. */
  lemma GapIsFree(blocks: seq<RamBlock>, size: nat, i: nat)
    requires Ok(blocks) && i < |blocks| && Fits(blocks, size, i) && size > 0
    ensures var b := RamBlock(End(blocks[i]), size); BlockOk(b) && forall c <- blocks :: Apart(b, c)
  {
    hide NextOffset;
    NextOffsetIs(blocks, End(blocks[i]));
    var b := RamBlock(End(blocks[i]), size);
    forall c <- blocks ensures Apart(b, c) {
      if c.offset < End(blocks[i]) {
        var j :| 0 <= j < |blocks| && blocks[j] == c;
        assert BlockOk(c);
        if j < i { assert Apart(blocks[j], blocks[i]); } else if j > i { assert Apart(blocks[i], blocks[j]); }
      }
    }
  }

  // ----- the sorted list -----

  /** Position of the first block that is shorter. */
  function Place(blocks: seq<RamBlock>, length: nat): (i: nat)
    ensures i <= |blocks| && (forall j :: 0 <= j < i ==> blocks[j].length >= length)
    ensures i < |blocks| ==> blocks[i].length < length
  {
    if blocks == [] || blocks[0].length < length then 0 else 1 + Place(blocks[1..], length)
  }

  function Insert(blocks: seq<RamBlock>, b: RamBlock): seq<RamBlock> {
    var i := Place(blocks, b.length);
    blocks[..i] + [b] + blocks[i..]
  }

  lemma InsertKeepsOk(blocks: seq<RamBlock>, b: RamBlock)
    requires Ok(blocks) && BlockOk(b) && forall c <- blocks :: Apart(b, c)
    ensures Ok(Insert(blocks, b)) && forall c :: c in Insert(blocks, b) <==> c in blocks || c == b
  {
    hide Place;
    var i := Place(blocks, b.length);
    var r := Insert(blocks, b);
    forall j, k | 0 <= j < k < |r| ensures Apart(r[j], r[k]) && r[j].length >= r[k].length {
      var j', k' := if j < i then j else j - 1, if k < i then k else k - 1;
      if j == i { assert r[k] == blocks[k'] && r[k] in blocks; }
      else if k == i { assert r[j] == blocks[j'] && r[j] in blocks; }
      else { assert r[j] == blocks[j'] && r[k] == blocks[k']; assert Apart(blocks[j'], blocks[k']); }
    }
    assert forall c :: c in blocks ==> c in blocks[..i] || c in blocks[i..];
  }

  /** The first block at `addr` is taken out. */
  function Remove(blocks: seq<RamBlock>, addr: nat): seq<RamBlock> {
    if blocks == [] then [] else if blocks[0].offset == addr then blocks[1..] else [blocks[0]] + Remove(blocks[1..], addr)
  }

  lemma {:induction false} RemoveKeepsOk(blocks: seq<RamBlock>, addr: nat)
    requires Ok(blocks)
    ensures Ok(Remove(blocks, addr)) && forall c :: c in Remove(blocks, addr) <==> c in blocks && c.offset != addr
  {
    if blocks != [] {
      var rest := blocks[1..];
      assert Ok(rest);
      RemoveKeepsOk(rest, addr);
      assert forall c <- rest :: Apart(blocks[0], c) && blocks[0].length >= c.length;
      assert forall c <- blocks :: BlockOk(c);
      if blocks[0].offset == addr {
        forall c <- rest ensures c.offset != addr { assert BlockOk(c) && BlockOk(blocks[0]); }
      } else {
        ConsOk(blocks[0], Remove(rest, addr));
      }
    }
  }

  lemma ConsOk(b: RamBlock, blocks: seq<RamBlock>)
    requires Ok(blocks) && BlockOk(b) && forall c <- blocks :: Apart(b, c) && b.length >= c.length
    ensures Ok([b] + blocks)
  {
    var r := [b] + blocks;
    forall i, j | 0 <= i < j < |r| ensures Apart(r[i], r[j]) && r[i].length >= r[j].length {
      if i == 0 { assert r[j] in blocks; } else { assert Apart(blocks[i - 1], blocks[j - 1]); }
    }
  }

  /** At most one block holds an address. */
  lemma OneHolder(blocks: seq<RamBlock>, b: RamBlock, c: RamBlock, addr: nat)
    requires Ok(blocks) && b in blocks && c in blocks && Within(b, addr) && Within(c, addr)
    ensures b == c
  {
    var i :| 0 <= i < |blocks| && blocks[i] == b;
    var j :| 0 <= j < |blocks| && blocks[j] == c;
    AllApart(blocks, i, j);
  }

  lemma AllApart(blocks: seq<RamBlock>, i: nat, j: nat)
    requires Ok(blocks) && i < |blocks| && j < |blocks|
    ensures i < j ==> Apart(blocks[i], blocks[j])
    ensures j < i ==> Apart(blocks[j], blocks[i])
  {}

  // ----- allocation, release and lookup over any sequence -----

  datatype Op = Alloc(length: nat) | Free(addr: nat)

  /** Where ram_block_add puts a block, unless find_ram_offset aborts. */
  ghost predicate Placed(blocks: seq<RamBlock>, size: nat, offset: nat) {
    if blocks == [] then offset == 0
    else exists i :: 0 <= i < |blocks| && Best(blocks, size, |blocks|, i) && offset == End(blocks[i])
  }

  ghost predicate Next(blocks: seq<RamBlock>, op: Op, blocks': seq<RamBlock>) {
    match op
    case Alloc(length) => exists offset: nat :: Placed(blocks, length, offset) && blocks' == Insert(blocks, RamBlock(offset, length))
    case Free(addr) => blocks' == Remove(blocks, addr)
  }

  lemma PlacedIsFree(blocks: seq<RamBlock>, size: nat, offset: nat)
    requires Ok(blocks) && 0 < size <= RAM_ADDR_MAX && Placed(blocks, size, offset)
    ensures BlockOk(RamBlock(offset, size)) && forall c <- blocks :: Apart(RamBlock(offset, size), c)
  {
    if blocks != [] {
      var i :| 0 <= i < |blocks| && Best(blocks, size, |blocks|, i) && offset == End(blocks[i]);
      GapIsFree(blocks, size, i);
    }
  }

  lemma NextKeepsOk(blocks: seq<RamBlock>, op: Op, blocks': seq<RamBlock>)
    requires Ok(blocks) && Next(blocks, op, blocks') && (op.Alloc? ==> 0 < op.length <= RAM_ADDR_MAX)
    ensures Ok(blocks')
  {
    hide Ok, Insert, Remove, Placed;
    match op
    case Alloc(length) =>
      var offset: nat :| Placed(blocks, length, offset) && blocks' == Insert(blocks, RamBlock(offset, length));
      PlacedIsFree(blocks, length, offset);
      InsertKeepsOk(blocks, RamBlock(offset, length));
    case Free(addr) => RemoveKeepsOk(blocks, addr);
  }

  /** Every list reached from the empty one by allocations and releases is in order. */
  lemma {:induction false} RunKeepsOk(states: seq<seq<RamBlock>>, ops: seq<Op>)
    requires |states| == |ops| + 1 && Ok(states[0])
    requires forall i :: 0 <= i < |ops| ==> Next(states[i], ops[i], states[i + 1])
    requires forall op <- ops :: op.Alloc? ==> 0 < op.length <= RAM_ADDR_MAX
    ensures forall i :: 0 <= i < |states| ==> Ok(states[i])
  {
    if ops != [] {
      NextKeepsOk(states[0], ops[0], states[1]);
      RunKeepsOk(states[1..], ops[1..]);
      forall i | 0 <= i < |states| ensures Ok(states[i]) {
        assert i > 0 ==> states[i] == states[1..][i - 1];
      }
    }
  }

  lemma NoneSoFar(blocks: seq<RamBlock>, size: nat)
    ensures BestSoFar(blocks, size, 0, None)
  {}

  lemma GapIs(blocks: seq<RamBlock>, i: nat)
    requires i < |blocks|
    ensures Gap(blocks, i) == NextOffset(blocks, End(blocks[i])) - End(blocks[i])
  {}

  lemma BestIsPlaced(blocks: seq<RamBlock>, size: nat, best: Option<nat>)
    requires blocks != [] && BestSoFar(blocks, size, |blocks|, best)
    ensures best.Some? ==> best.value < |blocks| && Placed(blocks, size, End(blocks[best.value]))
    ensures best.None? ==> forall i :: 0 <= i < |blocks| ==> !Fits(blocks, size, i)
  {}

  lemma {:induction false} RemovedAt(blocks: seq<RamBlock>, i: nat, addr: nat)
    requires i <= |blocks| && (forall j :: 0 <= j < i ==> blocks[j].offset != addr) && (i < |blocks| ==> blocks[i].offset == addr)
    ensures Remove(blocks, addr) == if i < |blocks| then blocks[..i] + blocks[i + 1..] else blocks
  {
    if i > 0 {
      RemovedAt(blocks[1..], i - 1, addr);
      if i < |blocks| {
        assert blocks[1..][..i - 1] == blocks[1..i] && blocks[1..][i..] == blocks[i + 1..];
        assert blocks[..i] == [blocks[0]] + blocks[1..i];
      }
    }
  }

  class RamBlocks {
    var blocks: seq<RamBlock>
    var mru: Option<RamBlock>
    var version: nat

    constructor ()
      ensures Valid() && blocks == []
    {
      blocks, mru, version := [], None, 0;
    }

    ghost predicate Valid()
      reads this
    {
      Ok(blocks) && (mru.Some? ==> mru.value in blocks)
    }

    /** find_ram_offset: the end of the first block with a smallest gap that holds `size`;
        none exactly if no gap behind a block does. */
    method FindRamOffset(size: nat) returns (offset: Option<nat>)
      requires Valid() && 0 < size <= RAM_ADDR_MAX
      ensures offset.Some? ==> Placed(blocks, size, offset.value)
      ensures offset.None? ==> blocks != [] && forall i :: 0 <= i < |blocks| ==> !Fits(blocks, size, i)
    {
      if blocks == [] { return Some(0); }
      hide NextOffset, Ok, Gap, BestSoFar, Placed, Fits, End;
      var mingap := RAM_ADDR_MAX;
      offset := None;
      var i := 0;
      ghost var best: Option<nat> := None;
      NoneSoFar(blocks, size);
      while i < |blocks|
        invariant 0 <= i <= |blocks| && BestSoFar(blocks, size, i, best) && best.Some? == offset.Some?
        invariant best.Some? ==> best.value < i && offset.value == End(blocks[best.value]) && mingap == Gap(blocks, best.value)
        invariant best.None? ==> mingap == RAM_ADDR_MAX
      {
        GapBound(blocks, i);
        BestStep(blocks, size, i, best);
        var end := End(blocks[i]);
        var next := NextFrom(end);
        GapIs(blocks, i);
        if next - end >= size && next - end < mingap {
          offset, mingap, best := Some(end), next - end, Some(i);
        }
        i := i + 1;
      }
      BestIsPlaced(blocks, size, best);
    }

    /** The inner loop of find_ram_offset. */
    method NextFrom(end: nat) returns (next: nat)
      ensures next == NextOffset(blocks, end)
    {
      next := RAM_ADDR_MAX;
      var i := 0;
      while i < |blocks|
        invariant 0 <= i <= |blocks| && next == NextOffset(blocks[..i], end)
      {
        assert blocks[..i + 1][..i] == blocks[..i];
        if blocks[i].offset >= end && blocks[i].offset < next {
          next := blocks[i].offset;
        }
        i := i + 1;
      }
      assert blocks[..i] == blocks;
    }

    /** ram_block_add: the new block, or none where find_ram_offset aborts. */
    method RamBlockAdd(length: nat) returns (offset: Option<nat>)
      requires Valid() && 0 < length <= RAM_ADDR_MAX
      modifies this
      ensures Valid()
      ensures if offset.Some? then Placed(old(blocks), length, offset.value) && blocks == Insert(old(blocks), RamBlock(offset.value, length))
        else blocks == old(blocks) && blocks != [] && forall i :: 0 <= i < |blocks| ==> !Fits(blocks, length, i)
      ensures version == if offset.Some? then old(version) + 1 else old(version)
    {
      hide Ok, NextOffset, Fits, Placed;
      offset := FindRamOffset(length);
      if offset.None? { return; }
      var b := RamBlock(offset.value, length);
      PlacedIsFree(blocks, length, offset.value);
      InsertKeepsOk(blocks, b);
      var i := 0;
      while i < |blocks| && blocks[i].length >= length
        invariant 0 <= i <= |blocks| && Place(blocks, length) == i + Place(blocks[i..], length)
      {
        i := i + 1;
      }
      blocks := blocks[..i] + [b] + blocks[i..];
      mru := None;
      version := version + 1;
    }

    /** qemu_ram_free: the block at `addr`, if any, leaves the list. */
    method RamFree(addr: nat)
      requires Valid()
      modifies this
      ensures Valid() && blocks == Remove(old(blocks), addr)
      ensures forall b :: b in blocks <==> b in old(blocks) && b.offset != addr
      ensures if |blocks| == old(|blocks|) then mru == old(mru) && version == old(version) else mru == None && version == old(version) + 1
    {
      hide Ok, Remove;
      RemoveKeepsOk(blocks, addr);
      var i := 0;
      while i < |blocks| && blocks[i].offset != addr
        invariant 0 <= i <= |blocks| && forall j :: 0 <= j < i ==> blocks[j].offset != addr
      {
        i := i + 1;
      }
      RemovedAt(blocks, i, addr);
      if i < |blocks| {
        blocks := blocks[..i] + blocks[i + 1..];
        mru := None;
        version := version + 1;
      }
    }

    /** qemu_get_ram_block: the only block that holds the address, whatever the shortcut
        remembers; none where it aborts. */
    method GetRamBlock(addr: nat) returns (r: Option<RamBlock>)
      requires Valid() && addr <= RAM_ADDR_MAX
      modifies `mru
      ensures Valid()
      ensures r.Some? ==> r.value in blocks && forall b <- blocks :: Within(b, addr) <==> b == r.value
      ensures r.None? ==> forall b <- blocks :: !Within(b, addr)
      ensures mru == if r.Some? then r else old(mru)
    {
      forall b <- blocks ensures Hit(b, addr) <==> Within(b, addr) { HitIsWithin(b, addr); }
      hide Hit, Within, Ok;
      if mru.Some? && Hit(mru.value, addr) {
        forall b <- blocks ensures Within(b, addr) <==> b == mru.value {
          if Within(b, addr) { OneHolder(blocks, b, mru.value, addr); }
        }
        return mru;
      }
      var i := 0;
      while i < |blocks|
        invariant 0 <= i <= |blocks| && mru == old(mru) && forall j :: 0 <= j < i ==> !Within(blocks[j], addr)
      {
        if Hit(blocks[i], addr) {
          forall b <- blocks ensures Within(b, addr) <==> b == blocks[i] {
            if Within(b, addr) { OneHolder(blocks, b, blocks[i], addr); }
          }
          mru := Some(blocks[i]);
          return mru;
        }
        i := i + 1;
      }
      r := None;
    }
  }
}
