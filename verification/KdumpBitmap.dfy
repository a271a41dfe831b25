/**
 The page bitmaps of a kdump-compressed vmcore (dump.c): the walk over the guest's
 memory blocks and the buffered writer of the two bitmaps.  The flattened output
 format records an offset with every write, so the file is modelled as the bytes
 it is unpacked to.
 */
module KdumpBitmap {
  const PAGE_SIZE: nat := 1024
  const PFN_BUFBITMAP: nat := 8192     // frames in a bitmap buffer of PAGE_SIZE bytes

  type Byte = bv8
  type File = nat -> Byte

  function Write(f: File, at: nat, b: seq<Byte>): File {
    (x: nat) => if at <= x < at + |b| then b[x - at] else f(x)
  }

  // ----- bits -----

  function Bit(k: nat): Byte {
    if k == 0 then 0x01 else if k == 1 then 0x02 else if k == 2 then 0x04 else if k == 3 then 0x08
    else if k == 4 then 0x10 else if k == 5 then 0x20 else if k == 6 then 0x40 else 0x80
  }

  predicate Test(b: Byte, k: nat) { b & Bit(k) != 0 }

  function Updated(b: Byte, k: nat, value: bool): Byte { if value then b | Bit(k) else b & !Bit(k) }

  lemma UpdatedTest(b: Byte, k: nat, value: bool, j: nat)
    requires k < 8 && j < 8
    ensures Test(Updated(b, k, value), j) == if j == k then value else Test(b, j)
  {}

  lemma ZeroTest(j: nat)
    ensures !Test(0, j)
  {}

  /** Bit `q` of the bitmap that starts at byte `base` of the file. */
  predicate FileBit(f: File, base: nat, q: nat) { Test(f(base + q / 8), q % 8) }

  /** Bit `q` of a bitmap of which `buf` is the part that frame `q` belongs to. */
  predicate BufBit(buf: seq<Byte>, q: nat)
    requires |buf| == PAGE_SIZE
  {
    Test(buf[q % PFN_BUFBITMAP / 8], q % 8)
  }

  function Part(q: nat): nat { q / PFN_BUFBITMAP }

  // ----- guest memory -----

  /** A guest-physical block in bytes. */
  datatype Block = Block(start: nat, end: nat)

  predicate BlockOk(b: Block) { b.start < b.end && b.start % PAGE_SIZE == 0 && b.end % PAGE_SIZE == 0 }

  /** Page-aligned, nonempty blocks in ascending order. */
  predicate Sorted(blocks: seq<Block>) {
    && (forall b <- blocks :: BlockOk(b))
    && forall i, j :: 0 <= i < j < |blocks| ==> blocks[i].end <= blocks[j].start
  }

  function First(b: Block): nat { b.start / PAGE_SIZE }
  function Limit(b: Block): nat { b.end / PAGE_SIZE }

  predicate Present(blocks: seq<Block>, pfn: nat) { exists b <- blocks :: First(b) <= pfn < Limit(b) }

  /** The page frames of the blocks in ascending order. */
  function Frames(blocks: seq<Block>): seq<nat> {
    if blocks == [] then []
    else
      var last := blocks[|blocks| - 1];
      Frames(blocks[..|blocks| - 1]) + seq(if First(last) < Limit(last) then Limit(last) - First(last) else 0, i requires i >= 0 => First(last) + i)
  }

  lemma {:induction false} FramesPresent(blocks: seq<Block>, pfn: nat)
    requires forall b <- blocks :: BlockOk(b)
    ensures pfn in Frames(blocks) <==> Present(blocks, pfn)
  {
    if blocks != [] {
      var n := |blocks| - 1;
      var last := blocks[n];
      assert BlockOk(last);
      FramesPresent(blocks[..n], pfn);
      var s := seq(Limit(last) - First(last), i requires i >= 0 => First(last) + i);
      assert Frames(blocks) == Frames(blocks[..n]) + s;
      if First(last) <= pfn < Limit(last) { assert s[pfn - First(last)] == pfn; assert last in blocks; }
      assert Present(blocks, pfn) <==> Present(blocks[..n], pfn) || First(last) <= pfn < Limit(last);
    }
  }

  /** How many frames the blocks before block `b` have. */
  function Before(blocks: seq<Block>, b: nat): nat
    requires b <= |blocks|
  {
    |Frames(blocks[..b])|
  }

  lemma {:induction false} FramesPrefix(blocks: seq<Block>, b: nat)
    requires b <= |blocks|
    ensures Frames(blocks[..b]) <= Frames(blocks)
  {
    if b < |blocks| {
      var n := |blocks| - 1;
      FramesPrefix(blocks[..n], b);
      assert blocks[..n][..b] == blocks[..b];
    } else {
      assert blocks[..b] == blocks;
    }
  }

  /** Frame `pfn` of block `b` is the one after those of the blocks before and of the
      block itself below it. */
  lemma FrameAt(blocks: seq<Block>, b: nat, pfn: nat)
    requires b < |blocks| && BlockOk(blocks[b]) && First(blocks[b]) <= pfn < Limit(blocks[b])
    ensures Before(blocks, b) + pfn - First(blocks[b]) < |Frames(blocks)|
    ensures Frames(blocks)[Before(blocks, b) + pfn - First(blocks[b])] == pfn
    ensures Before(blocks, b + 1) == Before(blocks, b) + Limit(blocks[b]) - First(blocks[b])
  {
    assert blocks[..b + 1][..b] == blocks[..b];
    FramesPrefix(blocks, b + 1);
  }

  // ----- the bitmaps -----

  /** The parts before `cur` are in both bitmaps of the file and part `cur` is in the
      buffer; `done` are the frames whose bits are set. */
  ghost predicate Buffered(f: File, buf: seq<Byte>, off: nat, len: nat, done: set<nat>, cur: nat) {
    && |buf| == PAGE_SIZE
    && (forall q: nat :: Part(q) < cur ==> FileBit(f, off, q) == (q in done) && FileBit(f, off + len, q) == (q in done))
    && (forall q: nat :: Part(q) == cur ==> BufBit(buf, q) == (q in done))
    && forall q <- done :: Part(q) <= cur
  }

  function Flushed(f: File, buf: seq<Byte>, off: nat, len: nat, cur: nat): File {
    Write(Write(f, off + PAGE_SIZE * cur, buf), off + len + PAGE_SIZE * cur, buf)
  }

  function ZeroBuf(): seq<Byte> { seq(PAGE_SIZE, _ => 0) }

  lemma PartBytes(q: nat, cur: nat)
    ensures Part(q) < cur ==> q / 8 < PAGE_SIZE * cur
    ensures Part(q) == cur ==> q / 8 == PAGE_SIZE * cur + q % PFN_BUFBITMAP / 8 && q % PFN_BUFBITMAP / 8 < PAGE_SIZE
  {}

  lemma FlushedBit(f: File, buf: seq<Byte>, off: nat, len: nat, cur: nat, q: nat)
    requires |buf| == PAGE_SIZE && PAGE_SIZE * (cur + 1) <= len
    ensures Part(q) < cur ==> FileBit(Flushed(f, buf, off, len, cur), off, q) == FileBit(f, off, q)
    ensures Part(q) < cur ==> FileBit(Flushed(f, buf, off, len, cur), off + len, q) == FileBit(f, off + len, q)
    ensures Part(q) == cur ==> FileBit(Flushed(f, buf, off, len, cur), off, q) == BufBit(buf, q)
    ensures Part(q) == cur ==> FileBit(Flushed(f, buf, off, len, cur), off + len, q) == BufBit(buf, q)
  {
    hide Test, Part;
    PartBytes(q, cur);
  }

  lemma FlushKeeps(f: File, buf: seq<Byte>, off: nat, len: nat, done: set<nat>, cur: nat)
    requires Buffered(f, buf, off, len, done, cur) && PAGE_SIZE * (cur + 1) <= len
    ensures Buffered(Flushed(f, buf, off, len, cur), ZeroBuf(), off, len, done, cur + 1)
  {
    hide Test, Part, FileBit, Flushed;
    var f' := Flushed(f, buf, off, len, cur);
    forall q: nat | Part(q) < cur + 1 ensures FileBit(f', off, q) == (q in done) && FileBit(f', off + len, q) == (q in done) {
      FlushedBit(f, buf, off, len, cur, q);
    }
    forall q: nat | Part(q) == cur + 1 ensures BufBit(ZeroBuf(), q) == (q in done) {
      ZeroTest(q % 8);
    }
  }

  function SetIn(buf: seq<Byte>, pfn: nat, value: bool): (r: seq<Byte>)
    requires |buf| == PAGE_SIZE
    ensures |r| == PAGE_SIZE
  {
    var i := pfn % PFN_BUFBITMAP / 8;
    buf[i := Updated(buf[i], pfn % PFN_BUFBITMAP % 8, value)]
  }

  function Marked(done: set<nat>, pfn: nat, value: bool): set<nat> { if value then done + {pfn} else done - {pfn} }

  lemma Digits(q: nat)
    ensures q % PFN_BUFBITMAP % 8 == q % 8
    ensures q == PFN_BUFBITMAP * Part(q) + 8 * (q % PFN_BUFBITMAP / 8) + q % 8
  {
    var r := q % PFN_BUFBITMAP;
    assert q == 8 * (1024 * Part(q)) + r;
    assert r == 8 * (r / 8) + r % 8;
  }

  lemma SameSpot(q: nat, pfn: nat)
    requires Part(q) == Part(pfn)
    ensures pfn % PFN_BUFBITMAP % 8 == pfn % 8
    ensures q == pfn <==> q % PFN_BUFBITMAP / 8 == pfn % PFN_BUFBITMAP / 8 && q % 8 == pfn % 8
  {
    hide Part;
    Digits(q);
    Digits(pfn);
  }

  lemma SetInBit(buf: seq<Byte>, pfn: nat, value: bool, q: nat)
    requires |buf| == PAGE_SIZE && Part(q) == Part(pfn)
    ensures BufBit(SetIn(buf, pfn, value), q) == if q == pfn then value else BufBit(buf, q)
  {
    hide Test, Updated, Part;
    SameSpot(q, pfn);
    UpdatedTest(buf[pfn % PFN_BUFBITMAP / 8], pfn % 8, value, q % 8);
  }

  lemma SetKeeps(f: File, buf: seq<Byte>, off: nat, len: nat, done: set<nat>, pfn: nat, value: bool)
    requires Buffered(f, buf, off, len, done, Part(pfn))
    ensures Buffered(f, SetIn(buf, pfn, value), off, len, Marked(done, pfn, value), Part(pfn))
  {
    hide Part, FileBit, BufBit, SetIn;
    forall q: nat | Part(q) == Part(pfn) ensures BufBit(SetIn(buf, pfn, value), q) == (q in Marked(done, pfn, value)) {
      SetInBit(buf, pfn, value, q);
    }
  }
}
