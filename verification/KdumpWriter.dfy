/** The passes of dump.c that write a kdump-compressed vmcore. */
module KdumpWriter {
  import opened Basics
  import opened KdumpBitmap
  import opened KdumpDescriptor
  import opened Kdump

  function DivUp(n: nat, d: pos): nat { (n + d - 1) / d }

  /** get_max_mapnr */
  function MaxMapnr(blocks: seq<Block>): nat
    requires blocks != []
  {
    blocks[|blocks| - 1].end / PAGE_SIZE
  }

  /** len_dump_bitmap as dump_init computes it */
  function LenBitmap(blocks: seq<Block>): nat
    requires blocks != []
  {
    DivUp(DivUp(MaxMapnr(blocks), 8), PAGE_SIZE) * PAGE_SIZE
  }

  /** offset_page as the header writers compute it */
  function OffsetPage(subHdrSize: nat, len: nat): nat { (1 + subHdrSize + DivUp(len, PAGE_SIZE) * 2) * PAGE_SIZE }

  function OffsetBitmap(subHdrSize: nat): nat { (1 + subHdrSize) * PAGE_SIZE }

  /** The descriptors start where the second bitmap ends. */
  lemma AreasMeet(subHdrSize: nat, blocks: seq<Block>)
    requires blocks != []
    ensures OffsetPage(subHdrSize, LenBitmap(blocks)) == OffsetBitmap(subHdrSize) + 2 * LenBitmap(blocks)
  {
    hide MaxMapnr;
    var n := DivUp(DivUp(MaxMapnr(blocks), 8), PAGE_SIZE);
    assert DivUp(n * PAGE_SIZE, PAGE_SIZE) == n;
  }

  predicate Ascending(s: seq<nat>) {
    forall i, j :: 0 <= i < j < |s| ==> s[i] < s[j]
  }

  lemma AscendingAppend(a: seq<nat>, b: seq<nat>, m: nat)
    requires Ascending(a) && Ascending(b) && (forall x <- a :: x < m) && (forall x <- b :: m <= x)
    ensures Ascending(a + b)
  {
    var c := a + b;
    forall i, j | 0 <= i < j < |c| ensures c[i] < c[j] {
      if i < |a| && |a| <= j { assert c[i] in a && c[j] in b; }
    }
  }

  lemma {:induction false} FramesAscend(blocks: seq<Block>)
    requires Sorted(blocks)
    ensures Ascending(Frames(blocks))
  {
    if blocks != [] {
      var n := |blocks| - 1;
      var rest, last := blocks[..n], blocks[n];
      FramesAscend(rest);
      assert BlockOk(last);
      forall p <- Frames(rest) ensures p < First(last) {
        FramesPresent(rest, p);
        var b :| b in rest && First(b) <= p < Limit(b);
        assert b.end <= last.start;
      }
      AscendingAppend(Frames(rest), seq(Limit(last) - First(last), i requires i >= 0 => First(last) + i), First(last));
    }
  }

  lemma AscendingAt(fs: seq<nat>, n: nat)
    requires Ascending(fs) && n < |fs|
    ensures fs[n] <= fs[|fs| - 1] && (n > 0 ==> fs[n - 1] <= fs[n])
  {}

  /** The last frame is in the last part of the bitmap, which has a buffer per part. */
  lemma LastFrame(blocks: seq<Block>)
    requires blocks != [] && Sorted(blocks)
    ensures var fs := Frames(blocks);
      && fs != [] && fs[|fs| - 1] == MaxMapnr(blocks) - 1
      && PAGE_SIZE * (Part(fs[|fs| - 1]) + 1) == LenBitmap(blocks)
  {
    var n := |blocks| - 1;
    var last := blocks[n];
    assert BlockOk(last);
    FrameAt(blocks, n, Limit(last) - 1);
    assert blocks[..n + 1] == blocks;
    Parts(MaxMapnr(blocks));
  }

  lemma Parts(n: nat)
    requires n > 0
    ensures Part(n - 1) + 1 == DivUp(DivUp(n, 8), PAGE_SIZE)
  {}

  /** Where the walk over the pages is after `n` of them. */
  predicate At(blocks: seq<Block>, iter: Option<nat>, pfn: nat, n: nat) {
    if n == 0 then iter == None
    else
      && iter.Some? && iter.value < |blocks| && First(blocks[iter.value]) <= pfn < Limit(blocks[iter.value])
      && n == Before(blocks, iter.value) + pfn - First(blocks[iter.value]) + 1
  }

  lemma WalkOver(blocks: seq<Block>, b: nat, pfn: nat)
    requires Sorted(blocks) && b < |blocks| && pfn + 1 == Limit(blocks[b]) && First(blocks[b]) <= pfn
    ensures var n := Before(blocks, b) + pfn - First(blocks[b]) + 1;
      if b + 1 == |blocks| then n == |Frames(blocks)|
      else n == Before(blocks, b + 1) && n < |Frames(blocks)| && Frames(blocks)[n] == First(blocks[b + 1])
  {
    hide Frames;
    assert BlockOk(blocks[b]);
    FrameAt(blocks, b, pfn);
    if b + 1 == |blocks| {
      assert blocks[..b + 1] == blocks;
    } else {
      assert BlockOk(blocks[b + 1]);
      FrameAt(blocks, b + 1, First(blocks[b + 1]));
    }
  }

  /** Both bitmaps have the bits of exactly the frames in guest memory. */
  ghost predicate Bitmaps(f: File, off: nat, len: nat, blocks: seq<Block>) {
    forall q: nat :: q < 8 * len ==> FileBit(f, off, q) == Present(blocks, q) && FileBit(f, off + len, q) == Present(blocks, q)
  }

  /** The finished file: both bitmaps have the bits of exactly the frames in guest memory,
      and the n-th descriptor leads to the n-th of those pages, behind all descriptors. */
  ghost predicate Consistent(fmt: Format, f: File, offBitmap: nat, len: nat, blocks: seq<Block>, mem: nat -> seq<Byte>, end: nat) {
    && Bitmaps(f, offBitmap, len, blocks)
    && forall k :: 0 <= k < |Frames(blocks)| ==>
         PageOk(fmt, Flat(f), offBitmap + 2 * len + DESC_SIZE * k, offBitmap + 2 * len + DESC_SIZE * |Frames(blocks)|, end,
                mem(Frames(blocks)[k]))
  }

  function Flat(f: File): Core { Core(f, Cache(0, []), Cache(0, [])) }

  function ToSet(s: seq<nat>): set<nat> { set p | p in s }

  /** All parts are in the file: the bitmaps say which frames are present. */
  lemma BitmapsDone(f: File, buf: seq<Byte>, blocks: seq<Block>, off: nat, len: nat, cur: nat)
    requires (forall b <- blocks :: BlockOk(b)) && len == PAGE_SIZE * cur
    requires Buffered(f, buf, off, len, ToSet(Frames(blocks)), cur)
    ensures Bitmaps(f, off, len, blocks)
  {
    hide Frames, FileBit, Present;
    forall q: nat | q < 8 * len ensures FileBit(f, off, q) == Present(blocks, q) && FileBit(f, off + len, q) == Present(blocks, q) {
      FramesPresent(blocks, q);
      assert Part(q) < cur;
    }
  }

  lemma BitsBelow(f: File, f': File, base: nat, limit: nat, q: nat)
    requires base + q / 8 < limit && forall x: nat :: x < limit ==> f'(x) == f(x)
    ensures FileBit(f', base, q) == FileBit(f, base, q)
  {}

  lemma {:induction false} AscendingLength(s: seq<nat>, m: nat)
    requires Ascending(s) && forall x <- s :: x < m
    ensures |s| <= m
  {
    if s != [] {
      var n := |s| - 1;
      forall x <- s[..n] ensures x < s[n] {
        var i :| 0 <= i < n && s[..n][i] == x;
        assert s[i] == x;
      }
      AscendingLength(s[..n], s[n]);
      assert s[n] in s;
    }
  }

  lemma LenBound(n: nat)
    ensures DivUp(DivUp(n, 8), PAGE_SIZE) * PAGE_SIZE <= n + 2 * PAGE_SIZE
  {}

  /** Every offset fits its field for guests of up to 2^48 page frames. */
  lemma OffsetsFit(blocks: seq<Block>, subHdrSize: nat)
    requires blocks != [] && Sorted(blocks) && MaxMapnr(blocks) <= 0x1_0000_0000_0000 && subHdrSize <= 0x1_0000_0000
    ensures OffsetBitmap(subHdrSize) + 2 * LenBitmap(blocks) + DESC_SIZE * |Frames(blocks)| + PAGE_SIZE * (|Frames(blocks)| + 1)
      <= Power(8)
  {
    hide Frames, Power, DivUp;
    Powers();
    FramesAscend(blocks);
    LastFrame(blocks);
    var fs := Frames(blocks);
    forall x <- fs ensures x < MaxMapnr(blocks) {
      var i :| 0 <= i < |fs| && fs[i] == x;
      AscendingAt(fs, i);
    }
    AscendingLength(fs, MaxMapnr(blocks));
    LenBound(MaxMapnr(blocks));
  }

  class Writer {
    const blocks: seq<Block>
    const mem: nat -> seq<Byte>           // contents of a page frame
    const fmt: Format
    const offBitmap: nat
    const len: nat
    var file: File
    var desc: Cache
    var data: Cache
    var numDumpable: nat

    constructor (blocks: seq<Block>, mem: nat -> seq<Byte>, fmt: Format, subHdrSize: nat, file: File)
      requires blocks != [] && Sorted(blocks)
      ensures this.blocks == blocks && this.mem == mem && this.fmt == fmt && Valid()
      ensures offBitmap == OffsetBitmap(subHdrSize) && this.file == file
    {
      this.blocks, this.mem, this.fmt, this.file := blocks, mem, fmt, file;
      offBitmap, len := OffsetBitmap(subHdrSize), LenBitmap(blocks);
      desc, data, numDumpable := Cache(0, []), Cache(0, []), 0;
    }

    ghost predicate Valid() { blocks != [] && Sorted(blocks) && len == LenBitmap(blocks) }

    /** Pages have their size, decompression undoes compression, and every file offset that
        a descriptor may need fits its 64-bit field. */
    ghost predicate Encodable() {
      && FormatOk(fmt) && (forall p :: |mem(p)| == PAGE_SIZE)
      && offBitmap + 2 * len + DESC_SIZE * |Frames(blocks)| + PAGE_SIZE * (|Frames(blocks)| + 1) <= Power(8)
    }

    ghost function View(): Core
      reads this
    {
      Core(file, desc, data)
    }

    /** get_next_page: page number `n` of the walk, if there is one. */
    method GetNextPage(iter: Option<nat>, pfn: nat, ghost n: nat) returns (more: bool, iter': Option<nat>, pfn': nat)
      requires Valid() && At(blocks, iter, pfn, n)
      ensures more == (n < |Frames(blocks)|)
      ensures more ==> pfn' == Frames(blocks)[n] && At(blocks, iter', pfn', n + 1)
    {
      hide Frames;
      if iter.None? {
        assert BlockOk(blocks[0]) && blocks[..0] == [];
        FrameAt(blocks, 0, First(blocks[0]));
        NoFrames();
        return true, Some(0), blocks[0].start / PAGE_SIZE;
      }
      var b := blocks[iter.value];
      assert BlockOk(b);
      var addr := (pfn + 1) * PAGE_SIZE;
      if addr >= b.start && addr + PAGE_SIZE <= b.end {
        FrameAt(blocks, iter.value, pfn + 1);
        return true, iter, pfn + 1;
      }
      WalkOver(blocks, iter.value, pfn);
      var next := iter.value + 1;
      if next == |blocks| {
        return false, None, pfn;
      }
      assert BlockOk(blocks[next]);
      return true, Some(next), blocks[next].start / PAGE_SIZE;
    }

    /** set_dump_bitmap: flushes the buffer for every part that is left behind, then sets
        the bit in the buffer. */
    method SetDumpBitmap(last: nat, pfn: nat, value: bool, buf: array<Byte>, ghost done: set<nat>)
      requires buf.Length == PAGE_SIZE && last <= pfn && PAGE_SIZE * Part(pfn) <= len
      requires Buffered(file, buf[..], offBitmap, len, done, Part(last))
      modifies `file, buf
      ensures Buffered(file, buf[..], offBitmap, len, Marked(done, pfn, value), Part(pfn))
    {
      hide Buffered, SetIn, FileBit, Marked;
      var old', new' := PAGE_SIZE * (last / PFN_BUFBITMAP), PAGE_SIZE * (pfn / PFN_BUFBITMAP);
      ghost var cur := Part(last);
      assert cur <= Part(pfn) && old' == PAGE_SIZE * cur && new' == PAGE_SIZE * Part(pfn);
      while old' < new'
        invariant old' == PAGE_SIZE * cur && cur <= Part(pfn) && Buffered(file, buf[..], offBitmap, len, done, cur)
        decreases new' - old'
      {
        FlushKeeps(file, buf[..], offBitmap, len, done, cur);
        file := Write(file, offBitmap + old', buf[..]);
        file := Write(file, offBitmap + len + old', buf[..]);
        forall i | 0 <= i < buf.Length { buf[i] := 0; }
        assert buf[..] == ZeroBuf();
        old', cur := old' + PAGE_SIZE, cur + 1;
      }
      SetKeeps(file, buf[..], offBitmap, len, done, pfn, value);
      ghost var was := buf[..];
      var i, bit := pfn % PFN_BUFBITMAP / 8, pfn % PFN_BUFBITMAP % 8;
      buf[i] := Updated(buf[i], bit, value);
      SetInIs(was, pfn, value, buf[..]);
    }

    /** write_dump_bitmap: both bitmaps get a bit per frame, set for those in guest memory. */
    method WriteDumpBitmap()
      requires Valid()
      modifies `file, `numDumpable
      ensures numDumpable == |Frames(blocks)|
      ensures Bitmaps(file, offBitmap, len, blocks)
    {
      hide Frames, Buffered, FileBit, Sorted, LenBitmap, MaxMapnr, Part, FormatOk, Bitmaps, At, Ascending, ToSet, Marked;
      ghost var fs, file0 := Frames(blocks), file;
      FramesAscend(blocks);
      LastFrame(blocks);
      SortedOk(blocks);
      StartAt(blocks);
      var buf := new Byte[PAGE_SIZE](_ => 0);
      assert buf[..] == ZeroBuf();
      BufferedStart(file, offBitmap, len);
      var iter: Option<nat>, pfn, last, n := None, 0, 0, 0;
      var more: bool;
      PartZero();
      ghost var done: set<nat> := {};
      MarkedNone(fs);
      more, iter, pfn := GetNextPage(iter, pfn, n);
      while more
        invariant n <= |fs| && more == (n < |fs|) && last == (if n == 0 then 0 else fs[n - 1])
        invariant done == ToSet(fs[..n]) && Buffered(file, buf[..], offBitmap, len, done, Part(last)) && buf.Length == PAGE_SIZE
        invariant more ==> pfn == fs[n] && At(blocks, iter, pfn, n + 1)
        decreases |fs| - n
      {
        AscendingAt(fs, n);
        PartGrows(pfn, fs[|fs| - 1]);
        SetDumpBitmap(last, pfn, true, buf, done);
        done := Marked(done, pfn, true);
        MarkedNext(fs, n);
        last := pfn;
        n := n + 1;
        more, iter, pfn := GetNextPage(iter, pfn, n);
      }
      assert fs[..n] == fs;
      NextPart(last);
      SetDumpBitmap(last, last + PFN_BUFBITMAP, false, buf, done);
      MarkedPast(fs, last);
      BitmapsDone(file, buf[..], blocks, offBitmap, len, Part(last) + 1);
      numDumpable := n;
    }

    /** write_cache on the descriptor cache. */
    method CacheDesc(b: seq<Byte>)
      requires |b| <= BUFSIZE_DATA_CACHE
      modifies `file, `desc
      ensures View() == AppendDesc(old(View()), b)
    {
      if |desc.pending| + |b| > BUFSIZE_DATA_CACHE {
        file := Write(file, desc.offset, desc.pending);
        desc := Cache(End(desc), []);
      }
      assert desc.pending == [] ==> desc.pending + b == b;
      desc := Cache(desc.offset, desc.pending + b);
    }

    /** write_cache on the page data cache. */
    method CacheData(b: seq<Byte>)
      requires |b| <= BUFSIZE_DATA_CACHE
      modifies `file, `data
      ensures View() == AppendData(old(View()), b)
    {
      if |data.pending| + |b| > BUFSIZE_DATA_CACHE {
        file := Write(file, data.offset, data.pending);
        data := Cache(End(data), []);
      }
      assert data.pending == [] ==> data.pending + b == b;
      data := Cache(data.offset, data.pending + b);
    }

    /** One page of the second pass: its data, unless it is all zeroes, and its descriptor. */
    method WritePage(pfn: nat, zero: Desc, offset: nat, ghost descs: nat, ghost datas: nat, ghost n: nat) returns (offset': nat)
      requires Encodable() && n < |Frames(blocks)| && pfn == Frames(blocks)[n] && zero == Desc(datas, PAGE_SIZE, 0)
      requires Pages(fmt, View(), descs, datas, mem, Frames(blocks), n) && offset == End(data)
      requires offset <= datas + PAGE_SIZE * (n + 1) && datas == offBitmap + 2 * len + DESC_SIZE * |Frames(blocks)|
      modifies `file, `desc, `data
      ensures Pages(fmt, View(), descs, datas, mem, Frames(blocks), n + 1) && offset' == End(data)
      ensures offset' <= datas + PAGE_SIZE * (n + 2)
      ensures Untouched(old(View()), View(), descs)
    {
      hide Frames, Pages, AppendDesc, AppendData, Untouched, Slice, Decode, Append, Power, PutDesc;
      Powers();
      var page := mem(pfn);
      var d := zero;
      offset' := offset;
      if page != ZeroBuf() {
        var z := fmt.compress(page);
        var b, flags := page, 0;
        if z.Some? && |z.value| < PAGE_SIZE {
          b, flags := z.value, fmt.flag;
        }
        DataStep(fmt, View(), descs, datas, mem, Frames(blocks), n, b);
        DecodesBack(fmt, page, b, flags);
        CacheData(b);
        d := Desc(offset, |b|, flags);
        offset' := offset + |b|;
      } else {
        DecodesBack(fmt, page, page, 0);
      }
      ghost var v := View();
      DataBounds(fmt, v, descs, datas, mem, Frames(blocks), n);
      DescStep(fmt, v, descs, datas, mem, Frames(blocks), n, d);
      CacheDesc(PutDesc(fmt.big, d));
      UntouchedTrans(old(View()), v, View(), descs);
    }

    /** write_dump_pages */
    method WriteDumpPages() returns (ghost end: nat)
      requires Valid() && Encodable() && numDumpable == |Frames(blocks)| && Bitmaps(file, offBitmap, len, blocks)
      modifies `file, `desc, `data
      ensures Consistent(fmt, file, offBitmap, len, blocks, mem, end)
    {
      hide Frames, Pages, Sorted, LenBitmap, AppendDesc, AppendData, Untouched, FormatOk, Consistent, Bitmaps, At, Power;
      ghost var file0, fs := file, Frames(blocks);
      var descs := offBitmap + 2 * len;
      var datas := descs + DESC_SIZE * numDumpable;
      desc, data := Cache(descs, []), Cache(datas, []);
      StartPages(fmt, View(), descs, datas, mem, fs);
      CacheData(ZeroBuf());
      var offset, zero := datas + PAGE_SIZE, Desc(datas, PAGE_SIZE, 0);
      ghost var v0 := View();
      StartAt(blocks);
      var iter: Option<nat>, pfn := None, 0;
      ghost var n := 0;
      var more: bool;
      UntouchedSelf(v0, descs);
      more, iter, pfn := GetNextPage(iter, pfn, n);
      while more
        invariant n <= |fs| && more == (n < |fs|) && offset == End(data) && Untouched(v0, View(), descs)
        invariant offset <= datas + PAGE_SIZE * (n + 1)
        invariant Pages(fmt, View(), descs, datas, mem, fs, n)
        invariant more ==> pfn == fs[n] && At(blocks, iter, pfn, n + 1)
        decreases |fs| - n
      {
        ghost var v := View();
        offset := WritePage(pfn, zero, offset, descs, datas, n);
        UntouchedTrans(v0, v, View(), descs);
        n := n + 1;
        more, iter, pfn := GetNextPage(iter, pfn, n);
      }
      ghost var v := View();
      end := End(data);
      if |desc.pending| > 0 {
        file := Write(file, desc.offset, desc.pending);
        desc := Cache(End(desc), []);
      }
      if |data.pending| > 0 {
        file := Write(file, data.offset, data.pending);
        data := Cache(End(data), []);
      }
      Finish(fmt, file0, v0, v, offBitmap, len, blocks, mem);
    }

    /** The two passes of create_kdump_vmcore over guest memory. */
    method CreateVmcore() returns (ghost end: nat)
      requires Valid() && Encodable()
      modifies this
      ensures Consistent(fmt, file, offBitmap, len, blocks, mem, end)
    {
      WriteDumpBitmap();
      end := WriteDumpPages();
    }
  }

  lemma DecodesBack(fmt: Format, page: seq<Byte>, b: seq<Byte>, flags: nat)
    requires FormatOk(fmt)
    requires if flags == 0 then b == page else flags == fmt.flag && fmt.compress(page) == Some(b)
    ensures Decode(fmt, flags, b) == Some(page)
  {}

  lemma DataBounds(fmt: Format, v: Core, descs: nat, datas: nat, mem: nat -> seq<Byte>, frames: seq<nat>, n: nat)
    requires Pages(fmt, v, descs, datas, mem, frames, n)
    ensures datas + PAGE_SIZE <= End(v.data) && Slice(v, datas, PAGE_SIZE) == ZeroBuf()
  {}

  lemma UntouchedSelf(v: Core, descs: nat)
    ensures Untouched(v, v, descs)
  {}

  lemma UntouchedTrans(u: Core, v: Core, w: Core, descs: nat)
    requires Untouched(u, v, descs) && Untouched(v, w, descs)
    ensures Untouched(u, w, descs)
  {}

  lemma StartPages(fmt: Format, v: Core, descs: nat, datas: nat, mem: nat -> seq<Byte>, frames: seq<nat>)
    requires v.desc == Cache(descs, []) && v.data == Cache(datas, []) && datas == descs + DESC_SIZE * |frames|
    ensures var v' := AppendData(v, ZeroBuf());
      && Pages(fmt, v', descs, datas, mem, frames, 0) && End(v'.data) == datas + PAGE_SIZE
      && forall x: nat :: x < descs ==> Read(v', x) == v.file(x)
  {
    var v' := AppendData(v, ZeroBuf());
    forall x: nat ensures Read(v', x) == Put(v, datas, ZeroBuf(), x) { DataAppends(v, ZeroBuf(), x); }
    PutSlice(v, v', datas, ZeroBuf());
  }

  /** Once both caches are flushed the file is consistent. */
  lemma Finish(fmt: Format, file0: File, v0: Core, v: Core, offBitmap: nat, len: nat, blocks: seq<Block>, mem: nat -> seq<Byte>)
    requires Bitmaps(file0, offBitmap, len, blocks)
    requires var descs := offBitmap + 2 * len; var datas := descs + DESC_SIZE * |Frames(blocks)|;
      && Pages(fmt, v, descs, datas, mem, Frames(blocks), |Frames(blocks)|) && Untouched(v0, v, descs)
      && forall x: nat :: x < descs ==> Read(v0, x) == file0(x)
    ensures Consistent(fmt, SyncBoth(v).file, offBitmap, len, blocks, mem, End(v.data))
  {
    hide Frames, FileBit, Read, SyncBoth, PageOk, Present;
    var descs, f := offBitmap + 2 * len, SyncBoth(v).file;
    var datas := descs + DESC_SIZE * |Frames(blocks)|;
    forall x: nat ensures f(x) == Read(v, x) && Read(Flat(f), x) == f(x) { SyncKeeps(v, x); FlatRead(f, x); }
    forall q: nat | q < 8 * len ensures FileBit(f, offBitmap, q) == FileBit(file0, offBitmap, q)
                                     && FileBit(f, offBitmap + len, q) == FileBit(file0, offBitmap + len, q) {
      BitsBelow(file0, f, offBitmap, descs, q);
      BitsBelow(file0, f, offBitmap + len, descs, q);
    }
    forall k | 0 <= k < |Frames(blocks)|
      ensures PageOk(fmt, Flat(f), descs + DESC_SIZE * k, datas, End(v.data), mem(Frames(blocks)[k]))
    {
      PageKept(fmt, v, Flat(f), descs + DESC_SIZE * k, datas, End(v.data), End(v.data), mem(Frames(blocks)[k]));
    }
  }

  lemma FlatRead(f: File, x: nat)
    ensures Read(Flat(f), x) == f(x)
  {}

  lemma NoFrames()
    ensures Frames([]) == []
  {}

  lemma PartZero()
    ensures Part(0) == 0
  {}

  lemma PartGrows(p: nat, q: nat)
    requires p <= q
    ensures Part(p) <= Part(q)
  {}

  lemma NextPart(p: nat)
    ensures Part(p + PFN_BUFBITMAP) == Part(p) + 1
  {}

  lemma SortedOk(blocks: seq<Block>)
    requires Sorted(blocks)
    ensures forall b <- blocks :: BlockOk(b)
  {}

  lemma StartAt(blocks: seq<Block>)
    ensures At(blocks, None, 0, 0)
  {}

  lemma MarkedNone(fs: seq<nat>)
    ensures ToSet(fs[..0]) == {}
  {}

  lemma MarkedNext(fs: seq<nat>, n: nat)
    requires n < |fs|
    ensures Marked(ToSet(fs[..n]), fs[n], true) == ToSet(fs[..n + 1])
  {
    assert fs[..n + 1] == fs[..n] + [fs[n]];
  }

  lemma MarkedPast(fs: seq<nat>, last: nat)
    requires fs != [] && last == fs[|fs| - 1] && Ascending(fs)
    ensures Marked(ToSet(fs), last + PFN_BUFBITMAP, false) == ToSet(fs)
  {
    forall i | 0 <= i < |fs| ensures fs[i] <= last {}
  }

  lemma SetInIs(was: seq<Byte>, pfn: nat, value: bool, now: seq<Byte>)
    requires |was| == PAGE_SIZE && var i := pfn % PFN_BUFBITMAP / 8; now == was[i := Updated(was[i], pfn % PFN_BUFBITMAP % 8, value)]
    ensures now == SetIn(was, pfn, value)
  {}

  lemma BufferedStart(f: File, off: nat, len: nat)
    ensures Buffered(f, ZeroBuf(), off, len, {}, 0)
  {
    forall q: nat ensures !BufBit(ZeroBuf(), q) { ZeroTest(q % 8); }
  }
}
