/**
 A kdump-compressed vmcore (dump.c): bitmaps, page descriptors and page data, as
 they are written through buffers, and that the finished file is consistent.
 */
module Kdump {
  import opened Basics
  import opened KdumpBitmap
  import opened KdumpDescriptor

  const BUFSIZE_DATA_CACHE: nat := 4096

  /** The dump's byte order, and the chosen compression with its flag. */
  datatype Format = Format(
    big: bool, compress: seq<Byte> -> Option<seq<Byte>>, uncompress: seq<Byte> -> Option<seq<Byte>>, flag: nat)

  ghost predicate FormatOk(fmt: Format) {
    && 0 < fmt.flag < Power(4)
    && (forall p :: fmt.compress(p).Some? ==> fmt.uncompress(fmt.compress(p).value) == Some(p))
  }

  /** A format that compresses the pages of one repeated byte; DUMP_DH_COMPRESSED_ZLIB is 1. */
  function UniformFormat(big: bool): Format {
    Format(big,
           p => if |p| == PAGE_SIZE && forall b <- p :: b == p[0] then Some([p[0]]) else None,
           z => if |z| == 1 then Some(seq(PAGE_SIZE, _ => z[0])) else None,
           1)
  }

  lemma UniformFormatOk(big: bool)
    ensures FormatOk(UniformFormat(big))
  {
    var fmt := UniformFormat(big);
    Powers();
    forall p | fmt.compress(p).Some? ensures fmt.uncompress(fmt.compress(p).value) == Some(p) {
      var u := seq(PAGE_SIZE, _ => p[0]);
      forall i | 0 <= i < PAGE_SIZE ensures u[i] == p[i] { assert p[i] in p; }
      assert u == p;
    }
  }

  /** What a reader of the dump makes of page data. */
  function Decode(fmt: Format, flags: nat, b: seq<Byte>): Option<seq<Byte>> {
    if flags == 0 then Some(b) else fmt.uncompress(b)
  }

  // ----- buffered output -----

  /** A DataCache: `pending` bytes that go to `offset` of the file. */
  datatype Cache = Cache(offset: nat, pending: seq<Byte>)

  function End(c: Cache): nat { c.offset + |c.pending| }

  /** The file with the caches for descriptors and page data. */
  datatype Core = Core(file: File, desc: Cache, data: Cache)

  predicate Holds(c: Cache, x: nat) { c.offset <= x < End(c) }

  /** Byte `x` of the file once both caches are flushed. */
  function Read(v: Core, x: nat): Byte {
    if Holds(v.data, x) then v.data.pending[x - v.data.offset]
    else if Holds(v.desc, x) then v.desc.pending[x - v.desc.offset]
    else v.file(x)
  }

  function Slice(v: Core, at: nat, n: nat): (s: seq<Byte>)
    ensures |s| == n
  {
    seq(n, i requires 0 <= i => Read(v, at + i))
  }

  /** write_cache without flag_sync */
  function Append(f: File, c: Cache, b: seq<Byte>): (File, Cache) {
    if |c.pending| + |b| > BUFSIZE_DATA_CACHE then (Write(f, c.offset, c.pending), Cache(End(c), b))
    else (f, Cache(c.offset, c.pending + b))
  }

  /** write_cache with flag_sync */
  function Sync(f: File, c: Cache): (File, Cache) {
    if |c.pending| > 0 then (Write(f, c.offset, c.pending), Cache(End(c), [])) else (f, c)
  }

  function AppendDesc(v: Core, b: seq<Byte>): Core { var r := Append(v.file, v.desc, b); Core(r.0, r.1, v.data) }
  function AppendData(v: Core, b: seq<Byte>): Core { var r := Append(v.file, v.data, b); Core(r.0, v.desc, r.1) }
  function SyncBoth(v: Core): Core {
    var d := Sync(v.file, v.desc);
    var p := Sync(d.0, v.data);
    Core(p.0, d.1, p.1)
  }

  /** Byte `x` after `b` has been put at `at`. */
  function Put(v: Core, at: nat, b: seq<Byte>, x: nat): Byte {
    if at <= x < at + |b| then b[x - at] else Read(v, x)
  }

  /** Whether or not the cache is flushed on the way, appending adds the bytes at its end. */
  lemma DataAppends(v: Core, b: seq<Byte>, x: nat)
    requires End(v.desc) <= v.data.offset
    ensures Read(AppendData(v, b), x) == Put(v, End(v.data), b, x)
    ensures End(AppendData(v, b).data) == End(v.data) + |b| && AppendData(v, b).data.offset >= v.data.offset
  {}

  lemma DescAppends(v: Core, b: seq<Byte>, x: nat)
    requires End(v.desc) + |b| <= v.data.offset
    ensures Read(AppendDesc(v, b), x) == Put(v, End(v.desc), b, x)
    ensures End(AppendDesc(v, b).desc) == End(v.desc) + |b| && AppendDesc(v, b).desc.offset >= v.desc.offset
  {}

  lemma SyncKeeps(v: Core, x: nat)
    requires End(v.desc) <= v.data.offset
    ensures SyncBoth(v).file(x) == Read(v, x) && Read(SyncBoth(v), x) == Read(v, x)
  {}

  // ----- pages -----

  /** The descriptor at `at` names a range between `lo` and `hi` that decodes to `page`. */
  ghost predicate PageOk(fmt: Format, v: Core, at: nat, lo: nat, hi: nat, page: seq<Byte>) {
    var d := GetDesc(fmt.big, Slice(v, at, DESC_SIZE));
    && lo <= d.offset && d.offset + d.size <= hi
    && Decode(fmt, d.flags, Slice(v, d.offset, d.size)) == Some(page)
  }

  lemma PageKept(fmt: Format, v: Core, v': Core, at: nat, lo: nat, hi: nat, hi': nat, page: seq<Byte>)
    requires PageOk(fmt, v, at, lo, hi, page) && hi <= hi'
    requires forall x: nat :: at <= x < at + DESC_SIZE || lo <= x < hi ==> Read(v', x) == Read(v, x)
    ensures PageOk(fmt, v', at, lo, hi', page)
  {
    hide Read, Decode, GetDesc;
    assert Slice(v', at, DESC_SIZE) == Slice(v, at, DESC_SIZE);
    var d := GetDesc(fmt.big, Slice(v, at, DESC_SIZE));
    assert Slice(v', d.offset, d.size) == Slice(v, d.offset, d.size);
  }

  /** The first `n` pages are described from `descs` on, their data lies from `datas` on,
      starting with a page of zeroes. */
  ghost predicate Pages(fmt: Format, v: Core, descs: nat, datas: nat, mem: nat -> seq<Byte>, frames: seq<nat>, n: nat) {
    && n <= |frames|
    && v.desc.offset >= descs && End(v.desc) == descs + DESC_SIZE * n
    && datas <= v.data.offset && datas + PAGE_SIZE <= End(v.data) && descs + DESC_SIZE * |frames| <= datas
    && Slice(v, datas, PAGE_SIZE) == ZeroBuf()
    && forall k :: 0 <= k < n ==> PageOk(fmt, v, descs + DESC_SIZE * k, datas, End(v.data), mem(frames[k]))
  }

  /** Nothing below the descriptors is touched. */
  ghost predicate Untouched(v: Core, v': Core, descs: nat) { forall x: nat :: x < descs ==> Read(v', x) == Read(v, x) }

  lemma PutSlice(v: Core, v': Core, at: nat, b: seq<Byte>)
    requires forall x: nat :: Read(v', x) == Put(v, at, b, x)
    ensures Slice(v', at, |b|) == b
  {
    hide Read;
  }

  /** Page data is added at the end: what is described so far stays. */
  lemma DataStep(fmt: Format, v: Core, descs: nat, datas: nat, mem: nat -> seq<Byte>, frames: seq<nat>, n: nat, b: seq<Byte>)
    requires Pages(fmt, v, descs, datas, mem, frames, n)
    ensures var v' := AppendData(v, b);
      && Pages(fmt, v', descs, datas, mem, frames, n) && Untouched(v, v', descs)
      && End(v'.data) == End(v.data) + |b| && Slice(v', End(v.data), |b|) == b
  {
    hide Read, PageOk;
    var v' := AppendData(v, b);
    forall x: nat ensures Read(v', x) == Put(v, End(v.data), b, x) { DataAppends(v, b, x); }
    DataAppends(v, b, 0);
    PutSlice(v, v', End(v.data), b);
    assert Slice(v', datas, PAGE_SIZE) == Slice(v, datas, PAGE_SIZE);
    forall k | 0 <= k < n ensures PageOk(fmt, v', descs + DESC_SIZE * k, datas, End(v'.data), mem(frames[k])) {
      PageKept(fmt, v, v', descs + DESC_SIZE * k, datas, End(v.data), End(v'.data), mem(frames[k]));
    }
  }

  /** A descriptor for data that is already there is added. */
  lemma DescStep(fmt: Format, v: Core, descs: nat, datas: nat, mem: nat -> seq<Byte>, frames: seq<nat>, n: nat, d: Desc)
    requires Pages(fmt, v, descs, datas, mem, frames, n) && n < |frames| && DescOk(d)
    requires datas <= d.offset && d.offset + d.size <= End(v.data)
    requires Decode(fmt, d.flags, Slice(v, d.offset, d.size)) == Some(mem(frames[n]))
    ensures var v' := AppendDesc(v, PutDesc(fmt.big, d));
      Pages(fmt, v', descs, datas, mem, frames, n + 1) && Untouched(v, v', descs) && v'.data == v.data
  {
    hide Read, Decode, GetDesc, PutDesc;
    var b := PutDesc(fmt.big, d);
    DescRoundTrip(fmt.big, d);
    var v' := AppendDesc(v, b);
    forall x: nat ensures Read(v', x) == Put(v, End(v.desc), b, x) { DescAppends(v, b, x); }
    DescAppends(v, b, 0);
    PutSlice(v, v', End(v.desc), b);
    assert Slice(v', datas, PAGE_SIZE) == Slice(v, datas, PAGE_SIZE);
    assert Slice(v', d.offset, d.size) == Slice(v, d.offset, d.size);
    forall k | 0 <= k < n + 1 ensures PageOk(fmt, v', descs + DESC_SIZE * k, datas, End(v'.data), mem(frames[k])) {
      if k < n { PageKept(fmt, v, v', descs + DESC_SIZE * k, datas, End(v.data), End(v'.data), mem(frames[k])); }
    }
  }
}
