/**
 The loops of block-migration.c on sectors: how the bulk cursor walks a device,
 how block_save_complete finds and sends every dirty chunk, and how one chunk
 travels from blk_send to block_load.
 */
module BlockSaver {
  import opened Basics
  import opened BlockMigration

  /** BDRV_SECTORS_PER_DIRTY_CHUNK */
  const CHUNK: nat := 2048

  type Sector = seq<byte>

  function Chunks(total: nat): nat { (total + CHUNK - 1) / CHUNK }

  /** The sectors of the chunk that starts at `sector`; the last one may be short. */
  function NrSectors(total: nat, sector: nat): nat
    requires sector <= total
  {
    if total - sector < CHUNK then total - sector else CHUNK
  }

  // ----- one chunk on the wire -----

  /** What blk_send writes after the sector number and device name. */
  datatype Sent = ZeroBlock | Buffer(buf: seq<Sector>)

  predicate IsZero(s: Sector) { forall b <- s :: b == 0 }

  function ZeroSector(): Sector { seq(512, _ => 0) }

  lemma ZeroIsUnique(s: Sector)
    requires IsZero(s) && |s| == 512
    ensures s == ZeroSector()
  {
    forall i | 0 <= i < 512 ensures s[i] == 0 { assert s[i] in s; }
  }

  /** A buffer of a whole chunk, of which the first `nr` sectors were read. */
  predicate BufferOk(buf: seq<Sector>) {
    |buf| == CHUNK && forall s <- buf :: |s| == 512
  }

  function BlkSend(zeroBlocks: bool, buf: seq<Sector>): Sent {
    if zeroBlocks && forall s <- buf :: IsZero(s) then ZeroBlock else Buffer(buf)
  }

  /** What block_load writes at `sector` of a device of `total` sectors. */
  function BlockLoad(total: nat, sector: nat, m: Sent): seq<Sector>
    requires sector <= total && (m.Buffer? ==> BufferOk(m.buf))
  {
    var nr := NrSectors(total, sector);
    if m.ZeroBlock? then seq(nr, _ => ZeroSector()) else m.buf[..nr]
  }

  /** The destination writes the sectors that were read and no others, whatever the rest
      of the buffer holds and whether or not zero blocks are detected. */
  lemma ChunkArrives(total: nat, sector: nat, zeroBlocks: bool, buf: seq<Sector>)
    requires sector <= total && BufferOk(buf)
    ensures BlockLoad(total, sector, BlkSend(zeroBlocks, buf)) == buf[..NrSectors(total, sector)]
  {
    var nr := NrSectors(total, sector);
    if BlkSend(zeroBlocks, buf).ZeroBlock? {
      forall i | 0 <= i < nr ensures buf[i] == ZeroSector() {
        assert buf[i] in buf;
        ZeroIsUnique(buf[i]);
      }
    }
  }

  // ----- the bulk phase of one device -----

  class BulkCursor {
    const total: nat
    var curSector: nat
    var completed: nat
    var dirty: set<nat>      // dirty chunks of the device

    constructor (total: nat)
      ensures this.total == total && Valid() && Cursor() == 0 && dirty == {}
    {
      this.total, curSector, completed, dirty := total, 0, 0, {};
    }

    ghost predicate Valid()
      reads this
    {
      curSector == total || (curSector < total && curSector % CHUNK == 0)
    }

    /** The first chunk that has not been read. */
    function Cursor(): nat
      reads this
    {
      if curSector >= total then Chunks(total) else curSector / CHUNK
    }

    /** mig_save_device_bulk without a shared base: reads exactly the next chunk and
        clears its dirty bit. */
    method SaveDeviceBulk() returns (done: bool, issued: Option<(nat, nat)>)
      requires Valid()
      modifies this
      ensures Valid() && done == (Cursor() == Chunks(total))
      ensures if old(Cursor()) < Chunks(total)
        then var c := old(Cursor());
          && Cursor() == c + 1 && dirty == old(dirty) - {c} && c * CHUNK < total
          && issued == Some((c * CHUNK, NrSectors(total, c * CHUNK)))
        else Cursor() == old(Cursor()) && dirty == old(dirty) && issued == None
    {
      if curSector >= total {
        curSector, completed := total, total;
        return true, None;
      }
      completed := curSector;
      var cur := curSector / CHUNK * CHUNK;
      var nr := CHUNK;
      if total - cur < CHUNK {
        nr := total - cur;
      }
      issued := Some((cur, nr));
      dirty := dirty - {cur / CHUNK};
      curSector := cur + nr;
      done := curSector >= total;
    }
  }

  // ----- completion -----

  class SyncSaver {
    const total: seq<nat>            // sectors per device
    const src: Disk                  // the guest is stopped
    var dst: Disk
    var dirty: set<Chunk>
    var curDirty: seq<nat>

    constructor (total: seq<nat>, src: Disk, dst: Disk, dirty: set<Chunk>)
      ensures this.total == total && this.src == src && this.dst == dst && this.dirty == dirty && |curDirty| == |total|
    {
      this.total, this.src, this.dst, this.dirty := total, src, dst, dirty;
      curDirty := seq(|total|, _ => 0);
    }

    /** The dirty cursors are on chunk boundaries and nothing before them is dirty. */
    ghost predicate Valid()
      reads this
    {
      && |curDirty| == |total|
      && (forall d :: 0 <= d < |total| ==> curDirty[d] % CHUNK == 0)
      && (forall k <- dirty :: k.dev < |total| && curDirty[k.dev] / CHUNK <= k.index < Chunks(total[k.dev]))
    }

    /** One chunk has been sent: its destination copy is now current. */
    ghost predicate SentOne(dst0: Disk, dirty0: set<Chunk>, k: Chunk)
      reads this
    {
      k in dirty0 && dirty == dirty0 - {k} && forall x :: dst(x) == if x == k then src(k) else dst0(x)
    }

    /** mig_save_device_dirty, synchronous: sends the first dirty chunk of the device, and
        reports the device finished exactly if there is none. */
    method SaveDeviceDirty(d: nat) returns (done: bool)
      requires Valid() && d < |total|
      modifies `dst, `dirty, `curDirty
      ensures Valid()
      ensures done ==> dst == old(dst) && dirty == old(dirty) && forall k <- dirty :: k.dev != d
      ensures !done ==> exists k: Chunk :: k.dev == d && SentOne(old(dst), old(dirty), k)
    {
      var sector := curDirty[d];
      while sector < total[d]
        invariant Valid() && sector == curDirty[d] && dst == old(dst) && dirty == old(dirty)
        decreases total[d] - sector
      {
        var k := Chunk(d, sector / CHUNK);
        if k in dirty {
          dst := Put(dst, k, src(k));
          dirty := dirty - {k};
          assert SentOne(old(dst), old(dirty), k);
          return false;
        }
        NextChunk(sector);
        sector := sector + CHUNK;
        curDirty := curDirty[d := sector];
      }
      PastEnd(total[d], sector);
      done := true;
    }

    /** blk_mig_save_dirty_block */
    method SaveDirtyBlock() returns (done: bool)
      requires Valid()
      modifies `dst, `dirty, `curDirty
      ensures Valid()
      ensures done ==> dst == old(dst) && dirty == old(dirty) == {}
      ensures !done ==> exists k :: SentOne(old(dst), old(dirty), k)
    {
      var d := 0;
      while d < |total|
        invariant 0 <= d <= |total| && Valid() && dst == old(dst) && dirty == old(dirty)
        invariant forall k <- dirty :: k.dev >= d
      {
        done := SaveDeviceDirty(d);
        if !done { return; }
        d := d + 1;
      }
      done := true;
    }

    /** The loop of block_save_complete: every dirty chunk is sent, and only those. */
    method SaveComplete()
      requires |curDirty| == |total|
      requires forall k <- dirty :: k.dev < |total| && k.index < Chunks(total[k.dev])
      modifies `dst, `dirty, `curDirty
      ensures dirty == {}
      ensures forall k :: dst(k) == if k in old(dirty) then src(k) else old(dst)(k)
    {
      curDirty := seq(|total|, _ => 0);
      var done := false;
      while !done
        invariant Valid() && dirty <= old(dirty) && (done ==> dirty == {})
        invariant forall k :: dst(k) == if k in old(dirty) - dirty then src(k) else old(dst)(k)
        decreases !done, |dirty|
      {
        ghost var dst0, dirty0 := dst, dirty;
        done := SaveDirtyBlock();
        if !done {
          ghost var k :| SentOne(dst0, dirty0, k);
        }
      }
    }
  }

  lemma NextChunk(sector: nat)
    requires sector % CHUNK == 0
    ensures (sector + CHUNK) % CHUNK == 0 && (sector + CHUNK) / CHUNK == sector / CHUNK + 1
  {}

  lemma PastEnd(total: nat, sector: nat)
    requires sector % CHUNK == 0 && sector >= total
    ensures sector / CHUNK >= Chunks(total)
  {}

  /** Sending the dirty chunks of a stopped guest once the queue is flushed makes the
      destination equal to the source. */
  lemma CompletionCopies(size: seq<nat>, s: State, dst: Disk, k: Chunk)
    requires Inv(size, s) && s.stopped && s.queue == [] && s.sending == None && OnDevice(size, k)
    requires dst(k) == if k in s.dirty then s.src(k) else s.dst(k)
    ensures dst(k) == s.src(k)
  {
    assert Safe(size, s, k);
  }
}
