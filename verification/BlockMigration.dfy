/**
 Live disk migration (block-migration.c) as a state machine over its atomic steps.

 The migration thread reads every chunk once in the bulk phase, then chunks that
 were written meanwhile, both with asynchronous reads; completed reads queue up
 and are sent in turn; when the guest is stopped, the remaining dirty chunks are
 read and sent synchronously.  The guest writes at any time until it is stopped.
 A guest write first reaches the disk and marks its chunk dirty when it completes.
 */
module BlockMigration {
  import opened Basics

  /** A dirty-bitmap chunk of a migrated device. */
  datatype Chunk = Chunk(dev: nat, index: nat)

  /** Contents of the sectors of one chunk. */
  type Data = seq<seq<byte>>
  type Disk = Chunk -> Data

  /** A read in flight, with the data once the driver has fetched it. */
  datatype Read = Read(chunk: Chunk, data: Option<Data>)

  /** A chunk that has been read and waits to be sent. */
  datatype Block = Block(chunk: Chunk, data: Data)

  datatype State = State(
    src: Disk, dst: Disk,
    landed: multiset<Chunk>,  // guest writes on disk whose dirty bit is not set yet
    dirty: set<Chunk>,        // dirty bitmap
    aio: set<Chunk>,          // aio_bitmap
    cursor: seq<nat>,         // chunk of cur_sector, per device
    bulkCompleted: bool,
    reserved: nat,            // bulk blocks counted as submitted before their read is issued
    reading: seq<Read>,       // in issue order
    queue: seq<Block>,        // blk_list
    sending: Option<Block>,   // taken from blk_list by flush_blks
    submitted: int, readDone: int, transferred: int,
    stopped: bool)            // the guest is stopped and block_save_complete runs

  datatype Event =
    | Land(chunk: Chunk, data: Data)      // a guest write reaches the disk
    | Mark(chunk: Chunk)                  // and completes
    | Reserve | IssueBulk(dev: nat)       // mig_save_device_bulk
    | BulkDone
    | IssueDirty(chunk: Chunk)            // mig_save_device_dirty, asynchronous
    | Fetch(i: nat, data: Data)           // the driver fetches the data of a read
    | ReadDone(i: nat)                    // blk_mig_read_cb
    | Take | Deliver                      // flush_blks and block_load
    | Stop(maxSize: nat)
    | SyncSend(chunk: Chunk)              // mig_save_device_dirty, synchronous

  const BLOCK_SIZE: nat := 0x10_0000

  predicate OnDevice(size: seq<nat>, k: Chunk) { k.dev < |size| && k.index < size[k.dev] }

  /** block_save_pending */
  function Pending(s: State, maxSize: nat): int {
    var pending := (|s.dirty| + s.submitted + s.readDone) * BLOCK_SIZE;
    if pending <= maxSize && !s.bulkCompleted then maxSize + BLOCK_SIZE else pending
  }

  predicate BulkFinished(size: seq<nat>, s: State) {
    forall d: nat :: d < |size| && d < |s.cursor| ==> s.cursor[d] >= size[d]
  }

  predicate Enabled(size: seq<nat>, s: State, e: Event) {
    match e
    case Land(k, _) => !s.stopped && OnDevice(size, k)
    case Mark(k) => k in s.landed
    case Reserve => !s.stopped && s.reserved == 0
    case IssueBulk(d) =>
      && !s.stopped && s.reserved > 0 && d < |size| && d < |s.cursor| && s.cursor[d] < size[d]
      && forall d': nat :: d' < d && d' < |size| ==> s.cursor[d'] >= size[d']
    case BulkDone => !s.stopped && s.reserved == 0 && BulkFinished(size, s)
    case IssueDirty(k) => !s.stopped && s.bulkCompleted && k in s.dirty && k !in s.aio
    // a read may be torn by a write that lands while it is in flight
    case Fetch(i, d) => i < |s.reading| && (d == s.src(s.reading[i].chunk) || s.reading[i].chunk in s.landed || s.reading[i].chunk in s.dirty)
    case ReadDone(i) => i < |s.reading| && s.reading[i].data.Some?
    case Take => s.queue != [] && s.sending.None?
    case Deliver => s.sending.Some?
    // completion starts once little enough is pending, and stopping the guest drains all requests
    case Stop(maxSize) =>
      && !s.stopped && (Pending(s, maxSize) == 0 || Pending(s, maxSize) < maxSize)
      && s.reading == [] && s.landed == multiset{} && s.reserved == 0
    case SyncSend(k) => s.stopped && s.queue == [] && s.sending.None? && k in s.dirty
  }

  function Put(m: Disk, k: Chunk, d: Data): Disk {
    x => if x == k then d else m(x)
  }

  function Without(r: seq<Read>, i: nat): seq<Read>
    requires i < |r|
  {
    r[..i] + r[i + 1..]
  }

  function Step(size: seq<nat>, s: State, e: Event): State
    requires Enabled(size, s, e)
  {
    match e
    case Land(k, d) => s.(src := Put(s.src, k, d), landed := s.landed + multiset{k})
    case Mark(k) => s.(landed := s.landed - multiset{k}, dirty := s.dirty + {k})
    case Reserve => s.(submitted := s.submitted + 1, reserved := s.reserved + 1)
    case IssueBulk(d) =>
      var k := Chunk(d, s.cursor[d]);
      s.(reserved := s.reserved - 1, reading := s.reading + [Read(k, None)], dirty := s.dirty - {k},
         cursor := s.cursor[d := s.cursor[d] + 1])
    case BulkDone => s.(bulkCompleted := true)
    case IssueDirty(k) =>
      s.(reading := s.reading + [Read(k, None)], submitted := s.submitted + 1, aio := s.aio + {k}, dirty := s.dirty - {k})
    case Fetch(i, d) => s.(reading := s.reading[i := s.reading[i].(data := Some(d))])
    case ReadDone(i) =>
      var r := s.reading[i];
      s.(reading := Without(s.reading, i), queue := s.queue + [Block(r.chunk, r.data.value)], aio := s.aio - {r.chunk},
         submitted := s.submitted - 1, readDone := s.readDone + 1)
    case Take => s.(queue := s.queue[1..], sending := Some(s.queue[0]))
    case Deliver =>
      s.(dst := Put(s.dst, s.sending.value.chunk, s.sending.value.data), sending := None,
         readDone := s.readDone - 1, transferred := s.transferred + 1)
    case Stop(_) => s.(stopped := true)
    case SyncSend(k) => s.(dst := Put(s.dst, k, s.src(k)), dirty := s.dirty - {k})
  }

  // ----- what the destination is going to hold -----

  function LastRead(r: seq<Read>, k: Chunk): Option<Read> {
    if r == [] then None
    else if r[|r| - 1].chunk == k then Some(r[|r| - 1])
    else LastRead(r[..|r| - 1], k)
  }

  function LastBlock(q: seq<Block>, k: Chunk): Option<Data> {
    if q == [] then None
    else if q[|q| - 1].chunk == k then Some(q[|q| - 1].data)
    else LastBlock(q[..|q| - 1], k)
  }

  function Waiting(s: State): seq<Block> {
    if s.sending.Some? then [s.sending.value] + s.queue else s.queue
  }

  /** The contents of chunk `k` once everything that is queued has been sent. */
  function Queued(s: State, k: Chunk): Data {
    var b := LastBlock(Waiting(s), k);
    if b.Some? then b.value else s.dst(k)
  }

  /** Either something still remembers that chunk `k` has to be read, or its last read
      holds the current contents, or they are queued or already there. */
  ghost predicate Safe(size: seq<nat>, s: State, k: Chunk) {
    Due(size, s, k) ==>
      var r := LastRead(s.reading, k);
      if r.None? then Queued(s, k) == s.src(k)
      else r.value.data.None? || r.value.data.value == s.src(k)
  }

  ghost predicate Inv(size: seq<nat>, s: State) {
    && |s.cursor| == |size|
    && (forall k :: Safe(size, s, k))
    && (s.bulkCompleted ==> BulkFinished(size, s))
    && s.submitted == |s.reading| + s.reserved
    && s.readDone == |Waiting(s)|
    && (s.stopped ==> s.bulkCompleted && s.reading == [] && s.landed == multiset{} && s.reserved == 0)
  }

  /** Chunk `k` has to be current by now: nothing remembers that it must be read again. */
  predicate Due(size: seq<nat>, s: State, k: Chunk) {
    OnDevice(size, k) && k.dev < |s.cursor| && k.index < s.cursor[k.dev] && k !in s.dirty && k !in s.landed
  }

  /** Read `i` completes although an earlier read of its chunk, which fetched other
      contents, is still in flight; no later read and no mark makes up for it. */
  predicate Overtakes(size: seq<nat>, s: State, i: nat)
    requires i < |s.reading|
  {
    var k := s.reading[i].chunk;
    var earlier := LastRead(s.reading[..i], k);
    && Due(size, s, k) && (forall j :: i < j < |s.reading| ==> s.reading[j].chunk != k)
    && earlier.Some? && earlier.value.data.Some? && earlier.value.data.value != s.src(k)
  }

  /** The step is a completion that overtakes. */
  predicate Harmful(size: seq<nat>, s: State, e: Event) {
    e.ReadDone? && e.i < |s.reading| && Overtakes(size, s, e.i)
  }

  // ----- each step keeps it -----

  lemma {:induction false} LastReadLast(r: seq<Read>, x: Read, k: Chunk)
    ensures LastRead(r + [x], k) == if x.chunk == k then Some(x) else LastRead(r, k)
  {
    assert (r + [x])[..|r|] == r;
  }

  lemma {:induction false} LastReadFetched(r: seq<Read>, i: nat, d: Data, k: Chunk)
    requires i < |r|
    ensures var r', l := r[i := r[i].(data := Some(d))], LastRead(r, k);
      LastRead(r', k) == l || (l.Some? && r[i].chunk == k && LastRead(r', k) == Some(Read(k, Some(d))))
  {
    if i < |r| - 1 && r[|r| - 1].chunk != k {
      LastReadFetched(r[..|r| - 1], i, d, k);
      assert r[i := r[i].(data := Some(d))][..|r| - 1] == r[..|r| - 1][i := r[i].(data := Some(d))];
    } else if i == |r| - 1 {
      assert r[i := r[i].(data := Some(d))][..|r| - 1] == r[..|r| - 1];
    }
  }

  lemma {:induction false} NoRead(r: seq<Read>, k: Chunk)
    requires forall j :: 0 <= j < |r| ==> r[j].chunk != k
    ensures LastRead(r, k) == None
  {
    if r != [] { NoRead(r[..|r| - 1], k); }
  }

  lemma {:induction false} HasRead(r: seq<Read>, i: nat)
    requires i < |r|
    ensures LastRead(r, r[i].chunk).Some?
  {
    var n := |r| - 1;
    if i < n && r[n].chunk != r[i].chunk { HasRead(r[..n], i); }
  }

  /** Completing a read leaves the last one of its chunk, unless it was that one: then the
      last one before it. */
  lemma {:induction false} LastReadWithout(r: seq<Read>, i: nat, k: Chunk)
    requires i < |r|
    ensures LastRead(Without(r, i), k) ==
      if r[i].chunk == k && (forall j :: i < j < |r| ==> r[j].chunk != k) then LastRead(r[..i], k) else LastRead(r, k)
    ensures r[i].chunk == k && (forall j :: i < j < |r| ==> r[j].chunk != k) ==> LastRead(r, k) == Some(r[i])
  {
    var n := |r| - 1;
    if i == n {
      assert Without(r, i) == r[..n];
    } else {
      assert Without(r, i)[..n - 1] == Without(r[..n], i) && Without(r, i)[n - 1] == r[n];
      if r[n].chunk != k {
        LastReadWithout(r[..n], i, k);
        assert r[..n][..i] == r[..i];
        assert (forall j :: i < j < |r| ==> r[j].chunk != k) <==> (forall j :: i < j < n ==> r[..n][j].chunk != k);
      }
    }
  }

  lemma {:induction false} LastBlockLast(q: seq<Block>, x: Block, k: Chunk)
    ensures LastBlock(q + [x], k) == if x.chunk == k then Some(x.data) else LastBlock(q, k)
  {
    assert (q + [x])[..|q|] == q;
  }

  /** Sending the first block leaves the last one of a chunk, unless it was the same. */
  lemma {:induction false} LastBlockRest(q: seq<Block>, k: Chunk)
    requires q != []
    ensures LastBlock(q[1..], k) == LastBlock(q, k) ||
            (q[0].chunk == k && LastBlock(q[1..], k) == None && LastBlock(q, k) == Some(q[0].data))
    ensures q[0].chunk == k ==> LastBlock(q, k).Some?
  {
    var n := |q| - 1;
    if n > 0 {
      assert q[1..][..n - 1] == q[..n][1..];
      if q[n].chunk != k { LastBlockRest(q[..n], k); }
    } else {
      assert q[..n] == [] && q[1..] == [];
    }
  }

  lemma IssueKeepsSafe(size: seq<nat>, s: State, e: Event, k: Chunk)
    requires |s.cursor| == |size| && Safe(size, s, k) && Enabled(size, s, e) && (e.IssueBulk? || e.IssueDirty?)
    ensures Safe(size, Step(size, s, e), k)
  {
    hide LastRead, LastBlock;
    var c := if e.IssueBulk? then Chunk(e.dev, s.cursor[e.dev]) else e.chunk;
    LastReadLast(s.reading, Read(c, None), k);
  }

  lemma FetchKeepsSafe(size: seq<nat>, s: State, e: Event, k: Chunk)
    requires Safe(size, s, k) && Enabled(size, s, e) && e.Fetch?
    ensures Safe(size, Step(size, s, e), k)
  {
    hide LastRead, LastBlock;
    LastReadFetched(s.reading, e.i, e.data, k);
  }

  /** A completed read leaves its chunk safe if and only if it does not overtake. */
  lemma ReadDoneSafeIff(size: seq<nat>, s: State, e: Event, k: Chunk)
    requires Safe(size, s, k) && Enabled(size, s, e) && e.ReadDone?
    ensures Safe(size, Step(size, s, e), k) <==> !(Overtakes(size, s, e.i) && s.reading[e.i].chunk == k)
  {
    hide LastRead, LastBlock;
    var r := s.reading[e.i];
    LastReadWithout(s.reading, e.i, k);
    HasRead(s.reading, e.i);
    LastBlockLast(Waiting(s), Block(r.chunk, r.data.value), k);
    assert Waiting(Step(size, s, e)) == Waiting(s) + [Block(r.chunk, r.data.value)];
  }

  lemma SendKeepsSafe(size: seq<nat>, s: State, e: Event, k: Chunk)
    requires Safe(size, s, k) && Enabled(size, s, e) && (e.Take? || e.Deliver? || e.SyncSend?)
    requires s.stopped ==> s.reading == []
    ensures Safe(size, Step(size, s, e), k)
  {
    hide LastBlock;
    if e.Take? {
      assert Waiting(Step(size, s, e)) == Waiting(s);
    } else if e.Deliver? {
      assert Waiting(s)[1..] == s.queue;
      LastBlockRest(Waiting(s), k);
    } else {
      assert LastBlock([], k) == None by { EmptyQueue(k); }
    }
  }

  lemma EmptyQueue(k: Chunk)
    ensures LastBlock([], k) == None
  {}

  lemma OtherKeepsSafe(size: seq<nat>, s: State, e: Event, k: Chunk)
    requires Safe(size, s, k) && Enabled(size, s, e)
    requires e.Land? || e.Mark? || e.Reserve? || e.BulkDone? || e.Stop?
    ensures Safe(size, Step(size, s, e), k)
  {
    hide LastRead, LastBlock, Pending, BulkFinished;
  }

  lemma StepKeepsSafe(size: seq<nat>, s: State, e: Event, k: Chunk)
    requires Inv(size, s) && Enabled(size, s, e) && !Harmful(size, s, e)
    ensures Safe(size, Step(size, s, e), k)
  {
    assert Safe(size, s, k);
    hide Safe, Pending, BulkFinished, Step;
    match e
    case IssueBulk(_) => IssueKeepsSafe(size, s, e, k);
    case IssueDirty(_) => IssueKeepsSafe(size, s, e, k);
    case Fetch(_, _) => FetchKeepsSafe(size, s, e, k);
    case ReadDone(_) => ReadDoneSafeIff(size, s, e, k);
    case Take => SendKeepsSafe(size, s, e, k);
    case Deliver => SendKeepsSafe(size, s, e, k);
    case SyncSend(_) => SendKeepsSafe(size, s, e, k);
    case _ => OtherKeepsSafe(size, s, e, k);
  }

  /** While the bulk phase lasts, too much is pending to complete. */
  lemma StopNeedsBulk(s: State, maxSize: nat)
    requires Pending(s, maxSize) == 0 || Pending(s, maxSize) < maxSize
    ensures s.bulkCompleted
  {}

  lemma StepKeepsInvIff(size: seq<nat>, s: State, e: Event)
    requires Inv(size, s) && Enabled(size, s, e)
    ensures Inv(size, Step(size, s, e)) <==> !Harmful(size, s, e)
  {
    if Harmful(size, s, e) {
      assert Safe(size, s, s.reading[e.i].chunk);
      ReadDoneSafeIff(size, s, e, s.reading[e.i].chunk);
      return;
    }
    forall k ensures Safe(size, Step(size, s, e), k) { StepKeepsSafe(size, s, e, k); }
    hide Safe, Pending;
    if e.Stop? { StopNeedsBulk(s, e.maxSize); }
  }

  // ----- whole runs -----

  predicate CanRun(size: seq<nat>, s: State, es: seq<Event>)
    decreases |es|
  {
    es == [] || (Enabled(size, s, es[0]) && CanRun(size, Step(size, s, es[0]), es[1..]))
  }

  function Exec(size: seq<nat>, s: State, es: seq<Event>): State
    requires CanRun(size, s, es)
    decreases |es|
  {
    if es == [] then s else Exec(size, Step(size, s, es[0]), es[1..])
  }

  /** No completion of the run overtakes. */
  predicate HarmlessRun(size: seq<nat>, s: State, es: seq<Event>)
    requires CanRun(size, s, es)
    decreases |es|
  {
    es == [] || (!Harmful(size, s, es[0]) && HarmlessRun(size, Step(size, s, es[0]), es[1..]))
  }

  /** After block_save_setup. */
  predicate InitState(size: seq<nat>, s: State) {
    && s.landed == multiset{} && s.dirty == {} && s.aio == {} && s.cursor == seq(|size|, _ => 0) && !s.bulkCompleted
    && s.reserved == 0 && s.reading == [] && s.queue == [] && s.sending == None
    && s.submitted == 0 && s.readDone == 0 && s.transferred == 0 && !s.stopped
  }

  lemma {:induction false} RunKeepsInv(size: seq<nat>, s: State, es: seq<Event>)
    requires Inv(size, s) && CanRun(size, s, es) && HarmlessRun(size, s, es)
    ensures Inv(size, Exec(size, s, es))
    decreases |es|
  {
    hide Inv, Enabled, Harmful;
    if es != [] {
      StepKeepsInvIff(size, s, es[0]);
      RunKeepsInv(size, Step(size, s, es[0]), es[1..]);
    }
  }

  lemma InitInv(size: seq<nat>, s: State)
    requires InitState(size, s)
    ensures Inv(size, s)
  {
    forall k ensures Safe(size, s, k) {}
  }

  /** block_save_complete has flushed the queue and found nothing dirty any more. */
  predicate Completed(s: State) {
    s.stopped && s.queue == [] && s.sending == None && s.dirty == {}
  }

  /** At completion the destination disk equals the source disk, over every run in which no
      completion overtakes. */
  lemma MigratedDisk(size: seq<nat>, s: State, es: seq<Event>, k: Chunk)
    requires InitState(size, s) && CanRun(size, s, es) && HarmlessRun(size, s, es) && Completed(Exec(size, s, es))
    requires OnDevice(size, k)
    ensures Exec(size, s, es).dst(k) == Exec(size, s, es).src(k)
  {
    InitInv(size, s);
    RunKeepsInv(size, s, es);
    assert Safe(size, Exec(size, s, es), k);
  }

  /** The counters are what the code asserts: never negative, and no read is left when
      the guest is stopped. */
  lemma CountersHold(size: seq<nat>, s: State, es: seq<Event>)
    requires InitState(size, s) && CanRun(size, s, es) && HarmlessRun(size, s, es)
    ensures var t := Exec(size, s, es);
      && t.submitted == |t.reading| + t.reserved && t.readDone == |Waiting(t)|
      && (t.stopped ==> t.submitted == 0)
  {
    InitInv(size, s);
    RunKeepsInv(size, s, es);
  }

  /** Where drivers finish reads of one chunk in issue order, no completion overtakes. */
  lemma InOrderIsHarmless(size: seq<nat>, s: State, i: nat)
    requires i < |s.reading| && forall j :: 0 <= j < i ==> s.reading[j].chunk != s.reading[i].chunk
    ensures !Overtakes(size, s, i)
  {
    NoRead(s.reading[..i], s.reading[i].chunk);
  }

  // ----- a run in which a completion overtakes -----

  lemma RunFrom(size: seq<nat>, s: State, e: Event, es: seq<Event>)
    requires Enabled(size, s, e) && CanRun(size, Step(size, s, e), es)
    ensures CanRun(size, s, [e] + es) && Exec(size, s, [e] + es) == Exec(size, Step(size, s, e), es)
  {
    assert ([e] + es)[1..] == es;
  }

  /** The bulk read of a chunk is still in flight when the chunk, written meanwhile, is
      read again: the aio bitmap does not know of bulk reads. */
  lemma TwoReads(s: State, old': Data, new': Data) returns (es: seq<Event>)
    requires InitState([1], s) && s.src(Chunk(0, 0)) == old'
    ensures CanRun([1], s, es)
    ensures var t, k := Exec([1], s, es), Chunk(0, 0);
      && t.reading == [Read(k, Some(old')), Read(k, Some(new'))] && t.src(k) == new' && t.dirty == {} && t.landed == multiset{}
      && t.queue == [] && t.sending == None && t.bulkCompleted && t.reserved == 0 && !t.stopped
      && t.submitted == 2 && t.readDone == 0
  {
    hide CanRun, Exec;
    var k := Chunk(0, 0);
    var e := [Reserve, IssueBulk(0), Fetch(0, old'), Land(k, new'), Mark(k), BulkDone, IssueDirty(k), Fetch(1, new')];
    var s1 := Step([1], s, e[0]);
    var s2 := Step([1], s1, e[1]);
    var s3 := Step([1], s2, e[2]);
    var s4 := Step([1], s3, e[3]);
    var s5 := Step([1], s4, e[4]);
    var s6 := Step([1], s5, e[5]);
    var s7 := Step([1], s6, e[6]);
    var s8 := Step([1], s7, e[7]);
    es := [];
    RunNone([1], s8);
    RunFrom([1], s7, e[7], es); es := [e[7]] + es;
    RunFrom([1], s6, e[6], es); es := [e[6]] + es;
    RunFrom([1], s5, e[5], es); es := [e[5]] + es;
    RunFrom([1], s4, e[4], es); es := [e[4]] + es;
    RunFrom([1], s3, e[3], es); es := [e[3]] + es;
    RunFrom([1], s2, e[2], es); es := [e[2]] + es;
    RunFrom([1], s1, e[1], es); es := [e[1]] + es;
    RunFrom([1], s, e[0], es); es := [e[0]] + es;
  }

  lemma RunNone(size: seq<nat>, s: State)
    ensures CanRun(size, s, []) && Exec(size, s, []) == s
  {}

  lemma FlushAndStop(s: State, a: Data, b: Data) returns (es: seq<Event>)
    requires var k := Chunk(0, 0);
      && s.queue == [Block(k, a), Block(k, b)] && s.sending == None && s.reading == [] && s.reserved == 0
      && s.dirty == {} && s.landed == multiset{} && s.bulkCompleted && !s.stopped && s.submitted == 0 && s.readDone == 2
    ensures CanRun([1], s, es) && Completed(Exec([1], s, es))
    ensures Exec([1], s, es).src == s.src && Exec([1], s, es).dst(Chunk(0, 0)) == b
  {
    hide CanRun, Exec;
    var s1 := Step([1], s, Take);
    var s2 := Step([1], s1, Deliver);
    var s3 := Step([1], s2, Take);
    var s4 := Step([1], s3, Deliver);
    var s5 := Step([1], s4, Stop(1));
    es := [];
    RunNone([1], s5);
    RunFrom([1], s4, Stop(1), es); es := [Stop(1)] + es;
    RunFrom([1], s3, Deliver, es); es := [Deliver] + es;
    RunFrom([1], s2, Take, es); es := [Take] + es;
    RunFrom([1], s1, Deliver, es); es := [Deliver] + es;
    RunFrom([1], s, Take, es); es := [Take] + es;
  }

  /** If then the second read completes first, the old contents are sent last and
      migration completes with them. */
  lemma OvertakenRead(s: State, old': Data, new': Data) returns (es: seq<Event>)
    requires var k := Chunk(0, 0);
      && s.reading == [Read(k, Some(old')), Read(k, Some(new'))] && s.src(k) == new' && s.dirty == {} && s.landed == multiset{}
      && s.queue == [] && s.sending == None && s.bulkCompleted && s.reserved == 0 && !s.stopped
      && s.submitted == 2 && s.readDone == 0
    ensures CanRun([1], s, es) && Completed(Exec([1], s, es))
    ensures Exec([1], s, es).src(Chunk(0, 0)) == new' && Exec([1], s, es).dst(Chunk(0, 0)) == old'
  {
    hide CanRun, Exec;
    var s1 := Step([1], s, ReadDone(1));
    var s2 := Step([1], s1, ReadDone(0));
    es := FlushAndStop(s2, new', old');
    RunFrom([1], s1, ReadDone(0), es); es := [ReadDone(0)] + es;
    RunFrom([1], s, ReadDone(1), es); es := [ReadDone(1)] + es;
  }

  lemma {:induction false} RunThen(size: seq<nat>, s: State, es: seq<Event>, es': seq<Event>)
    requires CanRun(size, s, es) && CanRun(size, Exec(size, s, es), es')
    ensures CanRun(size, s, es + es') && Exec(size, s, es + es') == Exec(size, Exec(size, s, es), es')
    decreases |es|
  {
    if es == [] {
      assert es + es' == es';
    } else {
      assert (es + es')[1..] == es[1..] + es';
      RunThen(size, Step(size, s, es[0]), es[1..], es');
    }
  }

  /** A whole migration that completes with a stale chunk, for any two contents. */
  lemma StaleDisk(s: State, new': Data) returns (es: seq<Event>)
    requires InitState([1], s)
    ensures CanRun([1], s, es) && Completed(Exec([1], s, es))
    ensures Exec([1], s, es).src(Chunk(0, 0)) == new' && Exec([1], s, es).dst(Chunk(0, 0)) == s.src(Chunk(0, 0))
  {
    hide CanRun, Exec;
    es := TwoReads(s, s.src(Chunk(0, 0)), new');
    var more := OvertakenRead(Exec([1], s, es), s.src(Chunk(0, 0)), new');
    RunThen([1], s, es, more);
    es := es + more;
  }
}
