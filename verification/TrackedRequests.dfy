/**
 Block-layer request tracking (block.c): the list of in-flight requests of one
 device, widening of a request to an alignment, waiting for conflicting
 requests, and the read-modify-write cycle of an unaligned write.

 The model is a step system.  A coroutine switches only inside a wait or inside
 driver I/O, so registering a request, widening it and scanning the list for the
 first time form one step.  Offsets are unbounded; alignments are positive and
 stand for the powers of two of the source, for which masking is `%`.
 */
module TrackedRequests {
  import opened Basics

  type Id = nat
  type Disk = int -> byte

  /** Where a request resumes.  The ...Wait stages are calls of
      wait_serialising_requests, the others are driver I/O in flight. */
  datatype Stage =
    | First          // the first wait of the request
    | HeadWait       // wait inside the aligned read of the head
    | HeadRead
    | TailWait       // wait before the tail is read, after a head was read
    | TailReadWait   // wait inside the aligned read of the tail
    | TailRead
    | WriteWait      // wait inside the aligned write
    | WriteIo
    | ReadIo

  datatype Request = Request(
    offset: nat, bytes: nat, isWrite: bool, align: pos,
    serialising: bool, overlapOffset: nat, overlapBytes: nat,
    waitingFor: Option<Id>, woken: bool, stage: Stage,
    data: seq<byte>, head: seq<byte>, tail: seq<byte>, written: set<int>)

  /** The `tracked_requests` list, newest first, with the requests it links,
      the counter of serialising requests, and the device contents. */
  datatype State = State(
    order: seq<Id>, reqs: map<Id, Request>, inFlight: nat, disk: Disk)

  datatype Op =
    | Read(offset: nat, bytes: nat, align: pos, cluster: Option<pos>)
    | Write(offset: nat, data: seq<byte>, align: pos)

  // ----- alignment -----

  function Down(n: nat, a: pos): (r: nat)
    ensures r <= n < r + a
  {
    n - n % a
  }

  function Up(n: nat, a: pos): (r: nat)
    ensures n <= r < n + a
  {
    if n % a == 0 then n else n - n % a + a
  }

  function Max(a: int, b: int): int { if a < b then b else a }

  // ----- requests -----

  /** mark_request_serialising, apart from the device counter. */
  function Mark(r: Request, a: pos): Request
  {
    var o := Down(r.offset, a);
    r.(serialising := true,
       overlapOffset := Min(r.overlapOffset, o),
       overlapBytes := Max(r.overlapBytes, Up(r.offset + r.bytes, a) - o))
  }

  /** tracked_request_overlaps */
  predicate Overlaps(r: Request, offset: nat, bytes: nat) {
    !(offset >= r.overlapOffset + r.overlapBytes) && !(r.overlapOffset >= offset + bytes)
  }

  predicate Conflict(a: Request, b: Request) {
    (a.serialising || b.serialising) && Overlaps(a, b.overlapOffset, b.overlapBytes)
  }

  function HeadBytes(r: Request): nat { r.offset % r.align }

  function TailBytes(r: Request): nat { (r.offset + r.bytes) % r.align }

  function PadStart(r: Request): nat { Down(r.offset, r.align) }

  function PadEnd(r: Request): nat { Up(r.offset + r.bytes, r.align) }

  /** A request as tracked_request_begin registers it. */
  function Fresh(op: Op): Request
  {
    match op
    case Read(o, n, a, _) =>
      var lo := Down(o, a);
      var len := Up(o + n, a) - lo;
      Request(lo, len, false, a, false, lo, len, None, false, First, [], [], [], {})
    case Write(o, d, a) =>
      Request(o, |d|, true, a, false, o, |d|, None, false, First, d, [], [], {})
  }

  /** The request as it enters its first wait: a copy-on-read is widened to the
      cluster size, an unaligned write to the request alignment. */
  function Widened(op: Op): Request
  {
    var r := Fresh(op);
    match op
    case Read(_, _, _, cluster) => if cluster.Some? then Mark(r, cluster.value) else r
    case Write(_, _, a) => if HeadBytes(r) != 0 || TailBytes(r) != 0 then Mark(r, a) else r
  }

  predicate Suspended(r: Request) { r.waitingFor.Some? }

  predicate IsWait(st: Stage) {
    st in {First, HeadWait, TailWait, TailReadWait, WriteWait}
  }

  /** The stage reached when a wait lets the request through. */
  function AfterWait(r: Request): Stage
    requires IsWait(r.stage)
  {
    match r.stage
    case First =>
      if !r.isWrite then ReadIo
      else if HeadBytes(r) != 0 then HeadWait
      else if TailBytes(r) != 0 then TailReadWait
      else WriteIo
    case HeadWait => HeadRead
    case TailWait => TailReadWait
    case TailReadWait => TailRead
    case WriteWait => WriteIo
  }

  /** The padded buffer that the driver is given to write. */
  function Buffer(r: Request): seq<byte>
    requires HeadBytes(r) <= |r.head| && (TailBytes(r) != 0 ==> TailBytes(r) <= |r.tail|)
  {
    r.head[..HeadBytes(r)] + r.data + (if TailBytes(r) == 0 then [] else r.tail[TailBytes(r)..])
  }

  // ----- scanning -----

  /** The conflicting request the scan of wait_serialising_requests stops at:
      the first one in list order that is not itself waiting. */
  function Blocker(order: seq<Id>, reqs: map<Id, Request>, self: Id, me: Request): (r: Option<Id>)
    requires forall i <- order :: i in reqs
    ensures r.Some? ==>
      r.value in order && r.value != self && Conflict(reqs[r.value], me) && !Suspended(reqs[r.value])
    ensures r.None? ==>
      forall i <- order :: i != self && Conflict(reqs[i], me) ==> Suspended(reqs[i])
  {
    if order == [] then None
    else
      var i := order[0];
      if i != self && Conflict(reqs[i], me) && !Suspended(reqs[i]) then Some(i)
      else Blocker(order[1..], reqs, self, me)
  }

  /** One pass of the loop in wait_serialising_requests by `id`: either it goes to
      sleep on a blocker or it is let through to its next stage. */
  function Scan(s: State, id: Id): State
    requires id in s.reqs && IsWait(s.reqs[id].stage)
    requires forall i <- s.order :: i in s.reqs
  {
    var r := s.reqs[id];
    var b := Target(s, id);
    s.(reqs := s.reqs[id := Outcome(r, b)])
  }

  /** tracked_request_end: unlink the request and wake everyone queued on it.  A
      woken request keeps its stale `waiting_for` until it runs. */
  function End(s: State, id: Id): State
    requires id in s.reqs && (s.reqs[id].serialising ==> s.inFlight > 0)
  {
    State(
      Without(s.order, id),
      map i | i in s.reqs && i != id :: Wake(s.reqs[i], id),
      if s.reqs[id].serialising then s.inFlight - 1 else s.inFlight,
      s.disk)
  }

  function Wake(r: Request, id: Id): Request {
    if r.waitingFor == Some(id) then r.(woken := true) else r
  }

  function Without(order: seq<Id>, id: Id): (r: seq<Id>)
    ensures forall i :: i in r <==> i in order && i != id
    ensures Distinct(order) ==> Distinct(r)
  {
    if order == [] then []
    else if order[0] == id then Without(order[1..], id)
    else
      var rest := Without(order[1..], id);
      assert Distinct(order) ==> Distinct(order[1..]) && order[0] !in order[1..];
      [order[0]] + rest
  }

  function Bytes(d: Disk, lo: int, len: nat): (b: seq<byte>)
    ensures |b| == len && forall k :: 0 <= k < len ==> b[k] == d(lo + k)
  {
    seq(len, k requires 0 <= k < len => d(lo + k))
  }

  // ----- steps -----

  datatype Event =
    | Begin(id: Id, op: Op)
    | Resume(id: Id)                          // a woken waiter runs again
    | Pass(id: Id)                            // a later wait of a running request
    | ReadDone(id: Id)                        // the driver read of a head or tail completes
    | DriverWrite(id: Id, lo: int, hi: int)   // part of a padded write reaches the device
    | Finish(id: Id)                          // the request completes successfully
    | Fail(id: Id)                            // driver I/O or a write notifier reports an error

  predicate Running(s: State, id: Id) {
    id in s.reqs && !Suspended(s.reqs[id])
  }

  ghost predicate Enabled(s: State, e: Event) {
    match e
    case Begin(id, op) => id !in s.reqs
    case Resume(id) => id in s.reqs && Suspended(s.reqs[id]) && s.reqs[id].woken
    case Pass(id) => Running(s, id) && IsWait(s.reqs[id].stage)
    case ReadDone(id) => Running(s, id) && s.reqs[id].stage in {HeadRead, TailRead}
    case DriverWrite(id, lo, hi) =>
      && Running(s, id) && s.reqs[id].stage == WriteIo
      && PadStart(s.reqs[id]) <= lo <= hi <= PadEnd(s.reqs[id])
    case Finish(id) =>
      && Running(s, id)
      && (s.reqs[id].stage == ReadIo ||
          (s.reqs[id].stage == WriteIo && AllWritten(s.reqs[id])))
    case Fail(id) => Running(s, id) && s.reqs[id].stage in {HeadRead, TailRead, WriteIo, ReadIo}
  }

  ghost predicate AllWritten(r: Request) {
    forall x :: PadStart(r) <= x < PadEnd(r) ==> x in r.written
  }

  /** Holds at every point the invariant below holds; it makes the steps defined. */
  ghost predicate Linked(s: State) {
    && Distinct(s.order)
    && (forall i :: i in s.order <==> i in s.reqs)
    && s.inFlight == |Serialisers(s.reqs)|
    && forall i <- s.reqs :: Shaped(s.reqs[i])
  }

  function Serialisers(reqs: map<Id, Request>): set<Id> {
    set i | i in reqs && reqs[i].serialising
  }

  predicate HasHead(r: Request) {
    r.stage in {TailWait, TailReadWait, TailRead, WriteWait, WriteIo}
  }

  predicate HasTail(r: Request) { r.stage in {WriteWait, WriteIo} }

  /** What a single request satisfies whatever the others do. */
  predicate Shaped(r: Request) {
    && r.overlapOffset <= r.offset
    && r.offset + r.bytes <= r.overlapOffset + r.overlapBytes
    && (!r.isWrite ==> r.stage in {First, ReadIo})
    && (r.isWrite ==>
      && |r.data| == r.bytes && r.stage != ReadIo
      && r.serialising == (HeadBytes(r) != 0 || TailBytes(r) != 0)
      && (r.serialising ==> r.overlapOffset == PadStart(r) && r.overlapOffset + r.overlapBytes == PadEnd(r))
      && (r.stage in {HeadWait, HeadRead} ==> HeadBytes(r) != 0)
      && (r.stage in {TailWait, TailReadWait, TailRead} ==> TailBytes(r) != 0)
      && (r.stage == WriteWait ==> r.serialising)
      && (HasHead(r) && HeadBytes(r) != 0 ==> |r.head| == r.align)
      && (HasTail(r) && TailBytes(r) != 0 ==> |r.tail| == r.align))
    && (Suspended(r) ==> r.stage == First)
  }

  function Update(d: Disk, lo: int, hi: int, start: int, buf: seq<byte>): Disk
    requires start <= lo <= hi <= start + |buf|
  {
    x => if lo <= x < hi then buf[x - start] else d(x)
  }

  function Span(lo: int, hi: int): (r: set<int>)
    ensures forall x :: x in r <==> lo <= x < hi
    decreases hi - lo
  {
    if hi <= lo then {} else {lo} + Span(lo + 1, hi)
  }

  lemma BufferLength(r: Request)
    requires Shaped(r) && r.isWrite && r.stage == WriteIo
    ensures HeadBytes(r) <= |r.head| && (TailBytes(r) != 0 ==> TailBytes(r) <= |r.tail|)
    ensures |Buffer(r)| == PadEnd(r) - PadStart(r)
  {}

  ghost function Step(s: State, e: Event): State
    requires Linked(s) && Enabled(s, e)
  {
    match e
    case Begin(id, op) =>
      var r := Widened(op);
      Scan(State([id] + s.order, s.reqs[id := r],
                 if r.serialising then s.inFlight + 1 else s.inFlight, s.disk), id)
    case Resume(id) => Scan(s.(reqs := s.reqs[id := s.reqs[id].(waitingFor := None)]), id)
    case Pass(id) => Scan(s, id)
    case ReadDone(id) => s.(reqs := s.reqs[id := Captured(s.reqs[id], s.disk)])
    case DriverWrite(id, lo, hi) =>
      var r := s.reqs[id];
      BufferLength(r);
      s.(disk := Update(s.disk, lo, hi, PadStart(r), Buffer(r)),
         reqs := s.reqs[id := r.(written := r.written + Span(lo, hi))])
    case Finish(id) => SerialiserCounted(s, id); End(s, id)
    case Fail(id) => SerialiserCounted(s, id); End(s, id)
  }

  lemma SerialiserCounted(s: State, id: Id)
    requires Linked(s) && id in s.reqs
    ensures s.reqs[id].serialising ==> s.inFlight > 0
  {
    if s.reqs[id].serialising { assert id in Serialisers(s.reqs); }
  }

  /** The driver read of a head or a tail completes with the bytes on the device. */
  function Captured(r: Request, d: Disk): Request
    requires r.stage in {HeadRead, TailRead}
  {
    if r.stage == HeadRead then
      var r' := r.(head := Bytes(d, PadStart(r), r.align));
      if TailBytes(r) != 0 then Mark(r', r.align).(stage := TailWait) else r'.(stage := WriteWait)
    else
      r.(tail := Bytes(d, r.offset + r.bytes - TailBytes(r), r.align), stage := WriteWait)
  }

  // ----- the invariant -----

  /** Two requests past their wait do not conflict. */
  predicate Apart(reqs: map<Id, Request>, i: Id, j: Id) {
    (i in reqs && j in reqs && i != j && !Suspended(reqs[i]) && !Suspended(reqs[j])) ==>
      !Conflict(reqs[i], reqs[j])
  }

  ghost predicate Exclusive(reqs: map<Id, Request>) {
    forall i, j :: Apart(reqs, i, j)
  }

  /** A sleeper that nobody has woken sleeps on a listed request that is not asleep. */
  predicate TargetRuns(reqs: map<Id, Request>, i: Id) {
    i in reqs && Suspended(reqs[i]) && !reqs[i].woken ==>
      var t := reqs[i].waitingFor.value;
      t != i && t in reqs && !Suspended(reqs[t])
  }

  /** What has been read for padding is still what the device holds, and what a
      serialising write has put on the device is still there. */
  predicate PaddingCurrent(r: Request, d: Disk)
    requires Shaped(r)
  {
    r.isWrite ==>
      && (HasHead(r) ==> forall k :: 0 <= k < HeadBytes(r) ==> r.head[k] == d(PadStart(r) + k))
      && (HasTail(r) && TailBytes(r) != 0 ==>
           forall k :: TailBytes(r) <= k < r.align ==> r.tail[k] == d(r.offset + r.bytes - TailBytes(r) + k))
      && (r.written != {} ==> r.stage == WriteIo)
      && (r.serialising ==> forall x <- r.written ::
           && PadStart(r) <= x < PadEnd(r)
           && (r.offset <= x < r.offset + r.bytes ==> d(x) == r.data[x - r.offset]))
  }

  /** Only a request asleep in its first wait has not passed it. */
  predicate FirstAsleep(r: Request) { r.stage == First ==> Suspended(r) }

  ghost predicate Inv(s: State) {
    && Linked(s)
    && Exclusive(s.reqs)
    && (forall i :: TargetRuns(s.reqs, i))
    && (forall i <- s.reqs :: FirstAsleep(s.reqs[i]))
    && (forall i <- s.reqs :: PaddingCurrent(s.reqs[i], s.disk))
  }

  ghost predicate InitState(s: State) {
    s.order == [] && s.reqs == map[] && s.inFlight == 0
  }

  lemma InitInv(s: State)
    requires InitState(s)
    ensures Inv(s)
  {}

  lemma WidenedShaped(op: Op)
    ensures Shaped(Widened(op)) && Widened(op).stage == First && !Suspended(Widened(op))
    ensures forall d: Disk :: PaddingCurrent(Widened(op), d)
  {}

  // ----- one pass of a wait -----

  /** Everyone but `id` is as the invariant wants it; `id` is about to scan. */
  ghost predicate Scanning(s: State, id: Id) {
    && Linked(s) && Running(s, id) && IsWait(s.reqs[id].stage)
    && (forall i :: TargetRuns(s.reqs, i))
    && (forall i <- s.reqs :: i != id ==> FirstAsleep(s.reqs[i]))
    && (forall i <- s.reqs :: PaddingCurrent(s.reqs[i], s.disk))
    && (forall i, j :: i != id && j != id ==> Apart(s.reqs, i, j))
    && (s.reqs[id].stage != First ==> Exclusive(s.reqs))
    && (s.reqs[id].stage == First ==> forall i <- s.reqs :: NotOn(s.reqs[i], id))
  }

  predicate NotOn(r: Request, id: Id) { Suspended(r) && !r.woken ==> r.waitingFor.value != id }

  /** What a pass of the wait makes of the scanning request. */
  function Outcome(r: Request, b: Option<Id>): Request
    requires IsWait(r.stage)
  {
    if b.Some? then r.(waitingFor := b, woken := false)
    else r.(waitingFor := None, woken := false, stage := AfterWait(r))
  }

  lemma OutcomeShaped(r: Request, b: Option<Id>, d: Disk)
    requires Shaped(r) && IsWait(r.stage) && PaddingCurrent(r, d) && (r.stage != First ==> b.None?)
    ensures Shaped(Outcome(r, b)) && PaddingCurrent(Outcome(r, b), d)
    ensures Outcome(r, b).stage == First ==> Suspended(Outcome(r, b))
    ensures forall q :: Conflict(q, Outcome(r, b)) == Conflict(q, r) && Conflict(Outcome(r, b), q) == Conflict(r, q)
  {}

  /** The blocker found by a full scan, with the shortcut on the counter. */
  function Target(s: State, id: Id): Option<Id>
    requires id in s.reqs && forall i <- s.order :: i in s.reqs
  {
    if s.inFlight == 0 then None else Blocker(s.order, s.reqs, id, s.reqs[id])
  }

  /** The shortcut on serialising_in_flight skips nothing: whoever is let through
      conflicts with no running request. */
  lemma TargetSound(s: State, id: Id)
    requires Linked(s) && Running(s, id)
    ensures Target(s, id).None? ==>
      forall i :: i in s.reqs && i != id && !Suspended(s.reqs[i]) ==>
        !Conflict(s.reqs[i], s.reqs[id]) && !Conflict(s.reqs[id], s.reqs[i])
    ensures Target(s, id).Some? ==>
      var t := Target(s, id).value; t in s.reqs && t != id && !Suspended(s.reqs[t]) && !Apart(s.reqs, t, id)
  {
    if s.inFlight == 0 {
      forall i | i in s.reqs ensures !s.reqs[i].serialising {
        assert i !in Serialisers(s.reqs);
      }
    }
  }

  lemma ScanKeepsInv(s: State, id: Id)
    requires Scanning(s, id)
    ensures Inv(Scan(s, id))
  {
    hide Shaped, PaddingCurrent, Conflict, Blocker, Target, AfterWait;
    var s' := Scan(s, id);
    TargetSound(s, id);
    OutcomeShaped(s.reqs[id], Target(s, id), s.disk);
    assert Serialisers(Scan(s, id).reqs) == Serialisers(s.reqs);
    forall i, j ensures Apart(s'.reqs, i, j) {
      assert i != id && j != id ==> Apart(s.reqs, i, j);
    }
    forall i ensures TargetRuns(s'.reqs, i) {
      assert TargetRuns(s.reqs, i);
    }
  }

  // ----- every step keeps the invariant -----

  /** Putting `id` in its first wait disturbs nobody else. */
  lemma KeepsOthers(s: State, t: State, id: Id)
    requires Inv(s)
    requires id in t.reqs && t.reqs == s.reqs[id := t.reqs[id]]
    requires id !in s.reqs || Suspended(s.reqs[id])
    requires !Suspended(t.reqs[id])
    ensures forall i :: TargetRuns(t.reqs, i)
    ensures forall i, j :: i != id && j != id ==> Apart(t.reqs, i, j)
    ensures forall i <- t.reqs :: NotOn(t.reqs[i], id)
  {
    hide Shaped, PaddingCurrent, Conflict;
    forall i ensures TargetRuns(t.reqs, i) && (i in t.reqs ==> NotOn(t.reqs[i], id)) {
      assert TargetRuns(s.reqs, i);
    }
    forall i, j | i != id && j != id ensures Apart(t.reqs, i, j) {
      assert Apart(s.reqs, i, j);
    }
  }

  lemma BeginLinked(s: State, id: Id, r: Request)
    requires Linked(s) && id !in s.reqs && Shaped(r)
    ensures Linked(State([id] + s.order, s.reqs[id := r], if r.serialising then s.inFlight + 1 else s.inFlight, s.disk))
  {
    hide Shaped;
    var reqs := s.reqs[id := r];
    assert Serialisers(reqs) == if r.serialising then Serialisers(s.reqs) + {id} else Serialisers(s.reqs);
  }

  lemma BeginKeepsInv(s: State, id: Id, op: Op)
    requires Inv(s) && Enabled(s, Begin(id, op))
    ensures Inv(Step(s, Begin(id, op)))
  {
    hide Shaped, PaddingCurrent, Conflict, Widened, Scan;
    var r := Widened(op);
    var t := State([id] + s.order, s.reqs[id := r],
                   if r.serialising then s.inFlight + 1 else s.inFlight, s.disk);
    WidenedShaped(op);
    BeginLinked(s, id, r);
    hide Linked;
    KeepsOthers(s, t, id);
    ScanKeepsInv(t, id);
  }

  lemma AwakeShaped(r: Request, d: Disk)
    requires Shaped(r) && PaddingCurrent(r, d) && Suspended(r)
    ensures r.stage == First
    ensures Shaped(r.(waitingFor := None)) && PaddingCurrent(r.(waitingFor := None), d)
    ensures forall q :: Conflict(q, r.(waitingFor := None)) == Conflict(q, r)
  {}

  lemma ResumeKeepsInv(s: State, id: Id)
    requires Inv(s) && Enabled(s, Resume(id))
    ensures Inv(Step(s, Resume(id)))
  {
    hide Shaped, PaddingCurrent, Conflict, Scan;
    var r := s.reqs[id].(waitingFor := None);
    var t := s.(reqs := s.reqs[id := r]);
    AwakeShaped(s.reqs[id], s.disk);
    assert Serialisers(t.reqs) == Serialisers(s.reqs);
    assert Linked(t);
    KeepsOthers(s, t, id);
    ScanKeepsInv(t, id);
  }

  lemma PassKeepsInv(s: State, id: Id)
    requires Inv(s) && Enabled(s, Pass(id))
    ensures Inv(Step(s, Pass(id)))
  {
    assert s.reqs[id].stage != First;
    ScanKeepsInv(s, id);
  }

  lemma SameMetrics(r: Request, r': Request)
    requires r'.offset == r.offset && r'.bytes == r.bytes && r'.align == r.align
    ensures HeadBytes(r') == HeadBytes(r) && TailBytes(r') == TailBytes(r) && PadStart(r') == PadStart(r) && PadEnd(r') == PadEnd(r)
  {}

  /** Marking again leaves the claim of a request that already covers its padding. */
  lemma MarkedAgain(r: Request)
    requires Shaped(r) && r.isWrite && r.serialising
    ensures Mark(r, r.align) == r
  {}

  lemma SameClaim(r: Request, r': Request)
    requires r'.serialising == r.serialising && r'.overlapOffset == r.overlapOffset && r'.overlapBytes == r.overlapBytes
    ensures forall q :: Conflict(q, r') == Conflict(q, r) && Conflict(r', q) == Conflict(r, q)
  {}

  lemma CapturedShaped(r: Request, d: Disk)
    requires Shaped(r) && PaddingCurrent(r, d) && r.stage in {HeadRead, TailRead} && !Suspended(r)
    ensures var r' := Captured(r, d);
      && Shaped(r') && PaddingCurrent(r', d) && !Suspended(r') && FirstAsleep(r')
      && r'.serialising == r.serialising
      && forall q :: Conflict(q, r') == Conflict(q, r) && Conflict(r', q) == Conflict(r, q)
  {
    MarkedAgain(r.(head := Bytes(d, PadStart(r), r.align)));
    var r' := Captured(r, d);
    SameMetrics(r, r');
    SameClaim(r, r');
    hide HeadBytes, TailBytes, PadStart, PadEnd, Mark, Conflict;
  }

  /** Replacing a running request by one with the same claim on the device. */
  lemma ProgressKeepsInv(s: State, id: Id, r: Request)
    requires Inv(s) && Running(s, id)
    requires Shaped(r) && PaddingCurrent(r, s.disk) && !Suspended(r) && FirstAsleep(r)
    requires r.serialising == s.reqs[id].serialising
    requires forall q :: Conflict(q, r) == Conflict(q, s.reqs[id]) && Conflict(r, q) == Conflict(s.reqs[id], q)
    ensures Inv(s.(reqs := s.reqs[id := r]))
  {
    hide Shaped, PaddingCurrent, Conflict, FirstAsleep;
    var t := s.(reqs := s.reqs[id := r]);
    assert Serialisers(t.reqs) == Serialisers(s.reqs);
    assert Linked(t);
    forall i, j ensures Apart(t.reqs, i, j) {
      assert Apart(s.reqs, i, j);
    }
    forall i ensures TargetRuns(t.reqs, i) {
      assert TargetRuns(s.reqs, i);
    }
  }

  lemma ReadDoneKeepsInv(s: State, id: Id)
    requires Inv(s) && Enabled(s, ReadDone(id))
    ensures Inv(Step(s, ReadDone(id)))
  {
    CapturedShaped(s.reqs[id], s.disk);
    hide Shaped, PaddingCurrent, Conflict, Captured;
    ProgressKeepsInv(s, id, Captured(s.reqs[id], s.disk));
  }

  /** The padded buffer differs from the device only in the bytes of the request. */
  lemma BufferAt(r: Request, d: Disk, x: int)
    requires Shaped(r) && r.isWrite && r.stage == WriteIo && PaddingCurrent(r, d)
    requires PadStart(r) <= x < PadEnd(r)
    ensures |Buffer(r)| == PadEnd(r) - PadStart(r)
    ensures Buffer(r)[x - PadStart(r)] ==
      if r.offset <= x < r.offset + r.bytes then r.data[x - r.offset] else d(x)
  {
    BufferLength(r);
  }

  /** The device after part of a padded write, told without the padding. */
  function Overlay(d: Disk, r: Request, lo: int, hi: int): Disk
    requires |r.data| == r.bytes
  {
    x => if lo <= x < hi && r.offset <= x < r.offset + r.bytes then r.data[x - r.offset] else d(x)
  }

  /** An unaligned write in progress changes exactly the bytes it was asked to
      write, whatever ran between its reads and its write. */
  lemma WriteChangesOwnBytes(s: State, id: Id, lo: int, hi: int)
    requires Inv(s) && Enabled(s, DriverWrite(id, lo, hi))
    ensures forall x :: Step(s, DriverWrite(id, lo, hi)).disk(x) == Overlay(s.disk, s.reqs[id], lo, hi)(x)
  {
    var r := s.reqs[id];
    BufferLength(r);
    forall x ensures Step(s, DriverWrite(id, lo, hi)).disk(x) == Overlay(s.disk, r, lo, hi)(x) {
      if lo <= x < hi { BufferAt(r, s.disk, x); }
    }
  }

  /** Nobody outside the conflict set touches what a request has read or written. */
  lemma PaddingUndisturbed(q: Request, r: Request, d: Disk, d': Disk, lo: int, hi: int)
    requires Shaped(q) && PaddingCurrent(q, d) && FirstAsleep(q)
    requires Shaped(r) && r.isWrite
    requires Suspended(q) || !Conflict(q, r)
    requires PadStart(r) <= lo <= hi <= PadEnd(r)
    requires forall x :: !(lo <= x < hi) ==> d'(x) == d(x)
    ensures PaddingCurrent(q, d')
  {
    if q.isWrite && q.serialising && !Suspended(q) {
      assert r.overlapOffset <= PadStart(r) && PadEnd(r) <= r.overlapOffset + r.overlapBytes;
      assert lo == hi || r.overlapOffset >= PadEnd(q) || PadStart(q) >= r.overlapOffset + r.overlapBytes;
    }
  }

  /** A write's own padding survives its own padded write. */
  lemma OwnPaddingKept(r: Request, d: Disk, lo: int, hi: int)
    requires Shaped(r) && PaddingCurrent(r, d) && r.isWrite && r.stage == WriteIo && !Suspended(r)
    requires PadStart(r) <= lo <= hi <= PadEnd(r)
    ensures var r', d' := r.(written := r.written + Span(lo, hi)), Overlay(d, r, lo, hi);
      Shaped(r') && PaddingCurrent(r', d')
  {
    var r', d' := r.(written := r.written + Span(lo, hi)), Overlay(d, r, lo, hi);
    SameMetrics(r, r');
    MetricsBounds(r);
    hide HeadBytes, TailBytes, PadStart, PadEnd, Span;
  }

  lemma MetricsBounds(r: Request)
    ensures PadStart(r) + HeadBytes(r) == r.offset && TailBytes(r) <= r.offset + r.bytes
  {}

  lemma SamePadding(r: Request, d: Disk, d': Disk)
    requires Shaped(r) && PaddingCurrent(r, d) && forall x :: d(x) == d'(x)
    ensures PaddingCurrent(r, d')
  {}

  lemma WriteKeepsPadding(s: State, id: Id, lo: int, hi: int, i: Id)
    requires Inv(s) && Enabled(s, DriverWrite(id, lo, hi)) && i in s.reqs
    ensures var s' := Step(s, DriverWrite(id, lo, hi)); Shaped(s'.reqs[i]) && PaddingCurrent(s'.reqs[i], s'.disk)
  {
    var s' := Step(s, DriverWrite(id, lo, hi));
    WriteChangesOwnBytes(s, id, lo, hi);
    hide Shaped, PaddingCurrent, Conflict;
    if i == id {
      OwnPaddingKept(s.reqs[id], s.disk, lo, hi);
      SamePadding(s'.reqs[id], Overlay(s.disk, s.reqs[id], lo, hi), s'.disk);
    } else {
      assert Apart(s.reqs, i, id);
      PaddingUndisturbed(s.reqs[i], s.reqs[id], s.disk, s'.disk, lo, hi);
    }
  }

  lemma WriteKeepsInv(s: State, id: Id, lo: int, hi: int)
    requires Inv(s) && Enabled(s, DriverWrite(id, lo, hi))
    ensures Inv(Step(s, DriverWrite(id, lo, hi)))
  {
    hide Shaped, PaddingCurrent, Buffer, Update;
    var s' := Step(s, DriverWrite(id, lo, hi));
    forall i | i in s'.reqs ensures Shaped(s'.reqs[i]) && PaddingCurrent(s'.reqs[i], s'.disk) {
      WriteKeepsPadding(s, id, lo, hi, i);
    }
    assert Serialisers(s'.reqs) == Serialisers(s.reqs);
    forall i, j ensures Apart(s'.reqs, i, j) {
      assert Apart(s.reqs, i, j);
    }
    forall i ensures TargetRuns(s'.reqs, i) {
      assert TargetRuns(s.reqs, i);
    }
  }

  lemma WokenShaped(r: Request, id: Id, d: Disk)
    requires Shaped(r) && PaddingCurrent(r, d) && FirstAsleep(r)
    ensures var r' := Wake(r, id); Shaped(r') && PaddingCurrent(r', d) && FirstAsleep(r')
    ensures Wake(r, id).serialising == r.serialising
  {}

  lemma EndLinked(s: State, id: Id)
    requires Linked(s) && id in s.reqs && (s.reqs[id].serialising ==> s.inFlight > 0)
    requires forall i <- s.reqs :: Shaped(Wake(s.reqs[i], id)) && Wake(s.reqs[i], id).serialising == s.reqs[i].serialising
    ensures Linked(End(s, id))
  {
    hide Shaped, Wake, Serialisers;
    var s' := End(s, id);
    SerialisersWithout(s.reqs, s'.reqs, id);
  }

  lemma SerialisersWithout(reqs: map<Id, Request>, reqs': map<Id, Request>, id: Id)
    requires id in reqs && reqs'.Keys == reqs.Keys - {id} && forall i <- reqs' :: reqs'[i].serialising == reqs[i].serialising
    ensures |Serialisers(reqs')| == |Serialisers(reqs)| - if reqs[id].serialising then 1 else 0
  {
    assert Serialisers(reqs') == Serialisers(reqs) - {id};
    if reqs[id].serialising { assert id in Serialisers(reqs); }
  }

  lemma EndKeepsRequests(s: State, id: Id)
    requires Inv(s) && Running(s, id)
    ensures s.reqs[id].serialising ==> s.inFlight > 0
    ensures var s' := End(s, id);
      && Linked(s')
      && (forall i <- s'.reqs :: PaddingCurrent(s'.reqs[i], s.disk) && FirstAsleep(s'.reqs[i]))
  {
    hide Shaped, PaddingCurrent, Conflict, FirstAsleep, Apart, TargetRuns, Wake;
    SerialiserCounted(s, id);
    forall i | i in s.reqs
      ensures Shaped(Wake(s.reqs[i], id)) && PaddingCurrent(Wake(s.reqs[i], id), s.disk) && FirstAsleep(Wake(s.reqs[i], id))
      ensures Wake(s.reqs[i], id).serialising == s.reqs[i].serialising
    {
      WokenShaped(s.reqs[i], id, s.disk);
    }
    EndLinked(s, id);
    hide Linked;
  }

  lemma EndKeepsInv(s: State, id: Id)
    requires Inv(s) && Running(s, id)
    ensures s.reqs[id].serialising ==> s.inFlight > 0
    ensures Inv(End(s, id))
  {
    EndKeepsRequests(s, id);
    hide Shaped, PaddingCurrent, Conflict, FirstAsleep, Linked;
    var s' := End(s, id);
    forall i ensures TargetRuns(s'.reqs, i) {
      assert TargetRuns(s.reqs, i);
    }
    forall i, j ensures Apart(s'.reqs, i, j) {
      assert Apart(s.reqs, i, j);
    }
  }

  lemma StepKeepsInv(s: State, e: Event)
    requires Inv(s) && Enabled(s, e)
    ensures Inv(Step(s, e))
  {
    match e
    case Begin(id, op) => BeginKeepsInv(s, id, op);
    case Resume(id) => ResumeKeepsInv(s, id);
    case Pass(id) => PassKeepsInv(s, id);
    case ReadDone(id) => ReadDoneKeepsInv(s, id);
    case DriverWrite(id, lo, hi) => WriteKeepsInv(s, id, lo, hi);
    case Finish(id) => EndKeepsInv(s, id);
    case Fail(id) => EndKeepsInv(s, id);
  }

  // ----- whole runs -----

  /** The events `es` can be taken one after the other from `s`. */
  ghost predicate CanRun(s: State, es: seq<Event>)
    decreases |es|
  {
    es == [] || (Linked(s) && Enabled(s, es[0]) && CanRun(Step(s, es[0]), es[1..]))
  }

  ghost function Exec(s: State, es: seq<Event>): State
    requires CanRun(s, es)
    decreases |es|
  {
    if es == [] then s else Exec(Step(s, es[0]), es[1..])
  }

  ghost predicate Reachable(s: State) {
    exists s0, es :: InitState(s0) && CanRun(s0, es) && Exec(s0, es) == s
  }

  lemma {:induction false} RunKeepsInv(s: State, es: seq<Event>)
    requires Inv(s) && CanRun(s, es)
    ensures Inv(Exec(s, es))
    decreases |es|
  {
    if es != [] {
      StepKeepsInv(s, es[0]);
      RunKeepsInv(Step(s, es[0]), es[1..]);
    }
  }

  lemma ReachableInv(s: State)
    requires Reachable(s)
    ensures Inv(s)
  {
    var s0, es :| InitState(s0) && CanRun(s0, es) && Exec(s0, es) == s;
    InitInv(s0);
    RunKeepsInv(s0, es);
  }

  /** In every interleaving, two overlapping requests of which one is serialising
      are never both past their first wait. */
  lemma Exclusion(s: State, i: Id, j: Id)
    requires Reachable(s) && i in s.reqs && j in s.reqs && i != j && Conflict(s.reqs[i], s.reqs[j])
    ensures s.reqs[i].stage == First || s.reqs[j].stage == First
  {
    ReachableInv(s);
    assert Apart(s.reqs, i, j);
  }

  /** The assertions in the aligned write and before the tail read: no wait but the
      first one ever sleeps, and the padded range lies in the tracked range. */
  lemma NeverWaitsAgain(s: State, id: Id)
    requires Reachable(s) && id in s.reqs
    ensures Suspended(s.reqs[id]) ==> s.reqs[id].stage == First
    ensures Running(s, id) && IsWait(s.reqs[id].stage) ==> Linked(s) && Target(s, id) == None
    ensures s.reqs[id].stage == WriteIo ==>
      && s.reqs[id].overlapOffset <= PadStart(s.reqs[id])
      && PadEnd(s.reqs[id]) <= s.reqs[id].overlapOffset + s.reqs[id].overlapBytes
  {
    ReachableInv(s);
    if Running(s, id) { TargetSound(s, id); }
  }

  // ----- no deadlock -----

  /** A sleeper has been woken, or sleeps on a request that is running. */
  lemma SleepsOnRunning(s: State, id: Id)
    requires Reachable(s) && id in s.reqs && Suspended(s.reqs[id]) && !s.reqs[id].woken
    ensures Running(s, s.reqs[id].waitingFor.value)
  {
    ReachableInv(s);
    assert TargetRuns(s.reqs, id);
  }

  /** A step of request `id` towards its completion. */
  predicate Advances(e: Event, id: Id) { (e.Resume? || e.Pass? || e.ReadDone? || e.DriverWrite? || e.Finish?) && e.id == id }

  function Rank(st: Stage): nat {
    match st
    case First => 8
    case HeadWait => 7
    case HeadRead => 6
    case TailWait => 5
    case TailReadWait => 4
    case TailRead => 3
    case WriteWait => 2
    case WriteIo => 1
    case ReadIo => 1
  }

  lemma PassAdvances(s: State, id: Id)
    requires Inv(s) && Running(s, id) && IsWait(s.reqs[id].stage)
    ensures var s' := Step(s, Pass(id));
      Running(s', id) && Rank(s'.reqs[id].stage) < Rank(s.reqs[id].stage) && s'.reqs.Keys == s.reqs.Keys
  {
    hide Shaped, PaddingCurrent, Conflict, Blocker, Target;
    TargetSound(s, id);
    assert Target(s, id).None?;
  }

  lemma ReadAdvances(s: State, id: Id)
    requires Inv(s) && Running(s, id) && s.reqs[id].stage in {HeadRead, TailRead}
    ensures var s' := Step(s, ReadDone(id));
      Running(s', id) && Rank(s'.reqs[id].stage) < Rank(s.reqs[id].stage) && s'.reqs.Keys == s.reqs.Keys
  {
    CapturedShaped(s.reqs[id], s.disk);
    hide Shaped, PaddingCurrent, Conflict, Mark, TailBytes, PadStart, Bytes;
  }

  lemma WriteAdvances(s: State, id: Id)
    requires Inv(s) && Running(s, id) && s.reqs[id].stage == WriteIo
    ensures var r := s.reqs[id]; var e := DriverWrite(id, PadStart(r), PadEnd(r));
      && Enabled(s, e) && var s' := Step(s, e);
      Running(s', id) && s'.reqs.Keys == s.reqs.Keys && Enabled(s', Finish(id))
  {
    var r := s.reqs[id];
    MetricsBounds(r);
    BufferLength(r);
    var r' := r.(written := r.written + Span(PadStart(r), PadEnd(r)));
    SameMetrics(r, r');
    hide Shaped, PaddingCurrent, Conflict, Span, PadStart, PadEnd, Buffer;
  }

  lemma RunFrom(s: State, e: Event, es: seq<Event>)
    requires Linked(s) && Enabled(s, e) && CanRun(Step(s, e), es)
    ensures CanRun(s, [e] + es) && Exec(s, [e] + es) == Exec(Step(s, e), es)
  {
    assert ([e] + es)[1..] == es;
  }

  lemma RunNone(s: State)
    ensures CanRun(s, []) && Exec(s, []) == s
  {}

  lemma {:induction false} RunThen(s: State, es: seq<Event>, es': seq<Event>)
    requires CanRun(s, es) && CanRun(Exec(s, es), es')
    ensures CanRun(s, es + es') && Exec(s, es + es') == Exec(Exec(s, es), es')
    decreases |es|
  {
    hide Step, Linked, Enabled;
    if es == [] {
      assert es + es' == es';
    } else {
      assert (es + es')[1..] == es[1..] + es';
      RunThen(Step(s, es[0]), es[1..], es');
    }
  }

  lemma FinishEnds(s: State, id: Id)
    requires Inv(s) && Enabled(s, Finish(id))
    ensures Step(s, Finish(id)).reqs.Keys == s.reqs.Keys - {id}
  {
    hide Shaped, PaddingCurrent, Conflict, Wake;
    SerialiserCounted(s, id);
  }

  /** A request past its first wait can run to its completion on its own. */
  lemma {:induction false} CanComplete(s: State, id: Id) returns (es: seq<Event>)
    requires Inv(s) && Running(s, id)
    ensures CanRun(s, es) && (forall e <- es :: Advances(e, id))
    ensures Inv(Exec(s, es)) && Exec(s, es).reqs.Keys == s.reqs.Keys - {id}
    decreases Rank(s.reqs[id].stage)
  {
    assert Linked(s);
    hide CanRun, Exec, Step, Linked, Inv;
    var st := s.reqs[id].stage;
    if st == ReadIo {
      es := CompleteLast(s, id);
    } else if st == WriteIo {
      var r := s.reqs[id];
      var e := DriverWrite(id, PadStart(r), PadEnd(r));
      WriteAdvances(s, id);
      StepKeepsInv(s, e);
      es := CompleteLast(Step(s, e), id);
      RunFrom(s, e, es);
      es := [e] + es;
    } else {
      var e := if IsWait(st) then Pass(id) else ReadDone(id);
      if IsWait(st) { PassAdvances(s, id); } else { ReadAdvances(s, id); }
      StepKeepsInv(s, e);
      es := CanComplete(Step(s, e), id);
      RunFrom(s, e, es);
      es := [e] + es;
    }
  }

  lemma CompleteLast(s: State, id: Id) returns (es: seq<Event>)
    requires Inv(s) && Enabled(s, Finish(id))
    ensures CanRun(s, es) && (forall e <- es :: Advances(e, id))
    ensures Inv(Exec(s, es)) && Exec(s, es).reqs.Keys == s.reqs.Keys - {id}
  {
    assert Linked(s);
    hide CanRun, Exec, Step, Linked, Inv, Enabled;
    StepKeepsInv(s, Finish(id));
    FinishEnds(s, id);
    RunNone(Step(s, Finish(id)));
    RunFrom(s, Finish(id), []);
    es := [Finish(id)] + [];
  }

  /** If nobody runs, a sleeper that has been woken gets through. */
  lemma ResumeRuns(s: State, id: Id)
    requires Inv(s) && id in s.reqs && forall i <- s.reqs :: Suspended(s.reqs[i])
    ensures Enabled(s, Resume(id)) && Running(Step(s, Resume(id)), id) && Step(s, Resume(id)).reqs.Keys == s.reqs.Keys
  {
    assert TargetRuns(s.reqs, id);
    hide Shaped, PaddingCurrent, Conflict, Blocker, AfterWait;
    var t := s.(reqs := s.reqs[id := s.reqs[id].(waitingFor := None)]);
    assert FirstAsleep(s.reqs[id]);
    AwakeTarget(s, id);
  }

  lemma AwakeTarget(s: State, id: Id)
    requires Inv(s) && id in s.reqs && forall i <- s.reqs :: Suspended(s.reqs[i])
    ensures Target(s.(reqs := s.reqs[id := s.reqs[id].(waitingFor := None)]), id) == None
    ensures IsWait(s.reqs[id].stage)
  {
    hide PaddingCurrent, Conflict;
  }

  /** Neither a failure nor a new request. */
  predicate Quiet(es: seq<Event>) { forall e <- es :: !e.Begin? && !e.Fail? }

  lemma QuietOwn(es: seq<Event>, id: Id)
    requires forall e <- es :: Advances(e, id)
    ensures Quiet(es) && Quiet([Resume(id)] + es)
  {}

  /** Some request in flight can complete. */
  lemma OneCompletes(s: State) returns (es: seq<Event>)
    requires Inv(s) && s.reqs.Keys != {}
    ensures CanRun(s, es) && Quiet(es) && Inv(Exec(s, es)) && Exec(s, es).reqs.Keys < s.reqs.Keys
  {
    assert Linked(s);
    hide CanRun, Exec, Step, Linked, Inv, Enabled, Quiet;
    if id: Id :| Running(s, id) {
      es := CanComplete(s, id);
      QuietOwn(es, id);
    } else {
      var id :| id in s.reqs;
      forall i <- s.reqs ensures Suspended(s.reqs[i]) { assert !Running(s, i); }
      ResumeRuns(s, id);
      StepKeepsInv(s, Resume(id));
      es := CanComplete(Step(s, Resume(id)), id);
      QuietOwn(es, id);
      RunFrom(s, Resume(id), es);
      es := [Resume(id)] + es;
    }
  }

  lemma {:induction false} Drains(s: State) returns (es: seq<Event>)
    requires Inv(s)
    ensures CanRun(s, es) && Quiet(es) && Exec(s, es).reqs.Keys == {}
    decreases s.reqs.Keys
  {
    hide CanRun, Exec, Inv;
    if s.reqs.Keys == {} {
      es := [];
      RunNone(s);
    } else {
      es := OneCompletes(s);
      var more := Drains(Exec(s, es));
      RunThen(s, es, more);
      es := es + more;
    }
  }

  /** No deadlock: from every reachable state the requests in flight can all complete,
      without a failure and without a new request. */
  lemma NoDeadlock(s: State) returns (es: seq<Event>)
    requires Reachable(s)
    ensures CanRun(s, es) && Quiet(es) && Exec(s, es).reqs == map[]
  {
    ReachableInv(s);
    es := Drains(s);
  }

  /** The device as byte-granular writes would leave it: every driver write
      delivers only the bytes its request was asked to write. */
  ghost function Ideal(s: State, es: seq<Event>, d: Disk): Disk
    requires CanRun(s, es)
    decreases |es|
  {
    if es == [] then d
    else
      Ideal(Step(s, es[0]), es[1..],
            if es[0].DriverWrite? then Overlay(d, s.reqs[es[0].id], es[0].lo, es[0].hi) else d)
  }

  /** Read-modify-write refines byte-granular writes: over any run the device holds
      what it would hold if no padding had ever been written back. */
  lemma {:induction false} PaddingIsInvisible(s: State, es: seq<Event>, d: Disk)
    requires Inv(s) && CanRun(s, es)
    requires forall x :: s.disk(x) == d(x)
    ensures forall x :: Exec(s, es).disk(x) == Ideal(s, es, d)(x)
    decreases |es|
  {
    if es != [] {
      var e := es[0];
      StepKeepsInv(s, e);
      if e.DriverWrite? { WriteChangesOwnBytes(s, e.id, e.lo, e.hi); }
      PaddingIsInvisible(Step(s, e), es[1..],
        if e.DriverWrite? then Overlay(d, s.reqs[e.id], e.lo, e.hi) else d);
    }
  }

  /** When an unaligned write completes successfully its data is on the device. */
  lemma CompletedWriteIsOnDisk(s: State, id: Id)
    requires Reachable(s) && Enabled(s, Finish(id)) && s.reqs[id].isWrite && s.reqs[id].serialising
    ensures |s.reqs[id].data| == s.reqs[id].bytes
    ensures forall x :: s.reqs[id].offset <= x < s.reqs[id].offset + s.reqs[id].bytes ==>
      s.disk(x) == s.reqs[id].data[x - s.reqs[id].offset]
  {
    hide Shaped, PaddingCurrent, Conflict, Exclusive, TargetRuns;
    ReachableInv(s);
    assert Shaped(s.reqs[id]) && PaddingCurrent(s.reqs[id], s.disk);
    StageOfFinish(s.reqs[id]);
    WrittenIsOnDisk(s.reqs[id], s.disk);
  }

  lemma StageOfFinish(r: Request)
    requires Shaped(r) && r.isWrite
    ensures r.stage != ReadIo
  {}

  lemma WrittenIsOnDisk(r: Request, d: Disk)
    requires Shaped(r) && PaddingCurrent(r, d) && r.isWrite && r.serialising && AllWritten(r)
    ensures |r.data| == r.bytes
    ensures forall x :: r.offset <= x < r.offset + r.bytes ==> d(x) == r.data[x - r.offset]
  {
    PadCovers(r);
    hide PadStart, PadEnd, HeadBytes, TailBytes;
    forall x | r.offset <= x < r.offset + r.bytes ensures d(x) == r.data[x - r.offset] {
      assert x in r.written;
    }
  }

  lemma PadCovers(r: Request)
    ensures PadStart(r) <= r.offset && r.offset + r.bytes <= PadEnd(r)
  {}
}
