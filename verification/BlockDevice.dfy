/**
 The in-place code of block.c that takes the steps of `TrackedRequests`: the
 device object with its list of tracked requests and its counter, and the scan
 loop of wait_serialising_requests.
 */
module BlockDevice {
  import opened Basics
  import opened TrackedRequests

  /** The first `k` requests of the list have been woken if they wait for `id`. */
  ghost predicate WokenUpTo(before: map<Id, Request>, now: map<Id, Request>, list: seq<Id>, k: nat, id: Id)
    requires k <= |list|
  {
    now.Keys == before.Keys && forall i <- now :: now[i] == if i in list[..k] then Wake(before[i], id) else before[i]
  }

  lemma WokenStart(before: map<Id, Request>, list: seq<Id>, id: Id)
    ensures WokenUpTo(before, before, list, 0, id)
  {}

  lemma WokenNext(before: map<Id, Request>, now: map<Id, Request>, list: seq<Id>, k: nat, id: Id)
    requires k < |list| && WokenUpTo(before, now, list, k, id) && list[k] in before
    ensures list[k] in now
    ensures var i := list[k];
      WokenUpTo(before, if now[i].waitingFor == Some(id) then now[i := now[i].(woken := true)] else now, list, k + 1, id)
  {
    assert list[..k + 1] == list[..k] + [list[k]];
  }

  lemma WokenAll(before: map<Id, Request>, now: map<Id, Request>, list: seq<Id>, id: Id)
    requires WokenUpTo(before, now, list, |list|, id) && forall i :: i in list <==> i in before
    ensures now.Keys == before.Keys && forall i <- now :: now[i] == Wake(before[i], id)
  {
    assert list[..|list|] == list;
  }

  class BlockDriverState {
    var trackedRequests: seq<Id>
    var requests: map<Id, Request>
    var serialisingInFlight: nat
    var disk: Disk

    constructor (disk: Disk)
      ensures Inv(Value()) && trackedRequests == [] && this.disk == disk
    {
      trackedRequests, requests, serialisingInFlight := [], map[], 0;
      this.disk := disk;
      new;
      InitInv(Value());
    }

    ghost function Value(): State
      reads this
    {
      State(trackedRequests, requests, serialisingInFlight, disk)
    }

    method TrackedRequestBegin(id: Id, op: Op)
      requires id !in requests
      modifies this
      ensures Value() == old(Value()).(order := [id] + old(trackedRequests), reqs := old(requests)[id := Fresh(op)])
    {
      requests := requests[id := Fresh(op)];
      trackedRequests := [id] + trackedRequests;
    }

    method MarkRequestSerialising(id: Id, align: pos)
      requires id in requests
      modifies `requests, `serialisingInFlight
      ensures requests == old(requests)[id := Mark(old(requests)[id], align)]
      ensures serialisingInFlight == old(serialisingInFlight) + if old(requests)[id].serialising then 0 else 1
    {
      var r := requests[id];
      var o := r.offset - r.offset % align;
      var n := Up(r.offset + r.bytes, align) - o;
      if !r.serialising {
        serialisingInFlight := serialisingInFlight + 1;
        r := r.(serialising := true);
      }
      r := r.(overlapOffset := Min(r.overlapOffset, o));
      r := r.(overlapBytes := Max(r.overlapBytes, n));
      requests := requests[id := r];
    }

    /** Runs the loop of wait_serialising_requests up to the point where the
        coroutine sleeps (`waited`) or leaves the loop. */
    method WaitSerialisingRequests(self: Id) returns (waited: bool)
      requires self in requests && IsWait(requests[self].stage)
      requires forall i <- trackedRequests :: i in requests
      modifies `requests
      ensures Value() == Scan(old(Value()), self)
      ensures waited <==> Target(old(Value()), self).Some?
    {
      waited := false;
      var me := requests[self];
      if serialisingInFlight != 0 {
        var k := 0;
        while k < |trackedRequests|
          invariant 0 <= k <= |trackedRequests|
          invariant Blocker(trackedRequests, requests, self, me) == Blocker(trackedRequests[k..], requests, self, me)
        {
          var i := trackedRequests[k];
          var req := requests[i];
          if i != self && (req.serialising || me.serialising)
             && Overlaps(req, me.overlapOffset, me.overlapBytes)
             && req.waitingFor == None
          {
            requests := requests[self := me.(waitingFor := Some(i), woken := false)];
            return true;
          }
          k := k + 1;
        }
      }
      requests := requests[self := me.(waitingFor := None, woken := false, stage := AfterWait(me))];
    }

    /** Registers a read or a write and runs it to its first switch point. */
    method Submit(id: Id, op: Op) returns (waited: bool)
      requires Linked(Value()) && id !in requests
      modifies this
      ensures Value() == Step(old(Value()), Begin(id, op))
      ensures waited <==> Suspended(requests[id])
    {
      hide Shaped, Blocker, Conflict;
      TrackedRequestBegin(id, op);
      match op {
        case Read(_, _, _, cluster) =>
          if cluster.Some? { MarkRequestSerialising(id, cluster.value); }
        case Write(_, _, a) =>
          if HeadBytes(requests[id]) != 0 || TailBytes(requests[id]) != 0 { MarkRequestSerialising(id, a); }
      }
      assert requests == old(requests)[id := Widened(op)];
      waited := WaitSerialisingRequests(id);
    }

    /** qemu_co_queue_restart_all on the queue of `id`. */
    method RestartAll(id: Id)
      requires forall i :: i in trackedRequests <==> i in requests
      modifies `requests
      ensures requests.Keys == old(requests).Keys
      ensures forall i <- requests :: requests[i] == Wake(old(requests)[i], id)
    {
      hide WokenUpTo, Wake;
      var k := 0;
      WokenStart(requests, trackedRequests, id);
      while k < |trackedRequests|
        invariant 0 <= k <= |trackedRequests| && WokenUpTo(old(requests), requests, trackedRequests, k, id)
      {
        var i := trackedRequests[k];
        WokenNext(old(requests), requests, trackedRequests, k, id);
        if requests[i].waitingFor == Some(id) { requests := requests[i := requests[i].(woken := true)]; }
        k := k + 1;
      }
      WokenAll(old(requests), requests, trackedRequests, id);
    }

    method TrackedRequestEnd(id: Id)
      requires id in requests && (requests[id].serialising ==> serialisingInFlight > 0)
      requires forall i :: i in trackedRequests <==> i in requests
      modifies this
      ensures Value() == End(old(Value()), id)
    {
      if requests[id].serialising { serialisingInFlight := serialisingInFlight - 1; }
      trackedRequests := Without(trackedRequests, id);
      requests := requests - {id};
      RestartAll(id);
      hide Wake;
      assert requests == End(old(Value()), id).reqs;
    }
  }
}
