/**
 The handler list and the bottom-half list of an AioContext (aio-posix.c, async.c)
 while callbacks add and delete entries and call aio_poll again.  The walks that
 are in progress form a stack, the innermost last; an entry is allocated exactly
 while it is in the key set of `handler` or `bh`.
 */
module AioLists {
  import opened Basics

  datatype Handler = Handler(fd: int, deleted: bool, read: bool, write: bool, revIn: bool, revOut: bool)

  datatype Bh = Bh(deleted: bool, scheduled: bool)

  /** A walk in progress: aio_dispatch at `node` with the events it has read there, or
      aio_bh_poll with the saved successor; `busy` while a callback runs. */
  datatype Frame =
    | Dispatch(node: nat, pendIn: bool, pendOut: bool, busy: bool)
    | BhPoll(next: Option<nat>, busy: bool)

  datatype State = State(
    handlers: seq<nat>, handler: map<nat, Handler>, walkingHandlers: int,
    bhs: seq<nat>, bh: map<nat, Bh>, walkingBh: int,
    stack: seq<Frame>,
    crashed: bool)      // an entry that is not allocated has been used

  datatype Event =
    | SetHandler(fd: int, read: bool, write: bool, newest: nat)   // aio_set_fd_handler; `newest` is what malloc would return
    | PollEvents(revents: map<nat, (bool, bool)>)                 // the loop after qemu_poll_ns
    | StartDispatch | RunRead | RunWrite | NextHandler            // aio_dispatch
    | NewBh(b: nat) | ScheduleBh(b: nat) | DeleteBh(b: nat)
    | StartBhPoll | NextBh | EndBhPoll                            // aio_bh_poll
    | Return                                                      // a callback returns

  /** The successor of a node in a list. */
  function Next(list: seq<nat>, n: nat): (r: Option<nat>)
    ensures r.Some? ==> r.value in list
  {
    if |list| < 2 then None
    else if list[0] == n then Some(list[1])
    else Next(list[1..], n)
  }

  function Remove(list: seq<nat>, n: nat): (r: seq<nat>)
    ensures forall x :: x in r <==> x in list && x != n
  {
    if list == [] then []
    else if list[0] == n then Remove(list[1..], n)
    else [list[0]] + Remove(list[1..], n)
  }

  /** find_aio_handler */
  function Find(list: seq<nat>, info: map<nat, Handler>, fd: int): (r: Option<nat>)
    requires forall n <- list :: n in info
    ensures r.Some? ==> r.value in list && info[r.value].fd == fd && !info[r.value].deleted
    ensures r.None? ==> forall n <- list :: info[n].fd == fd ==> info[n].deleted
  {
    if list == [] then None
    else if info[list[0]].fd == fd && !info[list[0]].deleted then Some(list[0])
    else Find(list[1..], info, fd)
  }

  function Reaped(list: seq<nat>, info: map<nat, Bh>): (r: seq<nat>)
    requires forall b <- list :: b in info
    ensures forall b :: b in r <==> b in list && !info[b].deleted
  {
    if list == [] then []
    else if info[list[0]].deleted then Reaped(list[1..], info)
    else [list[0]] + Reaped(list[1..], info)
  }

  // ----- what an event does to the lists -----

  /** aio_set_fd_handler */
  function SetFd(s: State, fd: int, read: bool, write: bool, newest: nat): State
    requires forall n <- s.handlers :: n in s.handler
  {
    var n := Find(s.handlers, s.handler, fd);
    if !read && !write then
      if n.None? then s
      else if s.walkingHandlers != 0 then
        s.(handler := s.handler[n.value := s.handler[n.value].(deleted := true, revIn := false, revOut := false)])
      else
        s.(handlers := Remove(s.handlers, n.value), handler := s.handler - {n.value})
    else if n.None? then
      s.(handlers := [newest] + s.handlers, handler := s.handler[newest := Handler(fd, false, read, write, false, false)])
    else
      s.(handler := s.handler[n.value := s.handler[n.value].(read := read, write := write)])
  }

  /** aio_dispatch comes to a node: it reads and clears the events. */
  function Visit(s: State, frames: seq<Frame>, n: nat): State
    requires n in s.handler
  {
    var h := s.handler[n];
    s.(handler := s.handler[n := h.(revIn := false, revOut := false)], walkingHandlers := s.walkingHandlers + 1,
       stack := frames + [Dispatch(n, h.revIn && h.read, h.revOut && h.write, false)])
  }

  function Below(s: State): seq<Frame>
    requires s.stack != []
  {
    s.stack[..|s.stack| - 1]
  }

  function Top(s: State): Frame
    requires s.stack != []
  {
    s.stack[|s.stack| - 1]
  }

  /** Code other than a walk runs: the main loop or a callback. */
  predicate Free(s: State) { s.stack == [] || Top(s).busy }

  predicate Enabled(s: State, e: Event) {
    match e
    case SetHandler(_, _, _, newest) => Free(s) && newest !in s.handler
    case PollEvents(_) => Free(s)
    case StartDispatch => Free(s)
    case RunRead => s.stack != [] && Top(s).Dispatch? && !Top(s).busy && Top(s).pendIn
    case RunWrite => s.stack != [] && Top(s).Dispatch? && !Top(s).busy && !Top(s).pendIn && Top(s).pendOut
    case NextHandler => s.stack != [] && Top(s).Dispatch? && !Top(s).busy && !Top(s).pendIn && !Top(s).pendOut
    case NewBh(b) => Free(s) && b !in s.bh
    case ScheduleBh(b) => Free(s) && b in s.bh && !s.bh[b].deleted
    case DeleteBh(b) => Free(s) && b in s.bh && !s.bh[b].deleted
    case StartBhPoll => Free(s)
    case NextBh => s.stack != [] && Top(s).BhPoll? && !Top(s).busy && Top(s).next.Some?
    case EndBhPoll => s.stack != [] && Top(s).BhPoll? && !Top(s).busy && Top(s).next.None?
    case Return => s.stack != [] && Top(s).busy
  }

  /** Every entry of a list is allocated, and nothing else is. */
  predicate ListOk<T>(list: seq<nat>, info: map<nat, T>) {
    (forall n <- list :: n in info) && (forall n <- info :: n in list) && Distinct(list)
  }

  /** The entry that a walk holds on to is allocated. */
  predicate FrameOk(s: State, f: Frame) {
    match f
    case Dispatch(n, _, _, _) => n in s.handler
    case BhPoll(next, _) => next.Some? ==> next.value in s.bh
  }

  function Dispatches(stack: seq<Frame>): nat {
    if stack == [] then 0 else Dispatches(stack[..|stack| - 1]) + if stack[|stack| - 1].Dispatch? then 1 else 0
  }

  function BhPolls(stack: seq<Frame>): nat {
    if stack == [] then 0 else BhPolls(stack[..|stack| - 1]) + if stack[|stack| - 1].BhPoll? then 1 else 0
  }

  predicate LivePair(handler: map<nat, Handler>, n: nat, m: nat)
    requires n in handler && m in handler
  {
    handler[n].fd == handler[m].fd && !handler[n].deleted && !handler[m].deleted ==> n == m
  }

  ghost predicate Inv(s: State) {
    && !s.crashed && ListOk(s.handlers, s.handler) && ListOk(s.bhs, s.bh)
    && (forall f <- s.stack :: FrameOk(s, f))
    && s.walkingHandlers == Dispatches(s.stack) && s.walkingBh == BhPolls(s.stack)
    && OneLive(s.handler)
  }

  predicate Allocated(s: State) { (forall n <- s.handlers :: n in s.handler) && (forall b <- s.bhs :: b in s.bh) }

  function Crash(s: State): State { s.(crashed := true) }

  function VisitNext(s: State, frames: seq<Frame>, next: Option<nat>): State {
    if next.None? then s else if next.value !in s.handler then Crash(s) else Visit(s, frames, next.value)
  }

  /** The end of a turn of aio_dispatch: the successor is read before the node may be freed. */
  function LeaveHandler(s: State): State
    requires s.stack != [] && Top(s).Dispatch? && Top(s).node in s.handler
  {
    var n := Top(s).node;
    var s' := s.(walkingHandlers := s.walkingHandlers - 1, stack := Below(s));
    var s'' := if s'.walkingHandlers == 0 && s.handler[n].deleted
               then s'.(handlers := Remove(s.handlers, n), handler := s.handler - {n}) else s';
    VisitNext(s'', Below(s), Next(s.handlers, n))
  }

  function RunCallback(s: State, isRead: bool): State
    requires s.stack != [] && Top(s).Dispatch? && Top(s).node in s.handler
  {
    var n := Top(s).node;
    var h := s.handler[n];
    s.(stack := Below(s) + [if isRead then Dispatch(n, false, Top(s).pendOut, !h.deleted && h.read)
                            else Dispatch(n, false, false, !h.deleted && h.write)])
  }

  function StepBh(s: State): State
    requires s.stack != [] && Top(s).BhPoll? && Top(s).next.Some? && Top(s).next.value in s.bh
  {
    var b := Top(s).next.value;
    var run := !s.bh[b].deleted && s.bh[b].scheduled;
    s.(bh := if run then s.bh[b := s.bh[b].(scheduled := false)] else s.bh,
       stack := Below(s) + [BhPoll(Next(s.bhs, b), run)])
  }

  function EndBh(s: State): State
    requires s.stack != [] && Allocated(s)
  {
    var s' := s.(walkingBh := s.walkingBh - 1, stack := Below(s));
    if s'.walkingBh != 0 then s'
    else s'.(bhs := Reaped(s.bhs, s.bh), bh := map b | b in s.bh && !(b in s.bhs && s.bh[b].deleted) :: s.bh[b])
  }

  function Step(s: State, e: Event): State
    requires Enabled(s, e)
  {
    if !Allocated(s) then Crash(s)
    else
      match e
      case SetHandler(fd, read, write, newest) => SetFd(s, fd, read, write, newest)
      case PollEvents(r) =>
        s.(handler := map n | n in s.handler :: if n in r then s.handler[n].(revIn := r[n].0, revOut := r[n].1) else s.handler[n])
      case StartDispatch => VisitNext(s, s.stack, if s.handlers == [] then None else Some(s.handlers[0]))
      case RunRead => if Top(s).node in s.handler then RunCallback(s, true) else Crash(s)
      case RunWrite => if Top(s).node in s.handler then RunCallback(s, false) else Crash(s)
      case NextHandler => if Top(s).node in s.handler then LeaveHandler(s) else Crash(s)
      case NewBh(b) => s.(bhs := [b] + s.bhs, bh := s.bh[b := Bh(false, false)])
      case ScheduleBh(b) => s.(bh := s.bh[b := s.bh[b].(scheduled := true)])
      case DeleteBh(b) => s.(bh := s.bh[b := Bh(true, false)])
      case StartBhPoll =>
        s.(walkingBh := s.walkingBh + 1, stack := s.stack + [BhPoll(if s.bhs == [] then None else Some(s.bhs[0]), false)])
      case NextBh => if Top(s).next.value in s.bh then StepBh(s) else Crash(s)
      case EndBhPoll => EndBh(s)
      case Return => s.(stack := Below(s) + [Top(s).(busy := false)])
  }

  // ----- lists -----

  lemma {:induction false} NextDiffers(list: seq<nat>, n: nat)
    requires Distinct(list)
    ensures Next(list, n).Some? ==> Next(list, n).value != n && Next(list, n).value in list
  {
    if |list| >= 2 && list[0] != n { NextDiffers(list[1..], n); }
  }

  lemma DistinctCons(x: nat, list: seq<nat>)
    requires Distinct(list) && x !in list
    ensures Distinct([x] + list)
  {}

  lemma {:induction false} RemoveKeepsOrder(list: seq<nat>, n: nat)
    requires Distinct(list)
    ensures Distinct(Remove(list, n))
  {
    if list != [] {
      RemoveKeepsOrder(list[1..], n);
      assert list[0] !in list[1..];
      DistinctCons(list[0], Remove(list[1..], n));
    }
  }

  lemma {:induction false} ReapKeepsOrder(list: seq<nat>, info: map<nat, Bh>)
    requires (forall b <- list :: b in info) && Distinct(list)
    ensures Distinct(Reaped(list, info))
  {
    if list != [] {
      ReapKeepsOrder(list[1..], info);
      assert list[0] !in list[1..];
      DistinctCons(list[0], Reaped(list[1..], info));
    }
  }

  lemma ListUpdate<T>(list: seq<nat>, info: map<nat, T>, n: nat, x: T)
    requires ListOk(list, info) && n in info
    ensures ListOk(list, info[n := x])
  {}

  lemma ListInsert<T>(list: seq<nat>, info: map<nat, T>, n: nat, x: T)
    requires ListOk(list, info) && n !in info
    ensures ListOk([n] + list, info[n := x])
  {}

  lemma ListRemove<T>(list: seq<nat>, info: map<nat, T>, n: nat)
    requires ListOk(list, info)
    ensures ListOk(Remove(list, n), info - {n})
  {
    RemoveKeepsOrder(list, n);
  }

  lemma ListReap(list: seq<nat>, info: map<nat, Bh>)
    requires ListOk(list, info)
    ensures ListOk(Reaped(list, info), map b | b in info && !(b in list && info[b].deleted) :: info[b])
  {
    ReapKeepsOrder(list, info);
    var r, m := Reaped(list, info), map b | b in info && !(b in list && info[b].deleted) :: info[b];
    forall b <- m ensures b in r {}
    forall b <- r ensures b in m {}
  }

  // ----- frames and counters -----

  lemma CountPush(stack: seq<Frame>, f: Frame)
    ensures Dispatches(stack + [f]) == Dispatches(stack) + if f.Dispatch? then 1 else 0
    ensures BhPolls(stack + [f]) == BhPolls(stack) + if f.BhPoll? then 1 else 0
  {
    assert (stack + [f])[..|stack|] == stack;
  }

  lemma TopCounts(s: State)
    requires s.stack != []
    ensures s.stack == Below(s) + [Top(s)] && Top(s) in s.stack && forall f <- Below(s) :: f in s.stack
    ensures Dispatches(s.stack) == Dispatches(Below(s)) + if Top(s).Dispatch? then 1 else 0
    ensures BhPolls(s.stack) == BhPolls(Below(s)) + if Top(s).BhPoll? then 1 else 0
  {}

  /** With a counter at 0 no walk of that kind is on the stack. */
  lemma {:induction false} NoWalks(stack: seq<Frame>)
    ensures Dispatches(stack) == 0 ==> forall f <- stack :: !f.Dispatch?
    ensures BhPolls(stack) == 0 ==> forall f <- stack :: !f.BhPoll?
  {
    if stack != [] { NoWalks(stack[..|stack| - 1]); }
  }

  /** Frames keep their entries when the allocated entries do not shrink, or when those
      of one kind shrink and no walk of that kind is left. */
  predicate Holds(s: State, s': State, frames: seq<Frame>) {
    && (s.handler.Keys <= s'.handler.Keys || Dispatches(frames) == 0)
    && (s.bh.Keys <= s'.bh.Keys || BhPolls(frames) == 0)
  }

  lemma FramesKept(s: State, s': State, frames: seq<Frame>)
    requires (forall f <- frames :: FrameOk(s, f)) && Holds(s, s', frames)
    ensures forall f <- frames :: FrameOk(s', f)
  {
    NoWalks(frames);
    forall f <- frames ensures FrameOk(s', f) { assert FrameOk(s, f); }
  }

  ghost predicate OneLive(handler: map<nat, Handler>) {
    forall n <- handler, m <- handler :: LivePair(handler, n, m)
  }

  lemma LiveUpdate(handler: map<nat, Handler>, n: nat, h: Handler)
    requires OneLive(handler) && n in handler && h.fd == handler[n].fd && (handler[n].deleted ==> h.deleted)
    ensures OneLive(handler[n := h])
  {
    forall x, y | x in handler && y in handler ensures LivePair(handler[n := h], x, y) {
      assert LivePair(handler, x, y);
    }
  }

  lemma LiveInsert(handler: map<nat, Handler>, n: nat, h: Handler)
    requires OneLive(handler) && n !in handler && forall m <- handler :: handler[m].fd == h.fd ==> handler[m].deleted
    ensures OneLive(handler[n := h])
  {
    var handler' := handler[n := h];
    forall x, y | x in handler' && y in handler' ensures LivePair(handler', x, y) {
      if x != n && y != n { assert LivePair(handler, x, y); }
    }
  }

  lemma LiveRemove(handler: map<nat, Handler>, n: nat)
    requires OneLive(handler)
    ensures OneLive(handler - {n})
  {
    var handler' := handler - {n};
    forall x, y | x in handler' && y in handler' ensures LivePair(handler', x, y) {
      assert LivePair(handler, x, y);
    }
  }

  // ----- each step keeps the invariant -----

  lemma SetFdKeepsInv(s: State, fd: int, read: bool, write: bool, newest: nat)
    requires Inv(s) && newest !in s.handler
    ensures Inv(SetFd(s, fd, read, write, newest))
  {
    hide ListOk, OneLive, Dispatches, BhPolls, FrameOk;
    Members(s.handlers, s.handler);
    var s' := SetFd(s, fd, read, write, newest);
    var n := Find(s.handlers, s.handler, fd);
    if n.Some? {
      var h := s.handler[n.value];
      var h1, h2 := h.(deleted := true, revIn := false, revOut := false), h.(read := read, write := write);
      ListUpdate(s.handlers, s.handler, n.value, h1);
      ListUpdate(s.handlers, s.handler, n.value, h2);
      LiveUpdate(s.handler, n.value, h1);
      LiveUpdate(s.handler, n.value, h2);
      ListRemove(s.handlers, s.handler, n.value);
      LiveRemove(s.handler, n.value);
    } else {
      ListInsert(s.handlers, s.handler, newest, Handler(fd, false, read, write, false, false));
      LiveInsert(s.handler, newest, Handler(fd, false, read, write, false, false));
    }
    FramesKept(s, s', s.stack);
  }

  lemma Members<T>(list: seq<nat>, info: map<nat, T>)
    requires ListOk(list, info)
    ensures (forall n <- list :: n in info) && (forall n <- info :: n in list)
  {}

  /** Coming to a node of the list starts a walk that holds it. */
  lemma VisitKeepsInv(s: State, n: nat)
    requires Inv(s) && n in s.handler
    ensures Inv(Visit(s, s.stack, n))
  {
    hide ListOk, OneLive, Dispatches, BhPolls;
    var s', h := Visit(s, s.stack, n), s.handler[n];
    ListUpdate(s.handlers, s.handler, n, h.(revIn := false, revOut := false));
    LiveUpdate(s.handler, n, h.(revIn := false, revOut := false));
    CountPush(s.stack, Dispatch(n, h.revIn && h.read, h.revOut && h.write, false));
    FramesKept(s, s', s.stack);
    assert s'.bhs == s.bhs && s'.bh == s.bh;
    assert forall f <- s'.stack :: f in s.stack || f == Dispatch(n, h.revIn && h.read, h.revOut && h.write, false);
  }

  /** Leaving a node frees it only if no walk is left on the stack. */
  lemma LeaveKeepsInv(s: State)
    requires Inv(s) && Enabled(s, NextHandler)
    ensures Top(s).node in s.handler && Inv(LeaveHandler(s))
  {
    hide ListOk, OneLive, Dispatches, BhPolls;
    TopCounts(s);
    assert FrameOk(s, Top(s));
    var n := Top(s).node;
    var s' := s.(walkingHandlers := s.walkingHandlers - 1, stack := Below(s));
    var s'' := if s'.walkingHandlers == 0 && s.handler[n].deleted
               then s'.(handlers := Remove(s.handlers, n), handler := s.handler - {n}) else s';
    ListRemove(s.handlers, s.handler, n);
    LiveRemove(s.handler, n);
    FramesKept(s, s'', Below(s));
    assert Inv(s'');
    Members(s.handlers, s.handler);
    assert Distinct(s.handlers) by { ListDistinct(s.handlers, s.handler); }
    NextDiffers(s.handlers, n);
    var next := Next(s.handlers, n);
    if next.Some? { VisitKeepsInv(s'', next.value); }
  }

  lemma ListDistinct<T>(list: seq<nat>, info: map<nat, T>)
    requires ListOk(list, info)
    ensures Distinct(list)
  {}

  /** Replacing the top frame by one of the same kind that holds an allocated entry. */
  lemma TopKeepsInv(s: State, f: Frame)
    requires Inv(s) && s.stack != [] && f.Dispatch? == Top(s).Dispatch? && FrameOk(s, f)
    ensures Inv(s.(stack := Below(s) + [f]))
  {
    hide ListOk, OneLive, Dispatches, BhPolls;
    var s' := s.(stack := Below(s) + [f]);
    TopCounts(s);
    CountPush(Below(s), f);
    FramesKept(s, s', Below(s));
    assert forall g <- s'.stack :: g in Below(s) || g == f;
  }

  lemma BhUpdateKeepsInv(s: State, b: nat, x: Bh)
    requires Inv(s) && b in s.bh
    ensures Inv(s.(bh := s.bh[b := x]))
  {
    hide ListOk, OneLive, Dispatches, BhPolls, FrameOk;
    ListUpdate(s.bhs, s.bh, b, x);
    FramesKept(s, s.(bh := s.bh[b := x]), s.stack);
  }

  lemma NewBhKeepsInv(s: State, b: nat)
    requires Inv(s) && b !in s.bh
    ensures Inv(s.(bhs := [b] + s.bhs, bh := s.bh[b := Bh(false, false)]))
  {
    hide ListOk, OneLive, Dispatches, BhPolls, FrameOk;
    ListInsert(s.bhs, s.bh, b, Bh(false, false));
    FramesKept(s, s.(bhs := [b] + s.bhs, bh := s.bh[b := Bh(false, false)]), s.stack);
  }

  lemma PushBhKeepsInv(s: State, f: Frame)
    requires Inv(s) && f.BhPoll? && FrameOk(s, f)
    ensures Inv(s.(walkingBh := s.walkingBh + 1, stack := s.stack + [f]))
  {
    hide ListOk, OneLive, Dispatches, BhPolls, FrameOk;
    var s' := s.(walkingBh := s.walkingBh + 1, stack := s.stack + [f]);
    CountPush(s.stack, f);
    FramesKept(s, s', s.stack + [f]);
  }

  lemma StartBhKeepsInv(s: State)
    requires Inv(s) && Allocated(s)
    ensures Inv(s.(walkingBh := s.walkingBh + 1, stack := s.stack + [BhPoll(if s.bhs == [] then None else Some(s.bhs[0]), false)]))
  {
    hide Inv;
    PushBhKeepsInv(s, BhPoll(if s.bhs == [] then None else Some(s.bhs[0]), false));
  }

  lemma StepBhKeepsInv(s: State)
    requires Inv(s) && Enabled(s, NextBh)
    ensures Top(s).next.value in s.bh && Inv(StepBh(s))
  {
    hide ListOk, OneLive, Dispatches, BhPolls;
    TopCounts(s);
    assert FrameOk(s, Top(s));
    var b := Top(s).next.value;
    Members(s.bhs, s.bh);
    var run := !s.bh[b].deleted && s.bh[b].scheduled;
    var s' := s.(bh := if run then s.bh[b := s.bh[b].(scheduled := false)] else s.bh);
    BhUpdateKeepsInv(s, b, s.bh[b].(scheduled := false));
    TopKeepsInv(s', BhPoll(Next(s.bhs, b), run));
  }

  /** Bottom halves are freed only when no walk of their list is left. */
  lemma EndBhKeepsInv(s: State)
    requires Inv(s) && Enabled(s, EndBhPoll) && Allocated(s)
    ensures Inv(EndBh(s))
  {
    hide ListOk, OneLive, Dispatches, BhPolls;
    TopCounts(s);
    ListReap(s.bhs, s.bh);
    FramesKept(s, EndBh(s), Below(s));
  }

  lemma EventsKeepInv(s: State, r: map<nat, (bool, bool)>)
    requires Inv(s)
    ensures Inv(s.(handler := map n | n in s.handler :: if n in r then s.handler[n].(revIn := r[n].0, revOut := r[n].1) else s.handler[n]))
  {
    var h' := map n | n in s.handler :: if n in r then s.handler[n].(revIn := r[n].0, revOut := r[n].1) else s.handler[n];
    forall x, y | x in h' && y in h' ensures LivePair(h', x, y) { assert LivePair(s.handler, x, y); }
    hide Dispatches, BhPolls, FrameOk;
    FramesKept(s, s.(handler := h'), s.stack);
  }

  lemma StepKeepsInv(s: State, e: Event)
    requires Inv(s) && Enabled(s, e)
    ensures Inv(Step(s, e))
  {
    Members(s.bhs, s.bh);
    Members(s.handlers, s.handler);
    if s.stack != [] { TopCounts(s); assert FrameOk(s, Top(s)); }
    hide ListOk, OneLive, Dispatches, BhPolls;
    match e
    case SetHandler(fd, read, write, newest) => SetFdKeepsInv(s, fd, read, write, newest);
    case PollEvents(r) => EventsKeepInv(s, r);
    case StartDispatch => if s.handlers != [] { VisitKeepsInv(s, s.handlers[0]); }
    case RunRead => TopKeepsInv(s, Top(RunCallback(s, true)));
    case RunWrite => TopKeepsInv(s, Top(RunCallback(s, false)));
    case NextHandler => LeaveKeepsInv(s);
    case NewBh(b) => NewBhKeepsInv(s, b);
    case ScheduleBh(b) => BhUpdateKeepsInv(s, b, s.bh[b].(scheduled := true));
    case DeleteBh(b) => BhUpdateKeepsInv(s, b, Bh(true, false));
    case StartBhPoll => StartBhKeepsInv(s);
    case NextBh => StepBhKeepsInv(s);
    case EndBhPoll => EndBhKeepsInv(s);
    case Return => TopKeepsInv(s, Top(s).(busy := false));
  }

  // ----- whole runs -----

  predicate CanRun(s: State, es: seq<Event>)
    decreases |es|
  {
    es == [] || (Enabled(s, es[0]) && CanRun(Step(s, es[0]), es[1..]))
  }

  function Exec(s: State, es: seq<Event>): State
    requires CanRun(s, es)
    decreases |es|
  {
    if es == [] then s else Exec(Step(s, es[0]), es[1..])
  }

  predicate InitState(s: State) {
    s.handlers == [] && s.handler == map[] && s.walkingHandlers == 0 && s.bhs == [] && s.bh == map[] && s.walkingBh == 0
    && s.stack == [] && !s.crashed
  }

  lemma {:induction false} RunKeepsInv(s: State, es: seq<Event>)
    requires Inv(s) && CanRun(s, es)
    ensures Inv(Exec(s, es))
    decreases |es|
  {
    hide Inv, Enabled;
    if es != [] {
      StepKeepsInv(s, es[0]);
      RunKeepsInv(Step(s, es[0]), es[1..]);
    }
  }

  /** However deep the walks nest and whatever their callbacks add and delete, no entry is
      used after it is freed, every walk holds an allocated entry, and no fd has two
      handlers that are not deleted. */
  lemma NeverUsesFreed(s: State, es: seq<Event>)
    requires InitState(s) && CanRun(s, es)
    ensures var t := Exec(s, es);
      && !t.crashed && (forall f <- t.stack :: FrameOk(t, f)) && OneLive(t.handler)
      && t.walkingHandlers == Dispatches(t.stack) && t.walkingBh == BhPolls(t.stack)
  {
    RunKeepsInv(s, es);
  }

  /** No handler of `fd` is left but deleted ones. */
  predicate Removed(s: State, fd: int) { forall n <- s.handler :: s.handler[n].fd == fd ==> s.handler[n].deleted }

  /** The step starts a callback of a handler of `fd`. */
  predicate Calls(s: State, e: Event, fd: int)
    requires Enabled(s, e)
  {
    (e.RunRead? || e.RunWrite?) && Top(s).node in s.handler && s.handler[Top(s).node].fd == fd
    && Step(s, e).stack != [] && Top(Step(s, e)).busy
  }

  predicate Adds(e: Event, fd: int) { e.SetHandler? && e.fd == fd && (e.read || e.write) }

  /** A later version of the handlers in which entries keep their fd and stay deleted. */
  predicate Later(handler: map<nat, Handler>, handler': map<nat, Handler>) {
    forall n <- handler' :: n in handler && handler'[n].fd == handler[n].fd && (handler[n].deleted ==> handler'[n].deleted)
  }

  lemma VisitIsLater(s: State, frames: seq<Frame>, next: Option<nat>)
    ensures Later(s.handler, VisitNext(s, frames, next).handler)
  {}

  lemma LeaveIsLater(s: State)
    requires s.stack != [] && Top(s).Dispatch? && Top(s).node in s.handler
    ensures Later(s.handler, LeaveHandler(s).handler)
  {
    hide VisitNext, Remove, Next;
    var n := Top(s).node;
    var s' := s.(walkingHandlers := s.walkingHandlers - 1, stack := Below(s));
    var s'' := if s'.walkingHandlers == 0 && s.handler[n].deleted
               then s'.(handlers := Remove(s.handlers, n), handler := s.handler - {n}) else s';
    VisitIsLater(s'', Below(s), Next(s.handlers, n));
  }

  lemma RemovedStays(s: State, e: Event, fd: int)
    requires Inv(s) && Enabled(s, e) && Removed(s, fd) && !Adds(e, fd)
    ensures Removed(Step(s, e), fd) && !Calls(s, e, fd)
  {
    Members(s.bhs, s.bh);
    Members(s.handlers, s.handler);
    if s.stack != [] { TopCounts(s); assert FrameOk(s, Top(s)); }
    hide Inv, VisitNext, LeaveHandler, StepBh, EndBh, Reaped, Calls;
    NotCalled(s, e, fd);
    if e.SetHandler? {
      hide Find, Remove;
    } else {
      if e.StartDispatch? { VisitIsLater(s, s.stack, if s.handlers == [] then None else Some(s.handlers[0])); }
      if e.NextHandler? { LeaveIsLater(s); }
      if e.NextBh? { BhsOnly(s); }
      if e.EndBhPoll? { BhsEndOnly(s); }
      assert Later(s.handler, Step(s, e).handler);
    }
  }

  lemma NotCalled(s: State, e: Event, fd: int)
    requires Enabled(s, e) && Allocated(s) && Removed(s, fd)
    ensures !Calls(s, e, fd)
  {}

  lemma BhsOnly(s: State)
    requires Enabled(s, NextBh) && Top(s).next.value in s.bh
    ensures StepBh(s).handler == s.handler
  {}

  lemma BhsEndOnly(s: State)
    requires Enabled(s, EndBhPoll) && Allocated(s)
    ensures EndBh(s).handler == s.handler
  {}

  predicate CallsIn(s: State, es: seq<Event>, fd: int)
    requires CanRun(s, es)
    decreases |es|
  {
    es != [] && (Calls(s, es[0], fd) || CallsIn(Step(s, es[0]), es[1..], fd))
  }

  lemma SetFdRemoves(s: State, fd: int, newest: nat)
    requires Inv(s)
    ensures (forall n <- s.handlers :: n in s.handler) && Removed(SetFd(s, fd, false, false, newest), fd)
  {
    Members(s.handlers, s.handler);
    var n := Find(s.handlers, s.handler, fd);
    if n.Some? {
      forall m <- s.handler ensures LivePair(s.handler, n.value, m) {}
    }
  }

  lemma {:induction false} RemovedSilent(s: State, es: seq<Event>, fd: int)
    requires Inv(s) && Removed(s, fd) && CanRun(s, es) && forall e <- es :: !Adds(e, fd)
    ensures !CallsIn(s, es, fd)
    decreases |es|
  {
    hide Inv, Enabled, Removed, Adds;
    if es != [] {
      StepKeepsInv(s, es[0]);
      RemovedStays(s, es[0], fd);
      RemovedSilent(Step(s, es[0]), es[1..], fd);
    }
  }

  /** Once aio_set_fd_handler has removed the handlers of an fd, none of its callbacks is
      started until a handler is set for it again, not even by walks that were already
      at the node. */
  lemma RemovedNeverCalled(s: State, fd: int, newest: nat, es: seq<Event>)
    requires Inv(s) && Enabled(s, SetHandler(fd, false, false, newest))
    requires CanRun(Step(s, SetHandler(fd, false, false, newest)), es) && forall e <- es :: !Adds(e, fd)
    ensures !CallsIn(Step(s, SetHandler(fd, false, false, newest)), es, fd)
  {
    Members(s.handlers, s.handler);
    Members(s.bhs, s.bh);
    hide CanRun, CallsIn, Adds;
    StepKeepsInv(s, SetHandler(fd, false, false, newest));
    SetFdRemoves(s, fd, newest);
    RemovedSilent(Step(s, SetHandler(fd, false, false, newest)), es, fd);
  }

  // ----- the loops over the lists -----

  class AioContext {
    var handlers: seq<nat>
    var handler: map<nat, Handler>
    var walkingHandlers: int
    var bhs: seq<nat>
    var bh: map<nat, Bh>

    constructor ()
      ensures handlers == [] && handler == map[] && walkingHandlers == 0 && bhs == [] && bh == map[]
    {
      handlers, handler, walkingHandlers, bhs, bh := [], map[], 0, [], map[];
    }

    ghost predicate Valid()
      reads this
    {
      ListOk(handlers, handler) && ListOk(bhs, bh) && OneLive(handler)
    }

    ghost function View(): State
      reads this
    {
      State(handlers, handler, walkingHandlers, bhs, bh, 0, [], false)
    }

    method FindAioHandler(fd: int) returns (r: Option<nat>)
      requires Valid()
      ensures r == Find(handlers, handler, fd)
      ensures r.Some? ==> forall n <- handler :: handler[n].fd == fd && !handler[n].deleted <==> n == r.value
    {
      var i := 0;
      while i < |handlers| && !(handler[handlers[i]].fd == fd && !handler[handlers[i]].deleted)
        invariant 0 <= i <= |handlers|
        invariant Find(handlers, handler, fd) == Find(handlers[i..], handler, fd)
      {
        i := i + 1;
      }
      r := if i < |handlers| then Some(handlers[i]) else None;
      if r.Some? {
        forall n <- handler ensures LivePair(handler, n, r.value) {}
      }
    }

    method SetFdHandler(fd: int, read: bool, write: bool, newest: nat)
      requires Valid() && newest !in handler
      modifies this
      ensures Valid() && View() == SetFd(old(View()), fd, read, write, newest)
      ensures !read && !write ==> Removed(View(), fd)
      ensures read || write ==>
        exists n <- handler :: !handler[n].deleted && handler[n].fd == fd && handler[n].read == read && handler[n].write == write
    {
      hide Find, Remove;
      var n := FindAioHandler(fd);
      if !read && !write {
        if n.Some? {
          if walkingHandlers != 0 {
            var h := handler[n.value].(deleted := true, revIn := false, revOut := false);
            LiveUpdate(handler, n.value, h);
            handler := handler[n.value := h];
          } else {
            ListRemove(handlers, handler, n.value);
            LiveRemove(handler, n.value);
            handlers, handler := Remove(handlers, n.value), handler - {n.value};
          }
        }
      } else if n.None? {
        var h := Handler(fd, false, read, write, false, false);
        LiveInsert(handler, newest, h);
        ListInsert(handlers, handler, newest, h);
        handlers, handler := [newest] + handlers, handler[newest := h];
        assert newest in handler;
      } else {
        var h := handler[n.value].(read := read, write := write);
        LiveUpdate(handler, n.value, h);
        handler := handler[n.value := h];
        assert n.value in handler;
      }
    }

    /** The loop of aio_bh_poll that removes deleted bottom halves. */
    method RemoveDeletedBhs()
      requires Valid()
      modifies `bhs, `bh
      ensures Valid() && bhs == Reaped(old(bhs), old(bh))
      ensures forall b <- bh :: !bh[b].deleted && b in old(bh) && bh[b] == old(bh)[b]
    {
      hide OneLive, ListOk, Reaping;
      ghost var list, info := bhs, bh;
      ReapStart(list, info);
      var i := 0;
      while i < |bhs|
        invariant 0 <= i <= |bhs| && Reaping(list, info, bhs, bh, i) && handler == old(handler) && handlers == old(handlers)
        decreases |bhs| - i
      {
        ReapStep(list, info, bhs, bh, i);
        var b := bhs[i];
        if bh[b].deleted {
          bhs := bhs[..i] + bhs[i + 1..];
          bh := bh - {b};
        } else {
          i := i + 1;
        }
      }
      ReapDone(list, info, bhs, bh);
    }
  }

  /** The removal has come to entry `i`: the entries before it stay. */
  ghost predicate Reaping(list: seq<nat>, info: map<nat, Bh>, bhs: seq<nat>, bh: map<nat, Bh>, i: nat) {
    && ListOk(list, info) && ListOk(bhs, bh) && i <= |bhs|
    && (forall b <- bh :: b in info && bh[b] == info[b])
    && (forall b <- bhs :: b in info) && bhs[..i] + Reaped(bhs[i..], info) == Reaped(list, info)
  }

  lemma ReapStart(list: seq<nat>, info: map<nat, Bh>)
    requires ListOk(list, info)
    ensures Reaping(list, info, list, info, 0)
  {
    assert list[0..] == list;
  }

  lemma ReapDelete(list: seq<nat>, info: map<nat, Bh>, bhs: seq<nat>, bh: map<nat, Bh>, i: nat)
    requires Reaping(list, info, bhs, bh, i) && i < |bhs| && bhs[i] in bh && bh[bhs[i]].deleted
    ensures Reaping(list, info, bhs[..i] + bhs[i + 1..], bh - {bhs[i]}, i)
  {
    var b, bhs' := bhs[i], bhs[..i] + bhs[i + 1..];
    RemoveAt(bhs, bh, i);
    hide ListOk;
    assert bhs'[..i] == bhs[..i] && bhs'[i..] == bhs[i + 1..] && bhs[i..][1..] == bhs[i + 1..];
  }

  lemma ReapKeep(list: seq<nat>, info: map<nat, Bh>, bhs: seq<nat>, bh: map<nat, Bh>, i: nat)
    requires Reaping(list, info, bhs, bh, i) && i < |bhs| && bhs[i] in bh && !bh[bhs[i]].deleted
    ensures Reaping(list, info, bhs, bh, i + 1)
  {
    hide ListOk;
    assert bhs[..i + 1] == bhs[..i] + [bhs[i]] && bhs[i..][1..] == bhs[i + 1..];
  }

  lemma ReapStep(list: seq<nat>, info: map<nat, Bh>, bhs: seq<nat>, bh: map<nat, Bh>, i: nat)
    requires Reaping(list, info, bhs, bh, i) && i < |bhs|
    ensures bhs[i] in bh
    ensures if bh[bhs[i]].deleted then Reaping(list, info, bhs[..i] + bhs[i + 1..], bh - {bhs[i]}, i)
            else Reaping(list, info, bhs, bh, i + 1)
  {
    assert bhs[i] in bh;
    hide Reaping;
    if bh[bhs[i]].deleted { ReapDelete(list, info, bhs, bh, i); } else { ReapKeep(list, info, bhs, bh, i); }
  }

  lemma ReapDone(list: seq<nat>, info: map<nat, Bh>, bhs: seq<nat>, bh: map<nat, Bh>)
    requires Reaping(list, info, bhs, bh, |bhs|)
    ensures (forall b <- list :: b in info) && ListOk(bhs, bh) && bhs == Reaped(list, info)
    ensures forall b <- bh :: !bh[b].deleted && b in info && bh[b] == info[b]
  {
    assert bhs[..|bhs|] == bhs && bhs[|bhs|..] == [];
  }

  lemma RemoveAt(list: seq<nat>, info: map<nat, Bh>, i: nat)
    requires ListOk(list, info) && i < |list|
    ensures ListOk(list[..i] + list[i + 1..], info - {list[i]})
  {
    var r := list[..i] + list[i + 1..];
    forall x | x in list && x != list[i] ensures x in r {
      var k :| 0 <= k < |list| && list[k] == x;
      assert k < i || r[k - 1] == x;
      if k < i { assert r[k] == x; }
    }
  }
}
