/**
 The wakeup protocol between aio_poll and qemu_bh_schedule (async.c, aio-posix.c),
 with one step per access to a flag that threads share, for any number of threads
 that schedule bottom halves while the owner of the context polls; what happens
 under the list lock is one step.  Callbacks run by the owner only do what other
 threads may do, so their steps are among those of the threads.
 */
module BottomHalves {
  /** Where a thread is in qemu_bh_schedule (SetBusy, SetScheduled, ReadDispatching, Notify),
      qemu_bh_schedule_idle (SetIdle, SetScheduledIdle) or qemu_bh_delete (SetDeleted). */
  datatype Pc =
    | SetBusy(bh: nat) | SetScheduled(bh: nat) | ReadDispatching(bh: nat) | Notify(bh: nat)
    | SetIdle(bh: nat) | SetScheduledIdle(bh: nat)
    | SetDeleted(bh: nat)

  /** Where the owner is in aio_poll. */
  datatype Poll =
    | Outside                                     // not in aio_poll
    | Entered                                     // dispatching is set, the list not yet read
    | Scan | ReadScheduled(bh: nat) | Clear(bh: nat) | ReadIdle(bh: nat) | ClearIdle(bh: nat) | Callback   // aio_bh_poll
    | Scanned                                     // before the second aio_set_dispatching
    | FirstDispatch
    | Wait                                        // in qemu_poll_ns
    | Woken | SecondDispatch | Leave

  datatype State = State(
    list: seq<nat>,           // first_bh and its successors
    scheduled: set<nat>, idle: set<nat>, deleted: set<nat>,
    onlyIdle: set<nat>,       // scheduled bottom halves that qemu_bh_schedule_idle scheduled
    dispatching: bool,
    notifier: bool,           // the event notifier is set
    threads: map<nat, Pc>,    // threads inside a call
    poll: Poll, blocking: bool, progress: bool, wasDispatching: bool,
    todo: seq<nat>)           // bottom halves that aio_bh_poll has still to look at

  datatype Event =
    | New(bh: nat)                                // aio_bh_new
    | Schedule(t: nat, bh: nat) | ScheduleIdle(t: nat, bh: nat) | Cancel(bh: nat) | Delete(t: nat, bh: nat)
    | Go(t: nat)                                  // thread t takes its next step
    | EnterPoll(blocking: bool)
    | Turn(out: bool)                             // the owner takes its next step
    | ClearNotifier

  predicate Busy(s: State, b: nat) { exists t <- s.threads :: s.threads[t].bh == b }

  /** A bottom half that may still be used: qemu_bh_delete has not been called on it. */
  predicate Live(s: State, b: nat) {
    b in s.list && b !in s.deleted && forall t <- s.threads :: s.threads[t] != SetDeleted(b)
  }

  predicate Enabled(s: State, e: Event) {
    match e
    case New(b) => b !in s.list && b !in s.deleted && b !in s.scheduled && b !in s.idle && !Busy(s, b)
    case Schedule(t, b) => t !in s.threads && Live(s, b)
    case ScheduleIdle(t, b) => t !in s.threads && Live(s, b)
    case Cancel(b) => Live(s, b)
    // the caller of qemu_bh_delete is the last one to use the bottom half
    case Delete(t, b) => t !in s.threads && Live(s, b) && !Busy(s, b)
    case Go(t) => t in s.threads
    case EnterPoll(_) => s.poll == Outside
    case Turn(out) => s.poll != Outside && (out ==> s.poll == FirstDispatch && !s.blocking)
    case ClearNotifier => s.poll == SecondDispatch
  }

  function NotDeleted(list: seq<nat>, deleted: set<nat>): (r: seq<nat>)
    ensures forall b :: b in r <==> b in list && b !in deleted
  {
    if list == [] then []
    else if list[0] in deleted then NotDeleted(list[1..], deleted)
    else [list[0]] + NotDeleted(list[1..], deleted)
  }

  function StepThread(s: State, t: nat): State
    requires t in s.threads
  {
    match s.threads[t]
    case SetBusy(b) => s.(idle := s.idle - {b}, threads := s.threads[t := SetScheduled(b)])
    case SetScheduled(b) =>
      s.(scheduled := s.scheduled + {b}, onlyIdle := s.onlyIdle - {b}, threads := s.threads[t := ReadDispatching(b)])
    case ReadDispatching(b) => if s.dispatching then s.(threads := s.threads - {t}) else s.(threads := s.threads[t := Notify(b)])
    case Notify(_) => s.(notifier := true, threads := s.threads - {t})
    case SetIdle(b) => s.(idle := s.idle + {b}, threads := s.threads[t := SetScheduledIdle(b)])
    case SetScheduledIdle(b) =>
      s.(scheduled := s.scheduled + {b}, onlyIdle := if b in s.scheduled then s.onlyIdle else s.onlyIdle + {b},
         threads := s.threads - {t})
    case SetDeleted(b) => s.(deleted := s.deleted + {b}, threads := s.threads - {t})
  }

  function StepPoll(s: State, out: bool): State
    requires s.poll != Outside
  {
    match s.poll
    case Entered => s.(poll := Scan, todo := s.list)
    case Scan =>
      if s.todo == [] then
        s.(poll := Scanned, list := NotDeleted(s.list, s.deleted), deleted := {},
           scheduled := s.scheduled - s.deleted, idle := s.idle - s.deleted, onlyIdle := s.onlyIdle - s.deleted,
           blocking := s.blocking && !s.progress)
      else
        var b := s.todo[0];
        s.(todo := s.todo[1..], poll := if b !in s.deleted then ReadScheduled(b) else Scan)
    case ReadScheduled(b) => s.(poll := if b in s.scheduled then Clear(b) else Scan)
    case Clear(b) => s.(scheduled := s.scheduled - {b}, onlyIdle := s.onlyIdle - {b}, poll := ReadIdle(b))
    case ReadIdle(b) => s.(progress := s.progress || b !in s.idle, poll := ClearIdle(b))
    case ClearIdle(b) => s.(idle := s.idle - {b}, poll := Callback)
    case Callback => s.(poll := Scan)
    case Scanned => s.(dispatching := !s.blocking, poll := FirstDispatch)
    case FirstDispatch => s.(poll := if out then Leave else Wait)
    case Wait => s.(poll := Woken)
    case Woken => s.(dispatching := true, poll := SecondDispatch)
    case SecondDispatch => s.(poll := Leave)
    case Leave => s.(dispatching := s.wasDispatching, poll := Outside)
  }

  function Step(s: State, e: Event): State
    requires Enabled(s, e)
  {
    match e
    case New(b) => s.(list := [b] + s.list)
    case Schedule(t, b) => if b in s.scheduled then s else s.(threads := s.threads[t := SetBusy(b)])
    case ScheduleIdle(t, b) => if b in s.scheduled then s else s.(threads := s.threads[t := SetIdle(b)])
    case Cancel(b) => s.(scheduled := s.scheduled - {b}, onlyIdle := s.onlyIdle - {b})
    case Delete(t, b) =>
      s.(scheduled := s.scheduled - {b}, onlyIdle := s.onlyIdle - {b}, threads := s.threads[t := SetDeleted(b)])
    case Go(t) => StepThread(s, t)
    case EnterPoll(blocking) =>
      s.(poll := Entered, blocking := blocking, progress := false, wasDispatching := s.dispatching, dispatching := !blocking)
    case Turn(out) => StepPoll(s, out)
    case ClearNotifier => s.(notifier := false)
  }

  // ----- the invariant -----

  /** Scheduled by qemu_bh_schedule, and neither run, cancelled nor deleted since. */
  predicate Wanted(s: State, b: nat) {
    b in s.scheduled && b !in s.onlyIdle && b !in s.deleted
  }

  /** A thread has made `b` scheduled and will look at `dispatching` and set the notifier. */
  predicate WillNotify(s: State, b: nat) {
    exists t <- s.threads :: s.threads[t] == ReadDispatching(b) || s.threads[t] == Notify(b)
  }

  predicate InScan(p: Poll) { p.Scan? || p.ReadScheduled? || p.Clear? || p.ReadIdle? || p.ClearIdle? || p.Callback? }

  /** aio_poll is on its way to a blocking wait. */
  predicate ToBlock(s: State) {
    s.blocking && (s.poll.Entered? || InScan(s.poll) || s.poll.Scanned? || s.poll.FirstDispatch? || s.poll.Wait?)
  }

  /** `b` is going to be looked at before the wait, or the wait will not block. */
  predicate Noticed(s: State, b: nat) {
    || s.notifier || WillNotify(s, b)
    || (InScan(s.poll) && (s.progress || b in s.todo))
    || s.poll == ReadScheduled(b) || s.poll == Clear(b) || s.poll.Entered?
  }

  /** A thread inside a call uses a bottom half that is not freed, and nobody else uses
      one that is being deleted. */
  predicate Attached(list: seq<nat>, deleted: set<nat>, pc: Pc) { pc.bh in list && pc.bh !in deleted }

  predicate Apart(pc: Pc, pc': Pc) { pc.SetDeleted? ==> pc'.bh != pc.bh }

  ghost predicate ThreadsOk(list: seq<nat>, deleted: set<nat>, threads: map<nat, Pc>) {
    && (forall t <- threads :: Attached(list, deleted, threads[t]))
    && (forall t <- threads, t' <- threads :: t != t' ==> Apart(threads[t], threads[t']))
  }

  predicate WalkOk(list: seq<nat>, p: Poll, todo: seq<nat>) {
    && (InScan(p) ==> forall b <- todo :: b in list)
    && (p.ReadScheduled? || p.Clear? || p.ReadIdle? || p.ClearIdle? ==> p.bh in list)
  }

  /** Every thread, and the walk of the list, refers to a bottom half that is not freed. */
  ghost predicate Linked(s: State) {
    && (forall b <- s.scheduled :: b in s.list)
    && (forall b <- s.deleted :: b in s.list)
    && ThreadsOk(s.list, s.deleted, s.threads)
    && WalkOk(s.list, s.poll, s.todo)
  }

  ghost predicate Awake(s: State) {
    ToBlock(s) ==> !s.dispatching && forall b :: Wanted(s, b) ==> Noticed(s, b)
  }

  ghost predicate Inv(s: State) { Linked(s) && Awake(s) }

  predicate InitState(s: State) {
    && s.list == [] && s.scheduled == {} && s.idle == {} && s.deleted == {} && s.onlyIdle == {}
    && !s.dispatching && s.threads == map[] && s.poll == Outside
  }

  lemma ThreadsUpdate(list: seq<nat>, deleted: set<nat>, threads: map<nat, Pc>, t: nat, pc: Pc)
    requires ThreadsOk(list, deleted, threads) && t in threads && pc.bh == threads[t].bh && !pc.SetDeleted?
    ensures ThreadsOk(list, deleted, threads[t := pc])
  {}

  lemma ThreadsRemove(list: seq<nat>, deleted: set<nat>, threads: map<nat, Pc>, t: nat)
    requires ThreadsOk(list, deleted, threads) && t in threads
    ensures ThreadsOk(list, deleted, threads - {t})
    ensures threads[t].SetDeleted? ==> ThreadsOk(list, deleted + {threads[t].bh}, threads - {t})
  {}

  lemma ThreadsAdd(list: seq<nat>, deleted: set<nat>, threads: map<nat, Pc>, t: nat, pc: Pc)
    requires ThreadsOk(list, deleted, threads) && t !in threads && Attached(list, deleted, pc)
    requires forall u <- threads :: Apart(pc, threads[u]) && Apart(threads[u], pc)
    ensures ThreadsOk(list, deleted, threads[t := pc])
  {}

  lemma ThreadsGrow(list: seq<nat>, deleted: set<nat>, threads: map<nat, Pc>, b: nat)
    requires ThreadsOk(list, deleted, threads)
    ensures ThreadsOk([b] + list, deleted, threads)
  {}

  lemma ThreadsReap(list: seq<nat>, deleted: set<nat>, threads: map<nat, Pc>)
    requires ThreadsOk(list, deleted, threads)
    ensures ThreadsOk(NotDeleted(list, deleted), {}, threads)
  {
    hide NotDeleted;
  }

  lemma ThreadAttached(list: seq<nat>, deleted: set<nat>, threads: map<nat, Pc>, t: nat)
    requires ThreadsOk(list, deleted, threads) && t in threads
    ensures threads[t].bh in list
  {
    assert Attached(list, deleted, threads[t]);
  }

  lemma ThreadKeepsLinked(s: State, t: nat)
    requires Linked(s) && t in s.threads
    ensures Linked(StepThread(s, t))
  {
    hide ThreadsOk, Attached, Apart, WalkOk;
    ThreadAttached(s.list, s.deleted, s.threads, t);
    match s.threads[t] {
      case SetBusy(b) => ThreadsUpdate(s.list, s.deleted, s.threads, t, SetScheduled(b));
      case SetScheduled(b) => ThreadsUpdate(s.list, s.deleted, s.threads, t, ReadDispatching(b));
      case SetIdle(b) => ThreadsUpdate(s.list, s.deleted, s.threads, t, SetScheduledIdle(b));
      case ReadDispatching(b) =>
        ThreadsUpdate(s.list, s.deleted, s.threads, t, Notify(b));
        ThreadsRemove(s.list, s.deleted, s.threads, t);
      case _ => ThreadsRemove(s.list, s.deleted, s.threads, t);
    }
  }

  lemma ReapKeepsLinked(s: State, out: bool)
    requires Linked(s) && s.poll == Scan && s.todo == []
    ensures Linked(StepPoll(s, out))
  {
    hide ThreadsOk, NotDeleted;
    ThreadsReap(s.list, s.deleted, s.threads);
  }

  /** A turn of aio_poll that does not free anything. */
  lemma TurnKeepsWalk(s: State, out: bool)
    requires s.poll != Outside && WalkOk(s.list, s.poll, s.todo) && !(s.poll == Scan && s.todo == [])
    ensures var s' := StepPoll(s, out);
      && s'.list == s.list && s'.threads == s.threads && s'.deleted == s.deleted && s'.scheduled <= s.scheduled
      && WalkOk(s'.list, s'.poll, s'.todo)
  {
    hide NotDeleted;
    match s.poll
    case Entered =>
    case Scan =>
    case ReadScheduled(_) =>
    case Clear(_) =>
    case ReadIdle(_) =>
    case ClearIdle(_) =>
    case _ =>
  }

  lemma PollKeepsLinked(s: State, out: bool)
    requires Linked(s) && Enabled(s, Turn(out))
    ensures Linked(StepPoll(s, out))
  {
    hide ThreadsOk, NotDeleted, StepPoll, WalkOk;
    if s.poll == Scan && s.todo == [] {
      ReapKeepsLinked(s, out);
    } else {
      TurnKeepsWalk(s, out);
    }
  }

  lemma CallKeepsLinked(s: State, e: Event)
    requires Linked(s) && Enabled(s, e) && !e.Go? && !e.Turn?
    ensures Linked(Step(s, e))
  {
    match e
    case New(b) => ThreadsGrow(s.list, s.deleted, s.threads, b);
    case Schedule(t, b) => if b !in s.scheduled { ThreadsAdd(s.list, s.deleted, s.threads, t, SetBusy(b)); }
    case ScheduleIdle(t, b) => if b !in s.scheduled { ThreadsAdd(s.list, s.deleted, s.threads, t, SetIdle(b)); }
    case Delete(t, b) => ThreadsAdd(s.list, s.deleted, s.threads, t, SetDeleted(b));
    case _ =>
  }

  /** A thread that has made `b` scheduled either still will notify, or has seen
      `dispatching` set, which it is not on the way to a blocking wait. */
  lemma ThreadKeepsNotice(s: State, t: nat, b: nat)
    requires t in s.threads && !s.dispatching && Noticed(s, b)
    ensures Noticed(StepThread(s, t), b)
  {
    var s' := StepThread(s, t);
    if WillNotify(s, b) {
      var u :| u in s.threads && (s.threads[u] == ReadDispatching(b) || s.threads[u] == Notify(b));
      if u != t {
        assert u in s'.threads && s'.threads[u] == s.threads[u];
      } else if s.threads[u] == ReadDispatching(b) {
        assert s'.threads[u] == Notify(b);
      }
    }
  }

  lemma ThreadKeepsAwake(s: State, t: nat)
    requires Inv(s) && t in s.threads
    ensures Awake(StepThread(s, t))
  {
    hide Linked, Noticed;
    var s' := StepThread(s, t);
    if ToBlock(s') {
      forall b | Wanted(s', b) ensures Noticed(s', b) {
        if s.threads[t] == SetScheduled(b) {
          Announced(s', t, b);
        } else {
          assert Wanted(s, b);
          ThreadKeepsNotice(s, t, b);
        }
      }
    }
  }

  lemma Announced(s: State, t: nat, b: nat)
    requires t in s.threads && s.threads[t] == ReadDispatching(b)
    ensures Noticed(s, b)
  {}

  lemma PollKeepsAwake(s: State, out: bool)
    requires Inv(s) && Enabled(s, Turn(out))
    ensures Awake(StepPoll(s, out))
  {
    var s' := StepPoll(s, out);
    if ToBlock(s') {
      forall b | Wanted(s', b) ensures Noticed(s', b) {
        assert Wanted(s, b) && Noticed(s, b);
        assert WillNotify(s', b) == WillNotify(s, b);
      }
    }
  }

  lemma CallKeepsAwake(s: State, e: Event)
    requires Inv(s) && Enabled(s, e) && !e.Go? && !e.Turn?
    ensures Awake(Step(s, e))
  {
    var s' := Step(s, e);
    if ToBlock(s') {
      forall b | Wanted(s', b) ensures Noticed(s', b) {
        if !e.EnterPoll? {
          assert Wanted(s, b) && Noticed(s, b);
          if WillNotify(s, b) {
            var t' :| t' in s.threads && (s.threads[t'] == ReadDispatching(b) || s.threads[t'] == Notify(b));
            assert t' in s'.threads && s'.threads[t'] == s.threads[t'];
          }
        }
      }
    }
  }

  lemma StepKeepsInv(s: State, e: Event)
    requires Inv(s) && Enabled(s, e)
    ensures Inv(Step(s, e))
  {
    hide Linked, Awake;
    match e
    case Go(t) => ThreadKeepsLinked(s, t); ThreadKeepsAwake(s, t);
    case Turn(out) => PollKeepsLinked(s, out); PollKeepsAwake(s, out);
    case _ => CallKeepsLinked(s, e); CallKeepsAwake(s, e);
  }

  // ----- whole runs -----

  predicate CanRun(s: State, es: seq<Event>)
    decreases |es|
  {
    es == [] || (Enabled(s, es[0]) && CanRun(Step(s, es[0]), es[1..]))
  }

  function Exec(s: State, es: seq<Event>): State
    requires CanRun(s, es)
    decreases |es|
  {
    if es == [] then s else Exec(Step(s, es[0]), es[1..])
  }

  lemma {:induction false} RunKeepsInv(s: State, es: seq<Event>)
    requires Inv(s) && CanRun(s, es)
    ensures Inv(Exec(s, es))
    decreases |es|
  {
    hide Inv, Enabled;
    if es != [] {
      StepKeepsInv(s, es[0]);
      RunKeepsInv(Step(s, es[0]), es[1..]);
    }
  }

  lemma InitInv(s: State)
    requires InitState(s)
    ensures Inv(s)
  {}

  /** Whenever aio_poll is about to block, every bottom half scheduled by qemu_bh_schedule
      has the notifier set, or a scheduler that will still set it. */
  lemma NoLostWakeup(s: State, es: seq<Event>, b: nat)
    requires InitState(s) && CanRun(s, es)
    requires Exec(s, es).poll == Wait && Exec(s, es).blocking && Wanted(Exec(s, es), b)
    ensures Exec(s, es).notifier || WillNotify(Exec(s, es), b)
  {
    InitInv(s);
    RunKeepsInv(s, es);
    assert Noticed(Exec(s, es), b);
  }

  /** No thread is ever inside a call on a bottom half that has been freed, and neither is
      the walk of aio_bh_poll. */
  lemma NeverFreed(s: State, es: seq<Event>)
    requires InitState(s) && CanRun(s, es)
    ensures var t := Exec(s, es);
      && (forall u <- t.threads :: t.threads[u].bh in t.list)
      && (InScan(t.poll) ==> forall b <- t.todo :: b in t.list)
  {
    InitInv(s);
    RunKeepsInv(s, es);
    forall u <- Exec(s, es).threads ensures Exec(s, es).threads[u].bh in Exec(s, es).list {
      ThreadAttached(Exec(s, es).list, Exec(s, es).deleted, Exec(s, es).threads, u);
    }
  }

  // ----- the guarantee in terms of the flags -----

  /** `b` looks scheduled and not idle, but only qemu_bh_schedule_idle has scheduled it. */
  predicate Stray(s: State, b: nat) { b in s.scheduled && b in s.onlyIdle && b !in s.idle }

  /** A thread is about to set `scheduled` in qemu_bh_schedule, and will then notify. */
  predicate Coming(s: State, b: nat) { exists t <- s.threads :: s.threads[t] == SetScheduled(b) }

  /** The owner takes back the idle flag of a bottom half that has been scheduled as idle
      since it was found. */
  predicate OwnerTakes(s: State, e: Event, b: nat) {
    e.Turn? && s.poll == ClearIdle(b) && b in s.scheduled && b in s.onlyIdle
  }

  /** A thread schedules as idle after its idle flag has been taken back. */
  predicate LateIdle(s: State, e: Event, b: nat) {
    e.Go? && e.t in s.threads && s.threads[e.t] == SetScheduledIdle(b) && b !in s.scheduled && b !in s.idle
  }

  /** qemu_bh_schedule takes back the idle flag of a bottom half scheduled as idle. */
  predicate Upgrades(s: State, e: Event, b: nat) {
    e.Go? && e.t in s.threads && s.threads[e.t] == SetBusy(b) && b in s.scheduled && b in s.onlyIdle && b in s.idle
  }

  lemma ThreadStray(s: State, t: nat, b: nat)
    requires t in s.threads && !Stray(s, b)
    ensures Stray(StepThread(s, t), b) <==> LateIdle(s, Go(t), b) || Upgrades(s, Go(t), b)
  {
    match s.threads[t]
    case SetBusy(_) =>
    case SetScheduled(_) =>
    case SetScheduledIdle(_) =>
    case SetIdle(_) =>
    case _ =>
  }

  lemma TurnStray(s: State, out: bool, b: nat)
    requires s.poll != Outside && !Stray(s, b)
    ensures Stray(StepPoll(s, out), b) <==> OwnerTakes(s, Turn(out), b)
  {
    hide NotDeleted;
    match s.poll
    case Scan =>
    case Clear(_) =>
    case ClearIdle(_) =>
    case ReadIdle(_) =>
    case _ =>
  }

  /** A bottom half comes to look scheduled and not idle, without qemu_bh_schedule having
      scheduled it, by exactly these three steps. */
  lemma StrayIff(s: State, e: Event, b: nat)
    requires Enabled(s, e) && !Stray(s, b)
    ensures Stray(Step(s, e), b) <==> OwnerTakes(s, e, b) || LateIdle(s, e, b) || Upgrades(s, e, b)
  {
    hide StepPoll, StepThread;
    match e
    case Go(t) => ThreadStray(s, t, b);
    case Turn(out) => TurnStray(s, out, b);
    case _ =>
  }

  /** Nobody will notify for it. */
  predicate Missed(s: State, b: nat) { Stray(s, b) && !Coming(s, b) }

  /** The two of those steps after which nobody is about to notify. */
  predicate Misses(s: State, e: Event, b: nat) { (OwnerTakes(s, e, b) || LateIdle(s, e, b)) && !Coming(s, b) }

  /** Only the thread that steps can come to, or leave, the point before `scheduled` is set. */
  predicate OthersStay(threads: map<nat, Pc>, threads': map<nat, Pc>, t: nat) {
    (forall u <- threads :: u != t ==> u in threads' && threads'[u] == threads[u])
    && (forall u <- threads' :: u != t ==> u in threads)
  }

  lemma ThreadOthers(s: State, t: nat)
    requires t in s.threads
    ensures OthersStay(s.threads, StepThread(s, t).threads, t)
  {
    match s.threads[t]
    case SetBusy(_) =>
    case SetScheduled(_) =>
    case ReadDispatching(_) =>
    case SetIdle(_) =>
    case _ =>
  }

  lemma ThreadNext(s: State, t: nat, b: nat)
    requires t in s.threads
    ensures var s' := StepThread(s, t);
      (t in s'.threads && s'.threads[t] == SetScheduled(b)) <==> s.threads[t] == SetBusy(b)
    ensures s.threads[t] == SetScheduled(b) ==> !Stray(StepThread(s, t), b)
  {
    match s.threads[t]
    case SetBusy(_) =>
    case SetScheduled(_) =>
    case _ =>
  }

  lemma ThreadComing(s: State, t: nat, b: nat)
    requires t in s.threads
    ensures s.threads[t] == SetBusy(b) ==> Coming(StepThread(s, t), b)
    ensures s.threads[t] != SetBusy(b) && s.threads[t] != SetScheduled(b) ==> Coming(StepThread(s, t), b) == Coming(s, b)
    ensures s.threads[t] == SetScheduled(b) ==> !Stray(StepThread(s, t), b)
  {
    ThreadOthers(s, t);
    ThreadNext(s, t, b);
    hide StepThread, Stray;
    var s' := StepThread(s, t);
    if Coming(s, b) && s.threads[t] != SetScheduled(b) {
      var u :| u in s.threads && s.threads[u] == SetScheduled(b);
      assert u in s'.threads && s'.threads[u] == SetScheduled(b);
    }
  }

  lemma TurnComing(s: State, out: bool, b: nat)
    requires s.poll != Outside
    ensures Coming(StepPoll(s, out), b) == Coming(s, b)
  {
    TurnKeepsThreads(s, out);
    hide StepPoll;
  }

  lemma CallComing(s: State, e: Event, b: nat)
    requires Enabled(s, e) && !e.Go? && !e.Turn?
    ensures Coming(Step(s, e), b) == Coming(s, b)
  {
    var s' := Step(s, e);
    if Coming(s, b) {
      var u :| u in s.threads && s.threads[u] == SetScheduled(b);
      assert u in s'.threads && s'.threads[u] == SetScheduled(b);
    }
  }

  lemma StrayStays(s: State, e: Event, b: nat)
    requires Enabled(s, e) && Stray(s, b) && Coming(s, b)
    ensures !Missed(Step(s, e), b)
  {
    hide StepPoll, StepThread, Stray;
    match e
    case Go(t) => ThreadComing(s, t, b);
    case Turn(out) => TurnComing(s, out, b);
    case _ => CallComing(s, e, b);
  }

  /** A bottom half comes to be missed by exactly those two steps. */
  lemma MissedIff(s: State, e: Event, b: nat)
    requires Enabled(s, e) && !Missed(s, b)
    ensures Missed(Step(s, e), b) <==> Misses(s, e, b)
  {
    if Stray(s, b) {
      StrayStays(s, e, b);
    } else {
      StrayIff(s, e, b);
      hide StepPoll, StepThread, Stray;
      match e
      case Go(t) => ThreadComing(s, t, b);
      case Turn(out) => TurnComing(s, out, b);
      case _ => CallComing(s, e, b);
    }
  }

  /** No step of the run is one of the two for `b`. */
  predicate NeverMisses(s: State, es: seq<Event>, b: nat)
    requires CanRun(s, es)
    decreases |es|
  {
    es == [] || (!Misses(s, es[0], b) && NeverMisses(Step(s, es[0]), es[1..], b))
  }

  lemma {:induction false} RunNotMissed(s: State, es: seq<Event>, b: nat)
    requires CanRun(s, es) && !Missed(s, b) && NeverMisses(s, es, b)
    ensures !Missed(Exec(s, es), b)
    decreases |es|
  {
    hide Enabled, Missed, Misses;
    if es != [] {
      MissedIff(s, es[0], b);
      RunNotMissed(Step(s, es[0]), es[1..], b);
    }
  }

  /** In a run without those two steps on `b`: whenever aio_poll is about to block and `b` is
      scheduled, not deleted and not idle, the notifier is set or a scheduler will set it. */
  lemma FlagsNoticed(s: State, es: seq<Event>, b: nat)
    requires InitState(s) && CanRun(s, es) && NeverMisses(s, es, b)
    requires Exec(s, es).poll == Wait && Exec(s, es).blocking
    requires b in Exec(s, es).scheduled && b !in Exec(s, es).deleted && b !in Exec(s, es).idle
    ensures Exec(s, es).notifier || WillNotify(Exec(s, es), b) || Coming(Exec(s, es), b)
  {
    RunNotMissed(s, es, b);
    if b !in Exec(s, es).onlyIdle { NoLostWakeup(s, es, b); }
  }

  // ----- bottom halves that are never scheduled as idle -----

  predicate Handles(pc: Pc, b: nat) { pc == SetIdle(b) || pc == SetScheduledIdle(b) }

  predicate NeverIdle(es: seq<Event>, b: nat) { forall e <- es :: !(e.ScheduleIdle? && e.bh == b) }

  ghost predicate NotIdle(s: State, b: nat) {
    b !in s.onlyIdle && forall t <- s.threads :: !Handles(s.threads[t], b)
  }

  lemma ThreadKeepsNotIdle(s: State, t: nat, b: nat)
    requires t in s.threads && NotIdle(s, b)
    ensures NotIdle(StepThread(s, t), b)
  {
    var s' := StepThread(s, t);
    assert !Handles(s.threads[t], b);
    forall u <- s'.threads ensures !Handles(s'.threads[u], b) {
      assert u in s.threads && !Handles(s.threads[u], b);
    }
  }

  lemma StepKeepsNotIdle(s: State, e: Event, b: nat)
    requires Enabled(s, e) && NotIdle(s, b) && !(e.ScheduleIdle? && e.bh == b)
    ensures NotIdle(Step(s, e), b) && !Misses(s, e, b)
  {
    hide StepPoll, StepThread;
    if e.Go? {
      assert !Handles(s.threads[e.t], b);
      ThreadKeepsNotIdle(s, e.t, b);
    } else if e.Turn? {
      TurnKeepsThreads(s, e.out);
    }
  }

  lemma TurnKeepsThreads(s: State, out: bool)
    requires s.poll != Outside
    ensures StepPoll(s, out).threads == s.threads && StepPoll(s, out).onlyIdle <= s.onlyIdle
  {
    hide NotDeleted;
    match s.poll
    case Scan =>
    case Clear(_) =>
    case ReadIdle(_) =>
    case ClearIdle(_) =>
    case _ =>
  }

  /** The two steps need a call of qemu_bh_schedule_idle on the bottom half. */
  lemma {:induction false} NeverIdleNeverMisses(s: State, es: seq<Event>, b: nat)
    requires CanRun(s, es) && NotIdle(s, b) && NeverIdle(es, b)
    ensures NeverMisses(s, es, b)
    decreases |es|
  {
    hide Enabled, NotIdle, Misses;
    if es != [] {
      StepKeepsNotIdle(s, es[0], b);
      NeverIdleNeverMisses(Step(s, es[0]), es[1..], b);
    }
  }

  // ----- runs in which a bottom half is missed -----

  lemma RunFrom(s: State, e: Event, es: seq<Event>)
    requires Enabled(s, e) && CanRun(Step(s, e), es)
    ensures CanRun(s, [e] + es) && Exec(s, [e] + es) == Exec(Step(s, e), es)
  {
    assert ([e] + es)[1..] == es;
  }

  lemma RunNone(s: State)
    ensures CanRun(s, []) && Exec(s, []) == s
  {}

  lemma {:induction false} RunThen(s: State, es: seq<Event>, es': seq<Event>)
    requires CanRun(s, es) && CanRun(Exec(s, es), es')
    ensures CanRun(s, es + es') && Exec(s, es + es') == Exec(Exec(s, es), es')
    decreases |es|
  {
    if es == [] {
      assert es + es' == es';
    } else {
      assert (es + es')[1..] == es[1..] + es';
      RunThen(Step(s, es[0]), es[1..], es');
    }
  }

  /** The context has one bottom half, with these flags and threads inside calls on it. */
  predicate Single(s: State, poll: Poll, scheduled: bool, idle: bool, threads: map<nat, Pc>) {
    && s.list == [0] && s.scheduled == (if scheduled then {0} else {}) && s.idle == (if idle then {0} else {})
    && s.deleted == {} && s.threads == threads && s.poll == poll && !s.notifier
  }

  /** No thread is inside a call, and aio_poll, if it runs, is on its way to block. */
  predicate Lone(s: State, poll: Poll, scheduled: bool, idle: bool) {
    && Single(s, poll, scheduled, idle, map[]) && !s.dispatching
    && (poll != Outside ==> s.blocking && !s.progress && s.todo == [])
  }

  /** qemu_bh_schedule_idle is called once ... */
  lemma IdleScheduled(s: State) returns (es: seq<Event>)
    requires InitState(s) && !s.notifier
    ensures CanRun(s, es) && Lone(Exec(s, es), Outside, true, true)
  {
    hide CanRun, Exec;
    var s1 := Step(s, New(0));
    var s2 := Step(s1, ScheduleIdle(1, 0));
    var s3 := Step(s2, Go(1));
    var s4 := Step(s3, Go(1));
    assert s4.threads == map[];
    es := [];
    RunNone(s4);
    RunFrom(s3, Go(1), es); es := [Go(1)] + es;
    RunFrom(s2, Go(1), es); es := [Go(1)] + es;
    RunFrom(s1, ScheduleIdle(1, 0), es); es := [ScheduleIdle(1, 0)] + es;
    RunFrom(s, New(0), es); es := [New(0)] + es;
  }

  /** ... a blocking aio_poll clears `scheduled` ... */
  lemma IdleCleared(s: State) returns (es: seq<Event>)
    requires Lone(s, Outside, true, true)
    ensures CanRun(s, es) && Lone(Exec(s, es), ReadIdle(0), false, true)
  {
    hide CanRun, Exec, NotDeleted;
    var go := Turn(false);
    var s1 := Step(s, EnterPoll(true));
    var s2 := Step(s1, go);
    var s3 := Step(s2, go);
    var s4 := Step(s3, go);
    var s5 := Step(s4, go);
    es := [];
    RunNone(s5);
    RunFrom(s4, go, es); es := [go] + es;
    RunFrom(s3, go, es); es := [go] + es;
    RunFrom(s2, go, es); es := [go] + es;
    RunFrom(s1, go, es); es := [go] + es;
    RunFrom(s, EnterPoll(true), es); es := [EnterPoll(true)] + es;
  }

  /** ... another thread calls qemu_bh_schedule_idle before the owner has looked at and
      taken back the idle flag ... */
  lemma IdleRace(s: State) returns (es: seq<Event>)
    requires Lone(s, ReadIdle(0), false, true)
    ensures CanRun(s, es) && Lone(Exec(s, es), Scan, true, false)
  {
    hide CanRun, Exec, NotDeleted;
    var go := Turn(false);
    var s1 := Step(s, ScheduleIdle(1, 0));
    var s2 := Step(s1, Go(1));
    var s3 := Step(s2, go);
    var s4 := Step(s3, Go(1));
    assert s4.threads == map[];
    var s5 := Step(s4, go);
    var s6 := Step(s5, go);
    es := [];
    RunNone(s6);
    RunFrom(s5, go, es); es := [go] + es;
    RunFrom(s4, go, es); es := [go] + es;
    RunFrom(s3, Go(1), es); es := [Go(1)] + es;
    RunFrom(s2, go, es); es := [go] + es;
    RunFrom(s1, Go(1), es); es := [Go(1)] + es;
    RunFrom(s, ScheduleIdle(1, 0), es); es := [ScheduleIdle(1, 0)] + es;
  }

  /** ... and aio_poll goes on to block. */
  lemma ScanEndsBlocking(s: State) returns (es: seq<Event>)
    requires Lone(s, Scan, true, false)
    ensures CanRun(s, es) && Lone(Exec(s, es), Wait, true, false)
  {
    hide CanRun, Exec;
    var go := Turn(false);
    assert NotDeleted([0], {}) == [0] + NotDeleted([], {});
    var s1 := Step(s, go);
    var s2 := Step(s1, go);
    var s3 := Step(s2, go);
    es := [];
    RunNone(s3);
    RunFrom(s2, go, es); es := [go] + es;
    RunFrom(s1, go, es); es := [go] + es;
    RunFrom(s, go, es); es := [go] + es;
  }

  /** A run in which the owner takes back the idle flag: aio_poll blocks although the bottom
      half is scheduled and not idle, with the notifier clear and no thread to set it. */
  lemma MissedByOwner(s: State) returns (es: seq<Event>)
    requires InitState(s) && !s.notifier
    ensures CanRun(s, es) && Lone(Exec(s, es), Wait, true, false)
  {
    hide CanRun, Exec, Lone, InitState;
    es := IdleScheduled(s);
    var more := IdleCleared(Exec(s, es));
    RunThen(s, es, more); es := es + more;
    more := IdleRace(Exec(s, es));
    RunThen(s, es, more); es := es + more;
    more := ScanEndsBlocking(Exec(s, es));
    RunThen(s, es, more); es := es + more;
  }

  /** Thread 1 has set the idle flag of a bottom half it is scheduling as idle ... */
  lemma IdleBegun(s: State) returns (es: seq<Event>)
    requires InitState(s) && !s.notifier
    ensures CanRun(s, es) && Single(Exec(s, es), Outside, false, true, map[1 := SetScheduledIdle(0)]) && !Exec(s, es).dispatching
  {
    hide CanRun, Exec;
    var s1 := Step(s, New(0));
    var s2 := Step(s1, ScheduleIdle(1, 0));
    var s3 := Step(s2, Go(1));
    es := [];
    RunNone(s3);
    RunFrom(s2, Go(1), es); es := [Go(1)] + es;
    RunFrom(s1, ScheduleIdle(1, 0), es); es := [ScheduleIdle(1, 0)] + es;
    RunFrom(s, New(0), es); es := [New(0)] + es;
  }

  /** ... thread 2 calls qemu_bh_schedule and qemu_bh_cancel during an aio_poll that does
      not block ... */
  lemma ScheduledAndCancelled(s: State) returns (es: seq<Event>)
    requires Single(s, Outside, false, true, map[1 := SetScheduledIdle(0)]) && !s.dispatching
    ensures CanRun(s, es) && Single(Exec(s, es), Entered, false, false, map[1 := SetScheduledIdle(0)])
    ensures !Exec(s, es).blocking && !Exec(s, es).progress && !Exec(s, es).wasDispatching && Exec(s, es).dispatching
  {
    hide CanRun, Exec;
    var s1 := Step(s, EnterPoll(false));
    var s2 := Step(s1, Schedule(2, 0));
    var s3 := Step(s2, Go(2));
    var s4 := Step(s3, Go(2));
    var s5 := Step(s4, Go(2));
    assert s5.threads == map[1 := SetScheduledIdle(0)];
    var s6 := Step(s5, Cancel(0));
    es := [];
    RunNone(s6);
    RunFrom(s5, Cancel(0), es); es := [Cancel(0)] + es;
    RunFrom(s4, Go(2), es); es := [Go(2)] + es;
    RunFrom(s3, Go(2), es); es := [Go(2)] + es;
    RunFrom(s2, Go(2), es); es := [Go(2)] + es;
    RunFrom(s1, Schedule(2, 0), es); es := [Schedule(2, 0)] + es;
    RunFrom(s, EnterPoll(false), es); es := [EnterPoll(false)] + es;
  }

  /** ... that aio_poll finds nothing ... */
  lemma PollScans(s: State) returns (es: seq<Event>)
    requires Single(s, Entered, false, false, map[1 := SetScheduledIdle(0)])
    requires !s.blocking && !s.progress && !s.wasDispatching && s.dispatching
    ensures CanRun(s, es) && Single(Exec(s, es), Scanned, false, false, map[1 := SetScheduledIdle(0)])
    ensures !Exec(s, es).blocking && !Exec(s, es).wasDispatching
  {
    hide CanRun, Exec;
    var go := Turn(false);
    assert NotDeleted([0], {}) == [0] + NotDeleted([], {});
    var s1 := Step(s, go);
    var s2 := Step(s1, go);
    var s3 := Step(s2, go);
    var s4 := Step(s3, go);
    es := [];
    RunNone(s4);
    RunFrom(s3, go, es); es := [go] + es;
    RunFrom(s2, go, es); es := [go] + es;
    RunFrom(s1, go, es); es := [go] + es;
    RunFrom(s, go, es); es := [go] + es;
  }

  /** ... and returns ... */
  lemma PollReturns(s: State) returns (es: seq<Event>)
    requires Single(s, Scanned, false, false, map[1 := SetScheduledIdle(0)]) && !s.blocking && !s.wasDispatching
    ensures CanRun(s, es) && Single(Exec(s, es), Outside, false, false, map[1 := SetScheduledIdle(0)]) && !Exec(s, es).dispatching
  {
    hide CanRun, Exec, NotDeleted;
    var go := Turn(false);
    var s1 := Step(s, go);
    var s2 := Step(s1, Turn(true));
    var s3 := Step(s2, go);
    es := [];
    RunNone(s3);
    RunFrom(s2, go, es); es := [go] + es;
    RunFrom(s1, Turn(true), es); es := [Turn(true)] + es;
    RunFrom(s, go, es); es := [go] + es;
  }

  /** ... and thread 1 sets `scheduled` behind the scan of a blocking one. */
  lemma ScheduledBehindScan(s: State) returns (es: seq<Event>)
    requires Single(s, Outside, false, false, map[1 := SetScheduledIdle(0)]) && !s.dispatching
    ensures CanRun(s, es) && Lone(Exec(s, es), Scan, true, false)
  {
    hide CanRun, Exec, NotDeleted;
    var go := Turn(false);
    var s1 := Step(s, EnterPoll(true));
    var s2 := Step(s1, go);
    var s3 := Step(s2, go);
    var s4 := Step(s3, go);
    var s5 := Step(s4, Go(1));
    assert s5.threads == map[];
    es := [];
    RunNone(s5);
    RunFrom(s4, Go(1), es); es := [Go(1)] + es;
    RunFrom(s3, go, es); es := [go] + es;
    RunFrom(s2, go, es); es := [go] + es;
    RunFrom(s1, go, es); es := [go] + es;
    RunFrom(s, EnterPoll(true), es); es := [EnterPoll(true)] + es;
  }

  /** A run in which the owner never takes back an idle flag: a thread schedules as idle
      after qemu_bh_schedule and qemu_bh_cancel of another. */
  lemma MissedAfterCancel(s: State) returns (es: seq<Event>)
    requires InitState(s) && !s.notifier
    ensures CanRun(s, es) && Lone(Exec(s, es), Wait, true, false)
  {
    hide CanRun, Exec, Lone, Single, InitState;
    es := IdleBegun(s);
    var more := ScheduledAndCancelled(Exec(s, es));
    RunThen(s, es, more); es := es + more;
    more := PollScans(Exec(s, es));
    RunThen(s, es, more); es := es + more;
    more := PollReturns(Exec(s, es));
    RunThen(s, es, more); es := es + more;
    more := ScheduledBehindScan(Exec(s, es));
    RunThen(s, es, more); es := es + more;
    more := ScanEndsBlocking(Exec(s, es));
    RunThen(s, es, more); es := es + more;
  }
}
