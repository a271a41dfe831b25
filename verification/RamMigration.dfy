/**
 Live RAM migration as a whole (arch_init.c): guest writes, bitmap
 synchronisation, calls of ram_find_and_save_block with the contract proved in
 `RamSender`, and ram_save_page with its XBZRLE cache, against a receiver that
 applies every record.

 The guest runs while pages are being saved, so a page is captured either as it
 is in memory or as it was before a write that is already logged.
 */
module RamMigration {
  import opened Basics
  import opened RamSender

  type PageData = seq<byte>

  /** Result of xbzrle_encode_buffer. */
  datatype Encoded = Same | Overflow | Delta(bytes: seq<byte>)

  /** The delta codec and the page of zeroes, as ram_save_page uses them. */
  datatype Codec = Codec(
    zero: PageData,
    encode: (PageData, PageData) -> Encoded,
    decode: (PageData, seq<byte>) -> Option<PageData>)

  /** What the encoder and decoder promise each other. */
  ghost predicate Inverts(c: Codec) {
    forall old', new' ::
      match c.encode(old', new')
      case Same => old' == new'
      case Overflow => true
      case Delta(bytes) => c.decode(old', bytes) == Some(new')
  }

  datatype Record =
    | Compress(page: nat)                      // RAM_SAVE_FLAG_COMPRESS with byte 0
    | Plain(page: nat, data: PageData)         // RAM_SAVE_FLAG_PAGE
    | Xbzrle(page: nat, bytes: seq<byte>)      // RAM_SAVE_FLAG_XBZRLE

  type Ram = nat -> PageData

  function Put(m: Ram, p: nat, d: PageData): Ram {
    x => if x == p then d else m(x)
  }

  /** What the receiver does with a record; a delta it cannot decode leaves the page. */
  function Receive(c: Codec, m: Ram, r: Record): Ram {
    match r
    case Compress(p) => Put(m, p, c.zero)
    case Plain(p, d) => Put(m, p, d)
    case Xbzrle(p, bytes) =>
      var d := c.decode(m(p), bytes);
      if d.Some? then Put(m, p, d.value) else m
  }

  /** Result of cache_insert: no room for a new entry, or stored in place of `evicted`. */
  datatype Insert = Failed | Stored(evicted: set<nat>)

  /** What ram_save_page saw: whether the page was zero, the copy it took for the cache or
      the encoder, the copy it took when it sent or cached the page after that, and
      what the cache did. */
  datatype View = View(zero: bool, first: PageData, second: PageData, ins: Insert)

  function Cached(cache: map<nat, PageData>, p: nat, d: PageData, ins: Insert): map<nat, PageData> {
    match ins
    case Failed => cache
    case Stored(evicted) => (cache - evicted)[p := d]
  }

  /** ram_save_page and save_xbzrle_page: the new cache and the record sent, if any. */
  function SavePage(c: Codec, cache: map<nat, PageData>, bulk: bool, xbzrle: bool, last: bool, p: nat, v: View)
    : (map<nat, PageData>, Option<Record>)
  {
    if v.zero then
      (if bulk || !xbzrle then cache else Cached(cache, p, c.zero, v.ins), Some(Compress(p)))
    else if bulk || !xbzrle then
      (cache, Some(Plain(p, v.second)))
    else if p !in cache then
      if last then (cache, Some(Plain(p, v.second)))
      else (Cached(cache, p, v.first, v.ins), Some(Plain(p, if v.ins.Failed? then v.second else v.first)))
    else
      match c.encode(cache[p], v.first)
      case Same => (cache, None)
      case Overflow => (if last then cache else cache[p := v.second], Some(Plain(p, v.second)))
      case Delta(bytes) => (if last then cache else cache[p := v.first], Some(Xbzrle(p, bytes)))
  }

  datatype State = State(
    mem: Ram, recv: Ram, cache: map<nat, PageData>,
    dirty: set<nat>, log: set<nat>, bulk: bool, seen: Option<nat>, lo: nat,
    pending: seq<nat>,     // pages whose bits are cleared and that are still to be saved
    last: bool,            // the guest is stopped and ram_save_complete runs
    resent: set<nat>,      // pages sent since then
    lost: set<nat>,        // pages whose bits were cleared without being handed over since
    stopped: bool)         // ram_find_and_save_block has returned 0 in the last stage

  datatype Event =
    | GuestWrite(page: nat, data: PageData)
    | Sync
    | Complete                                    // ram_save_complete starts: guest stopped, bitmap synced
    | ResizeCache                                 // xbzrle_cache_resize starts over with an empty cache
    | Call(handed: seq<nat>, sent: bool, unmodified: set<nat>, dirty': set<nat>, bulk': bool, seen': Option<nat>, lo': nat)
    | Save(view: View)

  /** The fixed surroundings: RAM blocks, codec, and whether XBZRLE is in use. */
  datatype Setting = Setting(blocks: seq<RamBlock>, codec: Codec, xbzrle: bool)

  ghost predicate ViewOk(s: State, p: nat, v: View, zero: PageData) {
    && (v.zero ==> s.mem(p) == zero || p in s.log)
    && (v.first == s.mem(p) || p in s.log)
    && (v.second == s.mem(p) || p in s.log)
    && (p in s.cache ==> v.ins.Stored?)
    && (v.ins.Stored? ==> p !in v.ins.evicted)
  }

  ghost predicate Enabled(g: Setting, s: State, e: Event) {
    match e
    case GuestWrite(p, _) => !s.last && p in Pages(g.blocks)
    case Sync => s.pending == [] && !s.last
    case Complete => s.pending == [] && !s.last
    case ResizeCache => true
    case Call(handed, sent, unmodified, dirty', bulk', seen', lo') =>
      && s.pending == [] && !s.stopped && unmodified <= s.cache.Keys
      && Outcome(s.dirty, handed, dirty', LostPages(g.blocks, s.dirty, s.bulk, s.seen, s.lo, unmodified),
                 Pages(g.blocks), unmodified, sent)
      && (bulk' ==> s.bulk) && (s.bulk && !bulk' ==> AtEnd(g.blocks, s.seen, s.lo))
      && (sent ==> seen'.Some? && seen'.value < |g.blocks| && handed[|handed| - 1] == Page(g.blocks, seen'.value, lo'))
    case Save(v) => s.pending != [] && ViewOk(s, s.pending[0], v, g.codec.zero)
  }

  ghost function Step(g: Setting, s: State, e: Event): State
    requires Enabled(g, s, e)
  {
    match e
    case GuestWrite(p, d) => s.(mem := Put(s.mem, p, d), log := s.log + {p})
    case Sync => s.(dirty := s.dirty + s.log, log := {})
    case Complete => s.(dirty := s.dirty + s.log, log := {}, last := true, resent := {})
    case ResizeCache => s.(cache := map[])
    case Call(handed, sent, unmodified, dirty', bulk', seen', lo') =>
      s.(dirty := dirty', bulk := bulk', seen := seen', lo := lo', pending := handed,
         lost := s.lost + LostPages(g.blocks, s.dirty, s.bulk, s.seen, s.lo, unmodified),
         stopped := s.last && !sent)
    case Save(v) =>
      var p := s.pending[0];
      var (cache', r) := SavePage(g.codec, s.cache, s.bulk, g.xbzrle, s.last, p, v);
      s.(cache := cache', pending := s.pending[1..],
         resent := if s.last then s.resent + {p} else s.resent,
         lost := s.lost - {p},
         recv := if r.Some? then Receive(g.codec, s.recv, r.value) else s.recv)
  }

  // ----- invariants -----

  /** The cache mirrors the receiver, but for pages already resent in the last stage. */
  ghost predicate Mirrors(s: State) {
    forall q <- s.cache :: q in s.resent || s.cache[q] == s.recv(q)
  }

  /** A page that nothing remembers as stale is the same on both sides. */
  ghost predicate Current(g: Setting, s: State, p: nat) {
    p in Pages(g.blocks) && p !in s.dirty && p !in s.log && p !in s.pending && p !in s.lost ==>
      s.recv(p) == s.mem(p)
  }

  ghost predicate Inv(g: Setting, s: State) {
    && Mirrors(s)
    && (s.bulk || !g.xbzrle ==> s.cache == map[])
    && (forall p :: Current(g, s, p))
    && Distinct(s.pending)
    && (forall p <- s.pending :: p !in s.dirty)
    && (!s.last ==> s.resent == {} && !s.stopped)
    && (s.last ==> s.log == {} && forall p <- s.resent :: p !in s.dirty && p !in s.pending)
    && (s.stopped ==> s.dirty !! Pages(g.blocks))
  }

  ghost predicate InitState(g: Setting, s: State) {
    && s.cache == map[] && Pages(g.blocks) <= s.dirty && s.log == {} && s.bulk && s.seen == None && s.lo == 0
    && s.pending == [] && !s.last && s.resent == {} && s.lost == {} && !s.stopped
  }

  lemma InitInv(g: Setting, s: State)
    requires InitState(g, s)
    ensures Inv(g, s)
  {
    forall p ensures Current(g, s, p) {}
  }

  /** Every record decodes, at the receiver, to a page the sender captured; the cache then
      again holds what the receiver holds. */
  lemma SaveMirrors(g: Setting, s: State, v: View)
    requires Inverts(g.codec) && Inv(g, s) && Enabled(g, s, Save(v))
    ensures var s', p := Step(g, s, Save(v)), s.pending[0];
      && Mirrors(s') && (s'.bulk || !g.xbzrle ==> s'.cache == map[])
      && (s'.recv(p) == s.mem(p) || p in s.log)
      && forall q :: q != p ==> s'.recv(q) == s.recv(q)
    ensures var r := SavePage(g.codec, s.cache, s.bulk, g.xbzrle, s.last, s.pending[0], v).1;
      r.Some? && r.value.Xbzrle? ==> g.codec.decode(s.recv(s.pending[0]), r.value.bytes) == Some(v.first)
  {
    var s', p := Step(g, s, Save(v)), s.pending[0];
    assert p in s.pending;
    if p in s.cache {
      var e := g.codec.encode(s.cache[p], v.first);
      assert e.Delta? ==> g.codec.decode(s.cache[p], e.bytes) == Some(v.first);
    }
    forall q <- s'.cache ensures q in s'.resent || s'.cache[q] == s'.recv(q) {
      assert q != p ==> q in s.cache && s'.cache[q] == s.cache[q];
    }
  }

  lemma SaveKeepsInv(g: Setting, s: State, v: View)
    requires Inverts(g.codec) && Inv(g, s) && Enabled(g, s, Save(v))
    ensures Inv(g, Step(g, s, Save(v)))
  {
    SaveMirrors(g, s, v);
    hide Pages, Inverts, SavePage, Mirrors, Receive;
    var s', p := Step(g, s, Save(v)), s.pending[0];
    assert s.pending == [p] + s'.pending;
    forall q ensures Current(g, s', q) {
      assert Current(g, s, q);
    }
  }

  lemma CallKeepsInv(g: Setting, s: State, e: Event)
    requires Inv(g, s) && e.Call? && Enabled(g, s, e)
    ensures Inv(g, Step(g, s, e))
  {
    hide Pages, LostPages;
    var s' := Step(g, s, e);
    assert forall p :: p in e.handed <==> p in Handed(e.handed);
    forall q ensures Current(g, s', q) {
      assert Current(g, s, q);
    }
  }

  lemma StepKeepsInv(g: Setting, s: State, e: Event)
    requires Inverts(g.codec) && Inv(g, s) && Enabled(g, s, e)
    ensures Inv(g, Step(g, s, e))
  {
    match e
    case Save(v) => SaveKeepsInv(g, s, v);
    case Call(_, _, _, _, _, _, _) => CallKeepsInv(g, s, e);
    case _ =>
      hide Pages;
      forall q ensures Current(g, Step(g, s, e), q) {
        assert Current(g, s, q);
      }
  }

  // ----- whole runs -----

  ghost predicate CanRun(g: Setting, s: State, es: seq<Event>)
    decreases |es|
  {
    es == [] || (Enabled(g, s, es[0]) && CanRun(g, Step(g, s, es[0]), es[1..]))
  }

  ghost function Exec(g: Setting, s: State, es: seq<Event>): State
    requires CanRun(g, s, es)
    decreases |es|
  {
    if es == [] then s else Exec(g, Step(g, s, es[0]), es[1..])
  }

  lemma {:induction false} RunKeepsInv(g: Setting, s: State, es: seq<Event>)
    requires Inverts(g.codec) && Inv(g, s) && CanRun(g, s, es)
    ensures Inv(g, Exec(g, s, es))
    decreases |es|
  {
    if es != [] {
      StepKeepsInv(g, s, es[0]);
      RunKeepsInv(g, Step(g, s, es[0]), es[1..]);
    }
  }

  /** The migration is over: ram_find_and_save_block found nothing more in the last stage. */
  predicate Finished(s: State) { s.stopped && s.pending == [] }

  /** Over every run, at completion the receiver's RAM equals the guest's RAM on every
      page that no scan dropped for good. */
  lemma MigratedRam(g: Setting, s: State, es: seq<Event>, p: nat)
    requires Inverts(g.codec) && InitState(g, s) && CanRun(g, s, es) && Finished(Exec(g, s, es))
    requires p in Pages(g.blocks) && p !in Exec(g, s, es).lost
    ensures Exec(g, s, es).recv(p) == Exec(g, s, es).mem(p)
  {
    InitInv(g, s);
    RunKeepsInv(g, s, es);
    assert Current(g, Exec(g, s, es), p);
  }

  // ----- when a scan drops a page -----

  /** The bulk stage has just sent the last page of the last block, and that page is
      again dirty, the only one. */
  ghost predicate Drops(g: Setting, s: State) {
    && s.bulk && AtEnd(g.blocks, s.seen, s.lo) && s.lo > 0
    && s.dirty * Pages(g.blocks) == {Page(g.blocks, |g.blocks| - 1, s.lo)}
  }

  /** A call clears the bit of a page that it does not hand over exactly in that state. */
  lemma CallDropsIff(g: Setting, s: State, e: Event)
    requires Inv(g, s) && Layout(g.blocks) && e.Call? && Enabled(g, s, e)
    ensures var left := s.dirty - e.dirty' - Handed(e.handed);
      if Drops(g, s) then left == {Page(g.blocks, |g.blocks| - 1, s.lo)} else left == {}
  {
    hide Pages, Layout;
    if s.bulk && AtEnd(g.blocks, s.seen, s.lo) && s.lo > 0 {
      var c := Page(g.blocks, |g.blocks| - 1, s.lo);
      PageOnBlock(g.blocks, |g.blocks| - 1, s.lo);
      assert c in Pages(g.blocks);
      assert forall p :: p in s.dirty * Pages(g.blocks) <==> p in s.dirty && p in Pages(g.blocks);
      if Loses(g.blocks, s.dirty, s.bulk, s.seen, s.lo, e.unmodified) {
        assert s.dirty * Pages(g.blocks) == {c};
      }
    }
  }

  /** No call of the run is made in a state in which it would drop a page. */
  ghost predicate NeverDrops(g: Setting, s: State, es: seq<Event>)
    requires CanRun(g, s, es)
    decreases |es|
  {
    es == [] || ((es[0].Call? ==> !Drops(g, s)) && NeverDrops(g, Step(g, s, es[0]), es[1..]))
  }

  lemma {:induction false} NothingLost(g: Setting, s: State, es: seq<Event>)
    requires Inverts(g.codec) && Layout(g.blocks) && Inv(g, s) && s.lost == {} && CanRun(g, s, es) && NeverDrops(g, s, es)
    ensures Exec(g, s, es).lost == {}
    decreases |es|
  {
    hide Inverts, Layout, Inv, Enabled, Drops;
    if es != [] {
      StepKeepsInv(g, s, es[0]);
      if es[0].Call? { StepLoses(g, s, es[0]); }
      NothingLost(g, Step(g, s, es[0]), es[1..]);
    }
  }

  lemma StepLoses(g: Setting, s: State, e: Event)
    requires Layout(g.blocks) && Inv(g, s) && s.lost == {} && e.Call? && Enabled(g, s, e) && !Drops(g, s)
    ensures Step(g, s, e).lost == {}
  {
    CallDropsIff(g, s, e);
    hide Pages, Layout;
    assert LostPages(g.blocks, s.dirty, s.bulk, s.seen, s.lo, e.unmodified) !! Handed(e.handed);
  }

  /** A run that never calls ram_find_and_save_block in such a state migrates all of RAM. */
  lemma MigratedAll(g: Setting, s: State, es: seq<Event>, p: nat)
    requires Inverts(g.codec) && Layout(g.blocks) && InitState(g, s) && CanRun(g, s, es) && NeverDrops(g, s, es)
    requires Finished(Exec(g, s, es)) && p in Pages(g.blocks)
    ensures Exec(g, s, es).recv(p) == Exec(g, s, es).mem(p)
  {
    InitInv(g, s);
    NothingLost(g, s, es);
    MigratedRam(g, s, es, p);
  }

  lemma RunFrom(g: Setting, s: State, e: Event, es: seq<Event>)
    requires Enabled(g, s, e) && CanRun(g, Step(g, s, e), es)
    ensures CanRun(g, s, [e] + es) && Exec(g, s, [e] + es) == Exec(g, Step(g, s, e), es)
  {
    assert ([e] + es)[1..] == es;
  }

  /** Once the bulk stage has sent everything, a write to the last page just before
      completion is lost: the migration finishes and the receiver keeps what it had. */
  lemma LateWriteDropped(g: Setting, s: State, d: PageData) returns (es: seq<Event>)
    requires Layout(g.blocks) && s.bulk && AtEnd(g.blocks, s.seen, s.lo) && s.lo > 0
    requires s.pending == [] && !s.last && !s.stopped && s.log == {} && s.dirty == {}
    ensures var c := Page(g.blocks, |g.blocks| - 1, s.lo);
      && |es| == 3 && es[..2] == [GuestWrite(c, d), Complete]
      && CanRun(g, s, es) && Finished(Exec(g, s, es))
      && Exec(g, s, es).mem(c) == d && Exec(g, s, es).recv(c) == s.recv(c)
  {
    hide Pages, Layout;
    var c := Page(g.blocks, |g.blocks| - 1, s.lo);
    PageOnBlock(g.blocks, |g.blocks| - 1, s.lo);
    var s1 := Step(g, s, GuestWrite(c, d));
    var s2 := Step(g, s1, Complete);
    var call := Call([], false, {}, {}, false, Some(0), 0);
    assert s2.dirty == {c} && Handed([]) == {} && LostPages(g.blocks, s2.dirty, s2.bulk, s2.seen, s2.lo, {}) == {c};
    RunFrom(g, s2, call, []);
    RunFrom(g, s1, Complete, [call]);
    RunFrom(g, s, GuestWrite(c, d), [Complete] + [call]);
    es := [GuestWrite(c, d)] + ([Complete] + [call]);
  }

  /** Such a state is reached by every migration of one block of two pages in which the
      guest writes nothing during the bulk stage. */
  lemma BulkStageEnds(g: Setting, s: State) returns (es: seq<Event>)
    requires g.blocks == [RamBlock([114], 0, 2)] && InitState(g, s) && s.dirty == {0, 1}
    requires s.mem(0) != g.codec.zero && s.mem(1) != g.codec.zero
    ensures CanRun(g, s, es)
    ensures var t := Exec(g, s, es);
      && t.bulk && AtEnd(g.blocks, t.seen, t.lo) && t.lo == 1 && t.pending == [] && !t.last && !t.stopped
      && t.log == {} && t.dirty == {} && t.mem == s.mem && t.recv(0) == s.mem(0) && t.recv(1) == s.mem(1)
  {
    assert Pages(g.blocks) == {0, 1};
    hide Pages;
    var call0 := Call([0], true, {}, {1}, true, Some(0), 0);
    var call1 := Call([1], true, {}, {}, true, Some(0), 1);
    var save0 := Save(View(false, s.mem(0), s.mem(0), Failed));
    var save1 := Save(View(false, s.mem(1), s.mem(1), Failed));
    assert Handed([]) == {} && Handed([0]) == {0} && Handed([1]) == {1};
    assert [0][..0] == [] && [1][..0] == [];
    var s1 := Step(g, s, call0);
    var s2 := Step(g, s1, save0);
    var s3 := Step(g, s2, call1);
    RunFrom(g, s3, save1, []);
    RunFrom(g, s2, call1, [save1]);
    RunFrom(g, s1, save0, [call1] + [save1]);
    RunFrom(g, s, call0, [save0] + ([call1] + [save1]));
    es := [call0] + ([save0] + ([call1] + [save1]));
  }
}
