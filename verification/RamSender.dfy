/**
 The sending side of live RAM migration (arch_init.c): the migration bitmap and
 its page counter, synchronisation with the dirty log, and the cyclic scan that
 picks the next page to send.  Offsets and lengths are counted in target pages.
 */
module RamSender {
  import opened Basics
  import opened DirtyBitmap

  datatype RamBlock = RamBlock(idstr: seq<byte>, base: nat, pages: pos)

  predicate InBlock(b: RamBlock, p: nat) {
    b.base <= p < b.base + b.pages
  }

  /** The pages that belong to some RAM block. */
  function Pages(blocks: seq<RamBlock>): (s: set<nat>)
    ensures forall p: nat :: p in s <==> exists i :: 0 <= i < |blocks| && InBlock(blocks[i], p)
  {
    if blocks == [] then {}
    else
      var s := Range(blocks[0].base, blocks[0].base + blocks[0].pages) + Pages(blocks[1..]);
      assert forall i :: 0 < i < |blocks| ==> blocks[i] == blocks[1..][i - 1];
      s
  }

  ghost predicate Layout(blocks: seq<RamBlock>) {
    blocks != [] && DisjointBlocks(blocks)
  }

  predicate Fits(blocks: seq<RamBlock>, m: Bitmap) {
    forall b <- blocks :: b.base + b.pages <= BITS_PER_LONG * |m|
  }

  /** The pages a synchronisation of [start, start + length) looks at: whole words when
      `start` is the first page of a word. */
  function Reach(start: nat, length: nat): (s: set<nat>) {
    if start % BITS_PER_LONG == 0 then Range(start, start + BITS_PER_LONG * Longs(length))
    else Range(start, start + length)
  }

  /** BITS_TO_LONGS */
  function Longs(n: nat): (k: nat)
    ensures n <= BITS_PER_LONG * k < n + BITS_PER_LONG
  {
    (n + BITS_PER_LONG - 1) / BITS_PER_LONG
  }

  /** The logged pages of `R` have been moved from log `l` to bitmap `d` and the new ones counted. */
  ghost predicate Moved(d: set<nat>, l: set<nat>, c: int, R: set<nat>, d': set<nat>, l': set<nat>, c': int) {
    d' == d + l * R && l' == l - R && c' == c + |l * R - d|
  }

  lemma MovedMore(d: set<nat>, l: set<nat>, c: int, R: set<nat>, d1: set<nat>, l1: set<nat>, c1: int,
                  W: set<nat>, d2: set<nat>, l2: set<nat>, c2: int)
    requires Moved(d, l, c, R, d1, l1, c1) && Moved(d1, l1, c1, W, d2, l2, c2) && R !! W
    ensures Moved(d, l, c, R + W, d2, l2, c2)
  {
    assert l1 * W - d1 == l * W - d;
    assert l * (R + W) - d == (l * R - d) + (l * W - d);
  }

  lemma MovedNone(d: set<nat>, l: set<nat>, c: int, R: set<nat>)
    requires l !! R
    ensures Moved(d, l, c, R, d, l, c)
  {
    assert l * R == {};
  }

  lemma MovedOne(d: set<nat>, l: set<nat>, c: int, p: nat)
    requires p in l
    ensures Moved(d, l, c, {p}, d + {p}, l - {p}, c + if p in d then 0 else 1)
  {
    assert l * {p} == {p};
    assert {p} - d == if p in d then {} else {p};
  }

  lemma MovedPart(d: set<nat>, l: set<nat>, c: int, W: set<nat>, dw: set<nat>, lw: set<nat>, both: set<nat>, added: set<nat>, none: set<nat>)
    requires d * W == dw && l * W == lw && both == dw + lw && added == lw - dw && none == {}
    ensures Moved(d, l, c, W, d - dw + both, l - lw + none, c + |added|)
  {
    assert l * W - d == lw - dw;
  }

  /** A word: what is set in it, and what the log adds to it. */
  lemma MovedWord(m: Bitmap, log: Bitmap, c: int, k: nat)
    requires k < |m| == |log|
    ensures Moved(Bits(m), Bits(log), c, Range(BITS_PER_LONG * k, BITS_PER_LONG * (k + 1)),
                  Bits(m[k := m[k] + log[k]]), Bits(log[k := {}]), c + |log[k] - m[k]|)
  {
    hide Bit, Bits, WordPages, Range, Moved;
    var W := Range(BITS_PER_LONG * k, BITS_PER_LONG * (k + 1));
    InWord(m, k);
    InWord(log, k);
    BitsOfUpdate(m, k, m[k] + log[k]);
    BitsOfUpdate(log, k, {});
    WordSplit(m[k], log[k], k);
    WordSplit(log[k], m[k], k);
    NoPages(k);
    PopulationCount(log[k] - m[k], k);
    MovedPart(Bits(m), Bits(log), c, W, WordPages(m[k], k), WordPages(log[k], k),
              WordPages(m[k] + log[k], k), WordPages(log[k] - m[k], k), WordPages({}, k));
  }

  lemma NoPages(k: nat)
    ensures WordPages({}, k) == {}
  {}

  lemma InWord(m: Bitmap, k: nat)
    requires k < |m|
    ensures Bits(m) * Range(BITS_PER_LONG * k, BITS_PER_LONG * (k + 1)) == WordPages(m[k], k)
  {
    hide Range;
  }

  /** The counter follows the dirty pages of RAM blocks when only such pages were logged. */
  lemma MovedCounts(d: set<nat>, l: set<nat>, c: int, R: set<nat>, d': set<nat>, l': set<nat>, c': int, P: set<nat>)
    requires Moved(d, l, c, R, d', l', c') && l <= P && c == |d * P|
    ensures c' == |d' * P| && l' <= P && d' + l' == d + l
  {
    assert d' * P == d * P + (l * R - d);
  }

  lemma MovedOut(d: set<nat>, l: set<nat>, c: int, R: set<nat>, d': set<nat>, l': set<nat>, c': int,
                 blocks: seq<RamBlock>, i: nat)
    requires i < |blocks| && Moved(d, l, c, R, d', l', c') && R == Reach(blocks[i].base, blocks[i].pages)
    requires l !! Pages(blocks[..i])
    ensures l' !! Pages(blocks[..i + 1])
  {
    hide Range, Pages;
    forall p | p in l' ensures p !in Pages(blocks[..i + 1]) {
      assert forall j :: 0 <= j < i ==> blocks[..i + 1][j] == blocks[..i][j];
    }
  }

  // ----- the cyclic scan -----

  function Page(blocks: seq<RamBlock>, b: nat, o: nat): nat
    requires b < |blocks|
  {
    blocks[b].base + o
  }

  /** Pages [lo, hi) of block `b` are not in `d`. */
  predicate Clean(blocks: seq<RamBlock>, d: set<nat>, b: nat, lo: nat, hi: nat)
    requires b < |blocks|
  {
    forall o: nat :: lo <= o < hi ==> Page(blocks, b, o) !in d
  }

  predicate CleanBlocks(blocks: seq<RamBlock>, d: set<nat>, lo: nat, hi: nat)
    requires hi <= |blocks|
  {
    forall b: nat :: lo <= b < hi ==> Clean(blocks, d, b, 0, blocks[b].pages)
  }

  /** In the bulk stage nothing beyond the cursor has been sent yet. */
  ghost predicate BulkAhead(blocks: seq<RamBlock>, d: set<nat>, seen: Option<nat>, lo: nat) {
    match seen
    case None => lo == 0 && Pages(blocks) <= d
    case Some(s) =>
      && s < |blocks|
      && (forall o: nat :: lo < o < blocks[s].pages ==> Page(blocks, s, o) in d)
      && (forall b: nat, o: nat :: s < b < |blocks| && o < blocks[b].pages ==> Page(blocks, b, o) in d)
  }

  /** The scan, started at block `s` page `lo`, has come to block `b` page `o` (for the
      second time round if `round`) and everything on the way is clean.  In the bulk
      stage the cursor page itself is skipped (`lo1` is then `lo` + 1). */
  ghost predicate Scanned(blocks: seq<RamBlock>, d: set<nat>, s: nat, lo: nat, lo1: nat, b: nat, o: nat, round: bool)
    requires s < |blocks| && b < |blocks|
  {
    if round then
      && b <= s && Clean(blocks, d, s, lo1, blocks[s].pages) && CleanBlocks(blocks, d, s + 1, |blocks|)
      && CleanBlocks(blocks, d, 0, b) && Clean(blocks, d, b, 0, o) && (b == s ==> o <= lo)
    else
      && s <= b
      && (if b == s then Clean(blocks, d, s, lo1, o) && lo <= o
          else Clean(blocks, d, s, lo1, blocks[s].pages) && CleanBlocks(blocks, d, s + 1, b) && Clean(blocks, d, b, 0, o))
  }

  lemma PageInjective(blocks: seq<RamBlock>, b: nat, o: nat, b': nat, o': nat)
    requires Layout(blocks) && b < |blocks| && b' < |blocks| && o < blocks[b].pages && o' < blocks[b'].pages
    requires Page(blocks, b, o) == Page(blocks, b', o')
    ensures b == b' && o == o'
  {
    var p := Page(blocks, b, o);
    assert InBlock(blocks[b], p) && InBlock(blocks[b'], p);
  }

  lemma PageOnBlock(blocks: seq<RamBlock>, b: nat, o: nat)
    requires b < |blocks| && o < blocks[b].pages
    ensures Page(blocks, b, o) in Pages(blocks)
  {
    hide Pages;
    assert InBlock(blocks[b], Page(blocks, b, o));
  }

  /** A completed round leaves no dirty page but possibly the skipped cursor page. */
  lemma RoundIsClean(blocks: seq<RamBlock>, d: set<nat>, s: nat, lo: nat, lo1: nat, p: nat)
    requires s < |blocks| && lo <= lo1 <= lo + 1 && Scanned(blocks, d, s, lo, lo1, s, lo, true)
    requires p in d && p in Pages(blocks)
    ensures lo1 == lo + 1 && lo < blocks[s].pages && p == Page(blocks, s, lo)
  {
    hide Pages;
    var b :| 0 <= b < |blocks| && InBlock(blocks[b], p);
    var o: nat := p - blocks[b].base;
    assert p == Page(blocks, b, o);
  }

  /** Clearing pages keeps what is clean clean. */
  lemma ScannedShrinks(blocks: seq<RamBlock>, d: set<nat>, d': set<nat>, s: nat, lo: nat, lo1: nat, b: nat, o: nat, round: bool)
    requires s < |blocks| && b < |blocks| && d' <= d && Scanned(blocks, d, s, lo, lo1, b, o, round)
    ensures Scanned(blocks, d', s, lo, lo1, b, o, round)
  {
    forall x: nat, l: nat, h: nat | x < |blocks| && Clean(blocks, d, x, l, h) ensures Clean(blocks, d', x, l, h) {}
  }

  /** The scan moves on to the next block. */
  lemma ScannedNextBlock(blocks: seq<RamBlock>, d: set<nat>, s: nat, lo: nat, lo1: nat, b: nat, o: nat, round: bool)
    requires s < |blocks| && b < |blocks| && o >= blocks[b].pages && Scanned(blocks, d, s, lo, lo1, b, o, round)
    requires round ==> b < s
    ensures if b + 1 < |blocks| then Scanned(blocks, d, s, lo, lo1, b + 1, 0, round)
            else !round ==> Scanned(blocks, d, s, lo, lo1, 0, 0, true)
  {
    forall x: nat, l: nat, h: nat, h': nat | x < |blocks| && h' <= h && Clean(blocks, d, x, l, h)
      ensures Clean(blocks, d, x, l, h')
    {}
  }

  /** The scan of one block goes on to page `o'`. */
  lemma ScannedFurther(blocks: seq<RamBlock>, d: set<nat>, s: nat, lo: nat, lo1: nat, b: nat, o: nat, o': nat, round: bool)
    requires s < |blocks| && b < |blocks| && o <= o' && Scanned(blocks, d, s, lo, lo1, b, o, round)
    requires Clean(blocks, d, b, o, o') && (round && b == s ==> o' <= lo)
    ensures Scanned(blocks, d, s, lo, lo1, b, o', round)
  {}

  lemma ScannedStart(blocks: seq<RamBlock>, d: set<nat>, s: nat, lo: nat, lo1: nat, o: nat)
    requires s < |blocks| && lo <= o <= lo1
    ensures Scanned(blocks, d, s, lo, lo1, s, o, false)
  {}

  function Handed(h: seq<nat>): set<nat> { set p | p in h }

  /** The pages `h`, all dirty pages of RAM blocks that turned out unmodified, have been handed over. */
  ghost predicate Skipped(d0: set<nat>, h: seq<nat>, d: set<nat>, P: set<nat>, unmodified: set<nat>) {
    d == d0 - Handed(h) && Handed(h) <= d0 * P && Handed(h) <= unmodified && Distinct(h)
  }

  lemma SkippedNone(d0: set<nat>, P: set<nat>, unmodified: set<nat>)
    ensures Handed([]) == {} && Skipped(d0, [], d0, P, unmodified)
  {}

  lemma SkippedMore(d0: set<nat>, h: seq<nat>, d: set<nat>, P: set<nat>, unmodified: set<nat>, p: nat)
    requires Skipped(d0, h, d, P, unmodified) && p in d && p in P
    ensures p in d0
    ensures p in unmodified ==> Skipped(d0, h + [p], d - {p}, P, unmodified)
    ensures Outcome(d0, h + [p], d - {p}, {}, P, unmodified, true)
    ensures forall q :: q != p && q !in Handed(h) ==> q !in Handed(h + [p])
  {
    assert Handed(h + [p]) == Handed(h) + {p};
    assert (h + [p])[..|h + [p]| - 1] == h;
  }

  /** What one call does: the dirty pages `d0` become `d`, the pages `h` are handed to
      ram_save_page, `lost` are cleared without that; all but a sent last page were
      unmodified, and nothing is sent only when no page of a RAM block is dirty any more. */
  ghost predicate Outcome(d0: set<nat>, h: seq<nat>, d: set<nat>, lost: set<nat>, P: set<nat>, unmodified: set<nat>, sent: bool) {
    && d == d0 - Handed(h) - lost && Handed(h) <= d0 * P && Distinct(h) && lost !! Handed(h)
    && (!sent ==> d !! P && Handed(h) <= unmodified)
    && (sent ==> h != [] && Handed(h[..|h| - 1]) <= unmodified && lost == {})
  }

  lemma SkippedAll(d0: set<nat>, h: seq<nat>, d1: set<nat>, lost: set<nat>, P: set<nat>, unmodified: set<nat>)
    requires Skipped(d0, h, d1, P, unmodified) && (d1 - lost) !! P && lost <= d1
    ensures Outcome(d0, h, d1 - lost, lost, P, unmodified, false)
  {}

  /** When a call of ram_find_and_save_block clears the bit of a page without sending it:
      the bulk stage has just sent the last page of the last block, that page has been
      dirtied again, and every other dirty page turns out not to need sending. */
  ghost predicate Loses(blocks: seq<RamBlock>, d: set<nat>, bulk: bool, seen: Option<nat>, lo: nat, unmodified: set<nat>) {
    && bulk && AtEnd(blocks, seen, lo) && lo > 0
    && Page(blocks, |blocks| - 1, lo) in d
    && forall p :: p in d && p in Pages(blocks) && p != Page(blocks, |blocks| - 1, lo) ==> p in unmodified
  }

  ghost function LostPages(blocks: seq<RamBlock>, d: set<nat>, bulk: bool, seen: Option<nat>, lo: nat, unmodified: set<nat>): set<nat> {
    if Loses(blocks, d, bulk, seen, lo, unmodified) then {Page(blocks, |blocks| - 1, lo)} else {}
  }

  /** After a page of the bulk stage is sent, it is the cursor and the rest is still dirty. */
  lemma BulkAdvances(blocks: seq<RamBlock>, d: set<nat>, seen: Option<nat>, lo: nat, b: nat, o: nat)
    requires Layout(blocks) && BulkAhead(blocks, d, seen, lo) && b < |blocks| && o < blocks[b].pages
    requires seen.Some? ==> seen.value < b || (seen.value == b && lo <= o)
    ensures BulkAhead(blocks, d - {Page(blocks, b, o)}, Some(b), o)
  {
    hide Pages, Layout;
    forall x: nat, y: nat | x < |blocks| && y < blocks[x].pages && (b < x || (b == x && o < y))
      ensures Page(blocks, x, y) in d - {Page(blocks, b, o)}
    {
      PageOnBlock(blocks, x, y);
      if Page(blocks, x, y) == Page(blocks, b, o) { PageInjective(blocks, x, y, b, o); }
    }
  }

  lemma NonEmpty(blocks: seq<RamBlock>)
    requires Layout(blocks)
    ensures |blocks| > 0
  {}

  lemma SecondClean(blocks: seq<RamBlock>, d: set<nat>, b: nat, o: nat)
    requires b < |blocks| && o >= blocks[b].pages && Clean(blocks, d, b, 0, o)
    ensures blocks[b].pages > 1 ==> Page(blocks, b, 1) !in d
  {}

  /** In the bulk stage only the block of the cursor can be found finished, and only when
      the cursor is on its last page. */
  lemma BulkBlockDone(blocks: seq<RamBlock>, d: set<nat>, seen: Option<nat>, lo: nat, s: nat, b: nat, o1: nat, o: nat)
    requires b < |blocks| && BulkAhead(blocks, d, seen, lo) && o >= blocks[b].pages
    requires s == (if seen.Some? then seen.value else 0) && ((b == s && o1 == lo) || (b == s + 1 && o1 == 0))
    requires if o1 > 0 then o == lo + 1 else Clean(blocks, d, b, 0, o)
    ensures b == s && seen.Some? && lo + 1 >= blocks[b].pages
  {
    hide Pages;
    PageOnBlock(blocks, b, 0);
    assert o1 == 0 ==> Page(blocks, b, 0) !in d;
    if o1 == 0 { SecondClean(blocks, d, b, o); }
  }

  /** A call that sends a page loses none. */
  lemma SentLosesNone(blocks: seq<RamBlock>, d: set<nat>, bulk: bool, seen: Option<nat>, lo: nat, unmodified: set<nat>, b: nat, o: nat)
    requires Layout(blocks) && b < |blocks| && o < blocks[b].pages && Page(blocks, b, o) in d
    requires Page(blocks, b, o) !in unmodified || seen.None? || lo == 0 || seen.value < b || (seen.value == b && lo < o)
    requires bulk && seen == Some(b) && lo > 0 ==> o != lo
    ensures LostPages(blocks, d, bulk, seen, lo, unmodified) == {}
  {
    hide Pages, Layout;
    PageOnBlock(blocks, b, o);
    if Loses(blocks, d, bulk, seen, lo, unmodified) {
      if Page(blocks, b, o) == Page(blocks, |blocks| - 1, lo) { PageInjective(blocks, b, o, |blocks| - 1, lo); }
    }
  }

  /** The end of a fruitless round: the page found, if any, is the skipped cursor page, and
      it is found exactly when the call loses it. */
  lemma RoundEnds(blocks: seq<RamBlock>, d0: set<nat>, h: seq<nat>, d1: set<nat>, bulk: bool, s: nat, lo: nat, lo1: nat,
                  o1: nat, o: nat, unmodified: set<nat>)
    requires Layout(blocks) && s < |blocks| && lo <= blocks[s].pages && lo1 == (if bulk && lo > 0 then lo + 1 else lo)
    requires Scanned(blocks, d1, s, lo, lo1, s, o1, true) && lo <= o <= blocks[s].pages && Clean(blocks, d1, s, o1, o)
    requires o < blocks[s].pages ==> Page(blocks, s, o) in d1
    requires Skipped(d0, h, d1, Pages(blocks), unmodified)
    requires bulk && lo > 0 ==> s == |blocks| - 1 && lo + 1 == blocks[s].pages && Page(blocks, s, lo) !in Handed(h)
    ensures LostPages(blocks, d0, bulk, Some(s), lo, unmodified) == if o < blocks[s].pages then {Page(blocks, s, o)} else {}
    ensures o < blocks[s].pages ==> o == lo
    ensures (if o < blocks[s].pages then d1 - {Page(blocks, s, o)} else d1) !! Pages(blocks)
  {
    hide Pages, Layout;
    assert Scanned(blocks, d1, s, lo, lo1, s, lo, true) by {
      forall x: nat | x < lo ensures Page(blocks, s, x) !in d1 {}
    }
    forall p | p in d1 && p in Pages(blocks)
      ensures lo1 == lo + 1 && lo < blocks[s].pages && p == Page(blocks, s, lo)
    {
      RoundIsClean(blocks, d1, s, lo, lo1, p);
    }
    if o < blocks[s].pages { PageOnBlock(blocks, s, o); }
  }

  lemma BulkNextDirty(blocks: seq<RamBlock>, d: set<nat>, seen: Option<nat>, lo: nat)
    requires BulkAhead(blocks, d, seen, lo)
    ensures seen.Some? && lo + 1 < blocks[seen.value].pages ==> Page(blocks, seen.value, lo + 1) in d
    ensures seen.None? ==> lo == 0
  {}

  function StartBlock(seen: Option<nat>): nat { if seen.Some? then seen.value else 0 }

  function FirstChecked(bulk0: bool, lo: nat): nat { if bulk0 && lo > 0 then lo + 1 else lo }

  /** The cursor is on the last page of the last block. */
  predicate AtEnd(blocks: seq<RamBlock>, seen: Option<nat>, lo: nat) {
    blocks != [] && seen == Some(|blocks| - 1) && lo + 1 == blocks[|blocks| - 1].pages
  }

  /** The scan that started at cursor (`seen`, `lo`) with dirty pages `d0` has come to page `o`
      of block `b` with dirty pages `d`, and has only handed over pages that were not sent. */
  ghost predicate Scanning(blocks: seq<RamBlock>, d0: set<nat>, bulk0: bool, seen: Option<nat>, lo: nat, unmodified: set<nat>,
                           d: set<nat>, bulk: bool, b: nat, o: nat, round: bool, handed: seq<nat>)
  {
    var s := StartBlock(seen);
    && s < |blocks| && b < |blocks| && o <= blocks[b].pages && lo <= blocks[s].pages
    && (bulk0 ==> lo < blocks[s].pages)
    && Scanned(blocks, d, s, lo, FirstChecked(bulk0, lo), b, o, round)
    && Skipped(d0, handed, d, Pages(blocks), unmodified)
    && (bulk0 && lo > 0 ==> Page(blocks, s, lo) !in Handed(handed))
    && (bulk ==> bulk0 && !round && handed == [] && d == d0 && BulkAhead(blocks, d0, seen, lo))
    && (bulk ==> (b == s && o == lo) || (b == s + 1 && o == 0))
    && (!bulk ==> seen == Some(s))
    && (!bulk && bulk0 ==> round && AtEnd(blocks, seen, lo))
  }

  /** The scan is over at page `o` of block `b`. */
  ghost predicate Finished(blocks: seq<RamBlock>, d0: set<nat>, bulk0: bool, seen: Option<nat>, lo: nat, unmodified: set<nat>,
                           d: set<nat>, bulk: bool, b: nat, o: nat, handed: seq<nat>, sent: bool)
  {
    && b < |blocks| && o <= blocks[b].pages
    && (bulk ==> bulk0 && o < blocks[b].pages && BulkAhead(blocks, d, Some(b), o))
    && (bulk0 && !bulk ==> AtEnd(blocks, seen, lo))
    && (sent ==> handed != [] && handed[|handed| - 1] == Page(blocks, b, o))
    && Outcome(d0, handed, d, LostPages(blocks, d0, bulk0, seen, lo, unmodified), Pages(blocks), unmodified, sent)
  }

  /** What the search from page `start` of block `b` finds and clears: in the bulk stage the
      next page, otherwise the next dirty one. */
  ghost predicate Found(blocks: seq<RamBlock>, d: set<nat>, bulk: bool, b: nat, start: nat, o: nat, d': set<nat>)
    requires b < |blocks|
  {
    && (if bulk && start > 0 then o == start + 1 else start <= o <= blocks[b].pages && Clean(blocks, d, b, start, o))
    && if o < blocks[b].pages then Page(blocks, b, o) in d && d' == d - {Page(blocks, b, o)} else d' == d
  }

  /** What a turn of the scan has come to, by what it found. */
  lemma ScanTurn(blocks: seq<RamBlock>, d0: set<nat>, bulk0: bool, seen: Option<nat>, lo: nat, unmodified: set<nat>,
                 d: set<nat>, bulk: bool, b: nat, o: nat, round: bool, handed: seq<nat>, o': nat, d': set<nat>)
    requires Layout(blocks) && Scanning(blocks, d0, bulk0, seen, lo, unmodified, d, bulk, b, o, round, handed)
    requires b < |blocks| && Found(blocks, d, bulk, b, o, o', d')
    ensures round && seen == Some(b) && o' >= lo ==>
      Finished(blocks, d0, bulk0, seen, lo, unmodified, d', bulk, b, o', handed, false)
    ensures !(round && seen == Some(b) && o' >= lo) && o' >= blocks[b].pages ==>
      if b + 1 == |blocks|
      then Scanning(blocks, d0, bulk0, seen, lo, unmodified, d', false, 0, 0, true, handed) && Progress(d, round, b, d', true, 0)
      else Scanning(blocks, d0, bulk0, seen, lo, unmodified, d', bulk, b + 1, 0, round, handed) && Progress(d, round, b, d', round, b + 1)
    ensures !(round && seen == Some(b) && o' >= lo) && o' < blocks[b].pages ==>
      var p := Page(blocks, b, o');
      if bulk || p !in unmodified
      then Finished(blocks, d0, bulk0, seen, lo, unmodified, d', bulk, b, o', handed + [p], true)
      else Scanning(blocks, d0, bulk0, seen, lo, unmodified, d', bulk, b, o', round, handed + [p]) && Progress(d, round, b, d', round, b)
  {
    ScanningBounds(blocks, d0, bulk0, seen, lo, unmodified, d, bulk, b, o, round, handed);
    hide Layout, Scanning, Finished, Progress, Clean, Pages;
    if round && seen == Some(b) && o' >= lo {
      ScanEnds(blocks, d0, bulk0, seen, lo, unmodified, d, bulk, b, o, o', round, handed);
    } else if o' >= blocks[b].pages {
      ScanNextBlock(blocks, d0, bulk0, seen, lo, unmodified, d, bulk, b, o, o', round, handed);
      GoesOn(d, round, b);
    } else {
      ScanFinds(blocks, d0, bulk0, seen, lo, unmodified, d, bulk, b, o, o', round, handed);
      Shrinks(d, Page(blocks, b, o'), round, b);
    }
  }

  lemma ScanStarts(blocks: seq<RamBlock>, d: set<nat>, bulk: bool, seen: Option<nat>, lo: nat, unmodified: set<nat>)
    requires blocks != [] && (bulk ==> BulkAhead(blocks, d, seen, lo)) && (seen.None? ==> bulk && lo == 0)
    requires seen.Some? ==> seen.value < |blocks| && lo <= blocks[seen.value].pages && (bulk ==> lo < blocks[seen.value].pages)
    ensures Scanning(blocks, d, bulk, seen, lo, unmodified, d, bulk, StartBlock(seen), lo, false, [])
  {
    hide Pages, BulkAhead, Skipped, Handed, Scanned;
    SkippedNone(d, Pages(blocks), unmodified);
    ScannedStart(blocks, d, StartBlock(seen), lo, FirstChecked(bulk, lo), lo);
  }

  lemma ScanFinished(blocks: seq<RamBlock>, d0: set<nat>, bulk0: bool, seen: Option<nat>, lo: nat, unmodified: set<nat>,
                     d: set<nat>, bulk: bool, b: nat, o: nat, handed: seq<nat>, sent: bool)
    requires Finished(blocks, d0, bulk0, seen, lo, unmodified, d, bulk, b, o, handed, sent)
    ensures b < |blocks| && o <= blocks[b].pages
    ensures bulk ==> bulk0 && o < blocks[b].pages && BulkAhead(blocks, d, Some(b), o)
    ensures bulk0 && !bulk ==> AtEnd(blocks, seen, lo)
    ensures sent ==> handed != [] && handed[|handed| - 1] == Page(blocks, b, o)
    ensures Outcome(d0, handed, d, LostPages(blocks, d0, bulk0, seen, lo, unmodified), Pages(blocks), unmodified, sent)
  {
    hide Pages, Outcome, LostPages, BulkAhead;
  }

  lemma ScanningBounds(blocks: seq<RamBlock>, d0: set<nat>, bulk0: bool, seen: Option<nat>, lo: nat, unmodified: set<nat>,
                       d: set<nat>, bulk: bool, b: nat, o: nat, round: bool, handed: seq<nat>)
    requires Scanning(blocks, d0, bulk0, seen, lo, unmodified, d, bulk, b, o, round, handed)
    ensures b < |blocks| && o <= blocks[b].pages && (round ==> !bulk)
    ensures bulk && 0 < o && o + 1 < blocks[b].pages ==> Page(blocks, b, o + 1) in d
  {
    hide Pages, Scanned, Skipped;
  }

  lemma ScanEnds(blocks: seq<RamBlock>, d0: set<nat>, bulk0: bool, seen: Option<nat>, lo: nat, unmodified: set<nat>,
                 d: set<nat>, bulk: bool, b: nat, o: nat, o': nat, round: bool, handed: seq<nat>)
    requires Layout(blocks) && Scanning(blocks, d0, bulk0, seen, lo, unmodified, d, bulk, b, o, round, handed)
    requires round && seen == Some(b) && lo <= o' <= blocks[b].pages && Clean(blocks, d, b, o, o')
    requires o' < blocks[b].pages ==> Page(blocks, b, o') in d
    ensures Finished(blocks, d0, bulk0, seen, lo, unmodified, if o' < blocks[b].pages then d - {Page(blocks, b, o')} else d,
                     bulk, b, o', handed, false)
  {
    hide Pages, Layout, Scanned, Clean, Skipped, Outcome, LostPages;
    var lost := LostPages(blocks, d0, bulk0, seen, lo, unmodified);
    RoundEnds(blocks, d0, handed, d, bulk0, b, lo, FirstChecked(bulk0, lo), o, o', unmodified);
    assert d - {} == d;
    SkippedAll(d0, handed, d, lost, Pages(blocks), unmodified);
  }

  lemma ScanNextBlock(blocks: seq<RamBlock>, d0: set<nat>, bulk0: bool, seen: Option<nat>, lo: nat, unmodified: set<nat>,
                      d: set<nat>, bulk: bool, b: nat, o: nat, o': nat, round: bool, handed: seq<nat>)
    requires Scanning(blocks, d0, bulk0, seen, lo, unmodified, d, bulk, b, o, round, handed)
    requires !(round && seen == Some(b) && o' >= lo) && o' >= blocks[b].pages
    requires if bulk && o > 0 then o' == o + 1 else o <= o' <= blocks[b].pages && Clean(blocks, d, b, o, o')
    ensures if b + 1 == |blocks|
      then !round && Scanning(blocks, d0, bulk0, seen, lo, unmodified, d, false, 0, 0, true, handed)
      else Scanning(blocks, d0, bulk0, seen, lo, unmodified, d, bulk, b + 1, 0, round, handed)
  {
    hide Pages, Scanned, Clean, Skipped, Handed, BulkAhead;
    var s, lo1 := StartBlock(seen), FirstChecked(bulk0, lo);
    assert round ==> b < s by { ScannedOrder(blocks, d, s, lo, lo1, b, o, round); }
    if bulk { BulkBlockDone(blocks, d0, seen, lo, s, b, o, o'); }
    if bulk && o > 0 { ScannedStart(blocks, d, s, lo, lo1, o'); }
    else { ScannedFurther(blocks, d, s, lo, lo1, b, o, o', round); }
    ScannedNextBlock(blocks, d, s, lo, lo1, b, o', round);
  }

  lemma ScannedOrder(blocks: seq<RamBlock>, d: set<nat>, s: nat, lo: nat, lo1: nat, b: nat, o: nat, round: bool)
    requires s < |blocks| && b < |blocks| && Scanned(blocks, d, s, lo, lo1, b, o, round)
    ensures round ==> b <= s
  {}

  lemma ScanFinds(blocks: seq<RamBlock>, d0: set<nat>, bulk0: bool, seen: Option<nat>, lo: nat, unmodified: set<nat>,
                  d: set<nat>, bulk: bool, b: nat, o: nat, o': nat, round: bool, handed: seq<nat>)
    requires Layout(blocks) && Scanning(blocks, d0, bulk0, seen, lo, unmodified, d, bulk, b, o, round, handed)
    requires !(round && seen == Some(b) && o' >= lo) && o' < blocks[b].pages && Page(blocks, b, o') in d
    requires if bulk && o > 0 then o' == o + 1 else o <= o' && Clean(blocks, d, b, o, o')
    ensures var p := Page(blocks, b, o');
      if bulk || p !in unmodified
      then Finished(blocks, d0, bulk0, seen, lo, unmodified, d - {p}, bulk, b, o', handed + [p], true)
      else Scanning(blocks, d0, bulk0, seen, lo, unmodified, d - {p}, bulk, b, o', round, handed + [p])
  {
    hide Pages, Layout, Scanned, Clean, Skipped, Handed, BulkAhead, Outcome, LostPages;
    var s, lo1, p := StartBlock(seen), FirstChecked(bulk0, lo), Page(blocks, b, o');
    PageOnBlock(blocks, b, o');
    SkippedMore(d0, handed, d, Pages(blocks), unmodified, p);
    if bulk0 && lo > 0 && p == Page(blocks, s, lo) { PageInjective(blocks, b, o', s, lo); }
    if bulk { BulkNextDirty(blocks, d0, seen, lo); }
    if bulk || p !in unmodified {
      SentLosesNone(blocks, d0, bulk0, seen, lo, unmodified, b, o');
      if bulk { BulkAdvances(blocks, d0, seen, lo, b, o'); }
    } else {
      ScannedFurther(blocks, d, s, lo, lo1, b, o, o', round);
      ScannedShrinks(blocks, d, d - {p}, s, lo, lo1, b, o', round);
    }
  }

  /** A turn clears a page, or starts the second round, or goes on to the next block. */
  ghost predicate Progress(d: set<nat>, round: bool, b: nat, d': set<nat>, round': bool, b': nat) {
    d' < d || (d' == d && ((round' && !round) || (round' == round && b' > b)))
  }

  lemma Shrinks(d: set<nat>, p: nat, round: bool, b: nat)
    requires p in d
    ensures Progress(d, round, b, d - {p}, round, b)
  {}

  lemma GoesOn(d: set<nat>, round: bool, b: nat)
    ensures Progress(d, round, b, d, round, b + 1)
    ensures !round ==> Progress(d, round, b, d, true, 0)
  {}

  lemma OneLess(d: set<nat>, P: set<nat>, p: nat)
    requires p in d && p in P
    ensures |(d - {p}) * P| == |d * P| - 1
  {
    assert (d - {p}) * P == d * P - {p};
  }

  // ----- setup -----

  lemma AllInside(blocks: seq<RamBlock>)
    ensures Pages(blocks) <= Range(0, LastPage(blocks))
  {
    hide Pages, Range;
  }

  /** last_ram_offset, in pages */
  function LastPage(blocks: seq<RamBlock>): (n: nat)
    ensures forall b <- blocks :: b.base + b.pages <= n
  {
    if blocks == [] then 0
    else
      var n, b := LastPage(blocks[1..]), blocks[0];
      if n < b.base + b.pages then b.base + b.pages else n
  }

  function TotalPages(blocks: seq<RamBlock>): nat {
    if blocks == [] then 0 else blocks[0].pages + TotalPages(blocks[1..])
  }

  ghost predicate DisjointBlocks(blocks: seq<RamBlock>) {
    forall i, j, p: nat :: 0 <= i < j < |blocks| && InBlock(blocks[i], p) ==> !InBlock(blocks[j], p)
  }

  lemma {:induction false} RangeSize(lo: nat, hi: nat)
    requires lo <= hi
    ensures |Range(lo, hi)| == hi - lo
    decreases hi - lo
  {
    if lo < hi { RangeSize(lo + 1, hi); }
  }

  lemma HeadApart(blocks: seq<RamBlock>, p: nat)
    requires DisjointBlocks(blocks) && blocks != [] && InBlock(blocks[0], p)
    ensures p !in Pages(blocks[1..])
  {
    hide Pages, Range;
    var rest := blocks[1..];
    forall i | 0 <= i < |rest| ensures !InBlock(rest[i], p) { assert rest[i] == blocks[i + 1]; }
  }

  lemma DisjointTail(blocks: seq<RamBlock>)
    requires DisjointBlocks(blocks) && blocks != []
    ensures DisjointBlocks(blocks[1..])
  {
    var rest := blocks[1..];
    forall i, j, p: nat | 0 <= i < j < |rest| && InBlock(rest[i], p) ensures !InBlock(rest[j], p) {
      assert InBlock(blocks[i + 1], p);
    }
  }

  lemma SizeOfUnion(a: set<nat>, b: set<nat>)
    requires a !! b
    ensures |a + b| == |a| + |b|
  {}

  lemma HeadDisjoint(blocks: seq<RamBlock>)
    requires DisjointBlocks(blocks) && blocks != []
    ensures Range(blocks[0].base, blocks[0].base + blocks[0].pages) !! Pages(blocks[1..])
  {
    hide Pages, Range, DisjointBlocks;
    var r := Range(blocks[0].base, blocks[0].base + blocks[0].pages);
    forall p | p in r ensures p !in Pages(blocks[1..]) { HeadApart(blocks, p); }
  }

  lemma PagesStep(blocks: seq<RamBlock>)
    requires DisjointBlocks(blocks) && blocks != []
    ensures |Pages(blocks)| == blocks[0].pages + |Pages(blocks[1..])|
  {
    hide *;
    RangeSize(blocks[0].base, blocks[0].base + blocks[0].pages);
    HeadDisjoint(blocks);
    PagesCons(blocks);
    SizeOfUnion(Range(blocks[0].base, blocks[0].base + blocks[0].pages), Pages(blocks[1..]));
  }

  /** Blocks that do not overlap have as many pages together as one by one. */
  lemma {:induction false} PagesCount(blocks: seq<RamBlock>)
    requires DisjointBlocks(blocks)
    ensures |Pages(blocks)| == TotalPages(blocks)
  {
    if blocks != [] {
      DisjointTail(blocks);
      hide Pages, DisjointBlocks;
      PagesStep(blocks);
      PagesCount(blocks[1..]);
    }
  }

  lemma PagesCons(blocks: seq<RamBlock>)
    requires blocks != []
    ensures Pages(blocks) == Range(blocks[0].base, blocks[0].base + blocks[0].pages) + Pages(blocks[1..])
  {}

  function FirstWord(n: nat): Word { Range(0, if n < BITS_PER_LONG then n else BITS_PER_LONG) }

  /** A bitmap with the first `n` bits set. */
  function FirstBits(n: nat): Bitmap {
    seq(Longs(n), k requires k >= 0 => FirstWord(if n <= BITS_PER_LONG * k then 0 else n - BITS_PER_LONG * k))
  }

  lemma FirstBitsAre(n: nat)
    ensures Bits(FirstBits(n)) == Range(0, n)
  {
    var m := FirstBits(n);
    forall nr: nat ensures Bit(m, nr) <==> nr < n {
      assert nr == BITS_PER_LONG * (nr / BITS_PER_LONG) + nr % BITS_PER_LONG;
    }
  }

  lemma SetupOk(blocks: seq<RamBlock>)
    requires Layout(blocks)
    ensures var m := FirstBits(LastPage(blocks));
      && |m| == Longs(LastPage(blocks)) && Fits(blocks, m) && Pages(blocks) <= Bits(m)
      && |Bits(m) * Pages(blocks)| == TotalPages(blocks)
  {
    FirstBitsAre(LastPage(blocks));
    hide Pages, Bits, DisjointBlocks, LastPage;
    PagesCount(blocks);
    AllInside(blocks);
    assert Bits(FirstBits(LastPage(blocks))) * Pages(blocks) == Pages(blocks);
  }

  /** How a turn of the scan ends. */
  datatype Next = Again | Sent | Done

  class RamState {
    const blocks: seq<RamBlock>
    var bitmap: Bitmap
    var log: Bitmap
    var dirtyPages: int
    var lastSeen: Option<nat>
    var lastOffset: nat
    var bulk: bool

    ghost function Dirty(): set<nat> reads this { Bits(bitmap) }

    ghost predicate Valid()
      reads this
    {
      && Layout(blocks) && Fits(blocks, bitmap) && |log| == |bitmap|
      && Bits(log) <= Pages(blocks)
      && dirtyPages == |Dirty() * Pages(blocks)|
    }

    /** ram_save_setup: every page is dirty, counted, and still to be sent in the bulk stage. */
    constructor (blocks: seq<RamBlock>, log: Bitmap)
      requires Layout(blocks) && |log| == Longs(LastPage(blocks)) && Bits(log) <= Pages(blocks)
      ensures Valid() && CursorOk() && this.blocks == blocks && this.log == log
      ensures Pages(blocks) <= Dirty() && bulk && lastSeen == None && lastOffset == 0
    {
      this.blocks, this.log := blocks, log;
      bitmap := FirstBits(LastPage(blocks));
      dirtyPages := TotalPages(blocks);
      lastSeen, lastOffset, bulk := None, 0, true;
      SetupOk(blocks);
    }

    /** migration_bitmap_set_dirty */
    method SetDirty(p: nat) returns (was: bool)
      requires p / BITS_PER_LONG < |bitmap|
      modifies `bitmap, `dirtyPages
      ensures was <==> p in old(Dirty())
      ensures |bitmap| == old(|bitmap|) && Dirty() == old(Dirty()) + {p}
      ensures dirtyPages == old(dirtyPages) + if was then 0 else 1
    {
      was := Bit(bitmap, p);
      bitmap := SetBit(bitmap, p);
      if !was { dirtyPages := dirtyPages + 1; }
    }

    /** The word-wise branch of migration_bitmap_sync_range. */
    method SyncWords(page: nat, nr: nat)
      requires page + nr <= |bitmap| == |log|
      modifies `bitmap, `log, `dirtyPages
      ensures |bitmap| == |log| == old(|bitmap|)
      ensures Moved(old(Dirty()), old(Bits(log)), old(dirtyPages), Range(BITS_PER_LONG * page, BITS_PER_LONG * (page + nr)),
                    Dirty(), Bits(log), dirtyPages)
    {
      hide Bit, Bits, Range, Moved;
      ghost var d0, l0, c0 := Dirty(), Bits(log), dirtyPages;
      var k := page;
      MovedNone(d0, l0, c0, Range(BITS_PER_LONG * page, BITS_PER_LONG * page));
      while k < page + nr
        invariant page <= k <= page + nr && |bitmap| == |log| == old(|bitmap|)
        invariant Moved(d0, l0, c0, Range(BITS_PER_LONG * page, BITS_PER_LONG * k), Dirty(), Bits(log), dirtyPages)
      {
        ghost var d1, l1, c1 := Dirty(), Bits(log), dirtyPages;
        ghost var R, W := Range(BITS_PER_LONG * page, BITS_PER_LONG * k), Range(BITS_PER_LONG * k, BITS_PER_LONG * (k + 1));
        SyncWord(k);
        assert R + W == Range(BITS_PER_LONG * page, BITS_PER_LONG * (k + 1));
        MovedMore(d0, l0, c0, R, d1, l1, c1, W, Dirty(), Bits(log), dirtyPages);
        k := k + 1;
      }
    }

    /** One word of the word-wise branch. */
    method SyncWord(k: nat)
      requires k < |bitmap| == |log|
      modifies `bitmap, `log, `dirtyPages
      ensures |bitmap| == |log| == old(|bitmap|)
      ensures Moved(old(Dirty()), old(Bits(log)), old(dirtyPages), Range(BITS_PER_LONG * k, BITS_PER_LONG * (k + 1)),
                    Dirty(), Bits(log), dirtyPages)
    {
      hide Bit, Bits, Range, Moved;
      MovedWord(bitmap, log, dirtyPages, k);
      if log[k] != {} {
        var newDirty := log[k] - bitmap[k];
        bitmap := bitmap[k := bitmap[k] + log[k]];
        dirtyPages := dirtyPages + |newDirty|;
        log := log[k := {}];
      } else {
        assert bitmap[k := bitmap[k] + log[k]] == bitmap && log[k := {}] == log;
        assert |log[k] - bitmap[k]| == 0;
      }
    }

    method SyncPage(p: nat)
      requires |bitmap| == |log| && p < BITS_PER_LONG * |bitmap|
      modifies `bitmap, `log, `dirtyPages
      ensures |bitmap| == |log| == old(|bitmap|)
      ensures Moved(old(Dirty()), old(Bits(log)), old(dirtyPages), {p}, Dirty(), Bits(log), dirtyPages)
    {
      if Bit(log, p) {
        MovedOne(Dirty(), Bits(log), dirtyPages, p);
        hide Bits, Moved;
        log := ClearBit(log, p);
        var was := SetDirty(p);
      } else {
        MovedNone(Dirty(), Bits(log), dirtyPages, {p});
      }
    }

    /** The page-wise branch of migration_bitmap_sync_range. */
    method SyncPages(start: nat, length: nat)
      requires |bitmap| == |log| && start + length <= BITS_PER_LONG * |bitmap|
      modifies `bitmap, `log, `dirtyPages
      ensures |bitmap| == |log| == old(|bitmap|)
      ensures Moved(old(Dirty()), old(Bits(log)), old(dirtyPages), Range(start, start + length),
                    Dirty(), Bits(log), dirtyPages)
    {
      hide Bit, Bits, Range, Moved;
      ghost var d0, l0, c0 := Dirty(), Bits(log), dirtyPages;
      var p := start;
      MovedNone(d0, l0, c0, Range(start, start));
      while p < start + length
        invariant start <= p <= start + length && |bitmap| == |log| == old(|bitmap|)
        invariant Moved(d0, l0, c0, Range(start, p), Dirty(), Bits(log), dirtyPages)
      {
        ghost var d1, l1, c1 := Dirty(), Bits(log), dirtyPages;
        SyncPage(p);
        assert Range(start, p + 1) == Range(start, p) + {p};
        MovedMore(d0, l0, c0, Range(start, p), d1, l1, c1, {p}, Dirty(), Bits(log), dirtyPages);
        p := p + 1;
      }
    }

    /** migration_bitmap_sync_range: both branches move exactly the logged pages they
        look at into the bitmap, clear them in the log and count the new ones. */
    method SyncRange(start: nat, length: nat)
      requires |bitmap| == |log| && start + length <= BITS_PER_LONG * |bitmap|
      modifies `bitmap, `log, `dirtyPages
      ensures |bitmap| == |log| == old(|bitmap|)
      ensures Moved(old(Dirty()), old(Bits(log)), old(dirtyPages), Reach(start, length), Dirty(), Bits(log), dirtyPages)
    {
      hide Bit, Bits, Range, Moved;
      var page := start / BITS_PER_LONG;
      if page * BITS_PER_LONG == start {
        SyncWords(page, Longs(length));
      } else {
        SyncPages(start, length);
      }
    }

    /** migration_bitmap_sync: the whole log is moved, and the counter stays the number
        of dirty pages of RAM blocks. */
    method Sync()
      requires Valid()
      modifies `bitmap, `log, `dirtyPages
      ensures Valid() && |bitmap| == old(|bitmap|)
      ensures Dirty() == old(Dirty()) + old(Bits(log)) && Bits(log) == {}
    {
      hide Bit, Bits, Range, Moved, Pages, Layout;
      ghost var all, P := Dirty() + Bits(log), Pages(blocks);
      var i := 0;
      while i < |blocks|
        invariant 0 <= i <= |blocks| && |log| == |bitmap| == old(|bitmap|) && Fits(blocks, bitmap)
        invariant Bits(log) <= P && dirtyPages == |Dirty() * P| && Dirty() + Bits(log) == all
        invariant Bits(log) !! Pages(blocks[..i])
      {
        ghost var d, l, c := Dirty(), Bits(log), dirtyPages;
        ghost var R := Reach(blocks[i].base, blocks[i].pages);
        SyncRange(blocks[i].base, blocks[i].pages);
        MovedCounts(d, l, c, R, Dirty(), Bits(log), dirtyPages, P);
        MovedOut(d, l, c, R, Dirty(), Bits(log), dirtyPages, blocks, i);
        i := i + 1;
      }
      assert blocks[..i] == blocks;
      assert Bits(log) == {};
    }

    /** find_next_bit on the bits of one block. */
    method FindNextBit(b: nat, start: nat) returns (o: nat)
      requires b < |blocks| && start <= blocks[b].pages
      ensures start <= o <= blocks[b].pages && Clean(blocks, Dirty(), b, start, o)
      ensures o < blocks[b].pages ==> Page(blocks, b, o) in Dirty()
    {
      hide Bits, Bit;
      o := start;
      while o < blocks[b].pages && !Bit(bitmap, blocks[b].base + o)
        invariant start <= o <= blocks[b].pages && Clean(blocks, Dirty(), b, start, o)
      {
        BitsAre(bitmap, blocks[b].base + o);
        o := o + 1;
      }
      if o < blocks[b].pages { BitsAre(bitmap, blocks[b].base + o); }
    }

    /** The bit of a page is cleared and the page no longer counted. */
    method ResetDirty(b: nat, o: nat)
      requires Valid() && b < |blocks| && o < blocks[b].pages && Page(blocks, b, o) in Dirty()
      modifies `bitmap, `dirtyPages
      ensures Valid() && |bitmap| == old(|bitmap|) && Dirty() == old(Dirty()) - {Page(blocks, b, o)}
    {
      hide Bits, Bit, Pages, Layout;
      ghost var p := Page(blocks, b, o);
      PageOnBlock(blocks, b, o);
      assert Fits(blocks, bitmap) && blocks[b] in blocks;
      OneLess(Dirty(), Pages(blocks), p);
      bitmap := ClearBit(bitmap, blocks[b].base + o);
      dirtyPages := dirtyPages - 1;
    }

    /** migration_bitmap_find_and_reset_dirty */
    method FindAndResetDirty(b: nat, start: nat) returns (o: nat)
      requires Valid() && b < |blocks| && start <= blocks[b].pages
      requires bulk && 0 < start && start + 1 < blocks[b].pages ==> Page(blocks, b, start + 1) in Dirty()
      modifies `bitmap, `dirtyPages
      ensures Valid() && |bitmap| == old(|bitmap|)
      ensures Found(blocks, old(Dirty()), bulk, b, start, o, Dirty())
    {
      hide Bits, Bit, Pages, Layout;
      if bulk && start > 0 {
        o := start + 1;
      } else {
        o := FindNextBit(b, start);
      }
      if o < blocks[b].pages {
        ResetDirty(b, o);
      }
    }

    ghost predicate CursorOk()
      reads this
    {
      && (bulk ==> BulkAhead(blocks, Dirty(), lastSeen, lastOffset))
      && (lastSeen.None? ==> bulk && lastOffset == 0)
      && (lastSeen.Some? ==> lastSeen.value < |blocks| && lastOffset <= blocks[lastSeen.value].pages
                             && (bulk ==> lastOffset < blocks[lastSeen.value].pages))
    }

    /** The scan goes on to the next block; past the last one it starts its second round and
        the bulk stage is over. */
    method NextBlock(b: nat, round: bool) returns (b': nat, round': bool)
      requires Valid() && b < |blocks|
      modifies `bulk
      ensures Valid()
      ensures if b + 1 == |blocks| then b' == 0 && round' && !bulk else b' == b + 1 && round' == round && bulk == old(bulk)
    {
      hide Bits, Bit, Pages, Layout, Fits;
      b', round' := b + 1, round;
      if b' == |blocks| {
        b', round', bulk := 0, true, false;
      }
    }

    /** One turn of the loop in ram_find_and_save_block. */
    method ScanStep(b: nat, o: nat, round: bool, handed: seq<nat>, unmodified: set<nat>, ghost d0: set<nat>, ghost bulk0: bool)
      returns (b': nat, o': nat, round': bool, handed': seq<nat>, next: Next)
      requires Valid() && Scanning(blocks, d0, bulk0, lastSeen, lastOffset, unmodified, Dirty(), bulk, b, o, round, handed)
      modifies `bitmap, `dirtyPages, `bulk
      ensures Valid() && |bitmap| == old(|bitmap|)
      ensures next.Again? ==>
        Scanning(blocks, d0, bulk0, lastSeen, lastOffset, unmodified, Dirty(), bulk, b', o', round', handed')
      ensures next.Again? ==> Progress(old(Dirty()), round, b, Dirty(), round', b')
      ensures !next.Again? ==>
        Finished(blocks, d0, bulk0, lastSeen, lastOffset, unmodified, Dirty(), bulk, b', o', handed', next.Sent?)
      ensures b' < |blocks|
    {
      hide Bits, Bit, Pages, Layout, Scanning, Finished, Found, Fits, Progress;
      ghost var d := Dirty();
      assert Layout(blocks);
      hide RamState.Valid;
      b', o', round', handed', next := b, o, round, handed, Again;
      ScanningBounds(blocks, d0, bulk0, lastSeen, lastOffset, unmodified, d, bulk, b, o, round, handed);
      o' := FindAndResetDirty(b, o);
      ScanTurn(blocks, d0, bulk0, lastSeen, lastOffset, unmodified, d, bulk, b, o, round, handed, o', Dirty());
      if round && lastSeen == Some(b) && o' >= lastOffset {
        next := Done;
      } else if o' >= blocks[b].pages {
        o' := 0;
        b', round' := NextBlock(b, round);
      } else {
        var p := blocks[b].base + o';
        handed' := handed + [p];
        if bulk || p !in unmodified {
          next := Sent;
        }
      }
    }

    /** ram_find_and_save_block.  `unmodified` are the pages for which ram_save_page would
        send nothing once the bulk stage is over; `handed` are the pages given to it. */
    method FindAndSave(unmodified: set<nat>) returns (handed: seq<nat>, sent: bool)
      requires Valid() && CursorOk()
      modifies `bitmap, `dirtyPages, `lastSeen, `lastOffset, `bulk
      ensures Valid() && CursorOk() && |bitmap| == old(|bitmap|) 
      ensures bulk ==> old(bulk)
      ensures old(bulk) && !bulk ==> AtEnd(blocks, old(lastSeen), old(lastOffset))
      ensures sent ==> lastSeen.Some? && handed != [] && handed[|handed| - 1] == Page(blocks, lastSeen.value, lastOffset)
      ensures Outcome(old(Dirty()), handed, Dirty(),
                      LostPages(blocks, old(Dirty()), old(bulk), old(lastSeen), old(lastOffset), unmodified),
                      Pages(blocks), unmodified, sent)
    {
      hide Bits, Bit, Pages, Layout, Scanning, Finished, Outcome, LostPages, BulkAhead, Fits;
      var b: nat, o: nat := if lastSeen.Some? then lastSeen.value else 0, lastOffset;
      var round, next := false, Again;
      handed := [];
      ghost var d0, bulk0 := Dirty(), bulk;
      NonEmpty(blocks);
      ScanStarts(blocks, d0, bulk, lastSeen, lastOffset, unmodified);
      hide RamState.Valid;
      while next.Again?
        invariant Valid() && |bitmap| == old(|bitmap|) && lastSeen == old(lastSeen) && lastOffset == old(lastOffset)
        invariant next.Again? ==>
          Scanning(blocks, d0, bulk0, lastSeen, lastOffset, unmodified, Dirty(), bulk, b, o, round, handed)
        invariant !next.Again? ==>
          Finished(blocks, d0, bulk0, lastSeen, lastOffset, unmodified, Dirty(), bulk, b, o, handed, next.Sent?)
        invariant b < |blocks|
        decreases next.Again?, Dirty(), !round, |blocks| - b
      {
        b, o, round, handed, next := ScanStep(b, o, round, handed, unmodified, d0, bulk0);
      }
      sent := next.Sent?;
      ScanFinished(blocks, d0, bulk0, lastSeen, lastOffset, unmodified, Dirty(), bulk, b, o, handed, sent);
      MoveCursor(b, o);
    }

    method MoveCursor(b: nat, o: nat)
      requires Valid()
      modifies `lastSeen, `lastOffset
      ensures Valid() && lastSeen == Some(b) && lastOffset == o
    {
      hide Bits, Bit, Pages, Layout, Fits;
      lastSeen, lastOffset := Some(b), o;
    }
  }
}
