/**
 The byte stream of RAM migration (arch_init.c): what ram_save_setup and
 save_block_hdr with its callers write, what ram_load reads, and that the second
 undoes the first.

 Words are unsigned 64-bit integers.  Offsets are multiples of the page size and
 the flags are distinct bits below it, so joining them is an addition, masking
 them out is a remainder, and a flag test looks at one binary digit.
 */
module RamStream {
  import opened Arithmetic
  import opened Basics
  import opened RamSender
  import opened RamMigration

  const PAGE_SIZE: nat := 1024
  const FLAG_COMPRESS: nat := 0x02
  const FLAG_MEM_SIZE: nat := 0x04
  const FLAG_PAGE: nat := 0x08
  const FLAG_EOS: nat := 0x10
  const FLAG_CONTINUE: nat := 0x20
  const FLAG_XBZRLE: nat := 0x40
  const FLAG_HOOK: nat := 0x80
  const ENCODING_XBZRLE: byte := 1
  const TWO_64: nat := 0x1_0000_0000_0000_0000

  type Bytes = seq<byte>

  predicate Has(flags: nat, flag: pos) { (flags / flag) % 2 == 1 }

  // ----- big-endian words -----

  function Power(k: nat): pos { if k == 0 then 1 else 256 * Power(k - 1) }

  /** The `k` low bytes of `n`, most significant first. */
  function PutBe(n: nat, k: nat): (s: Bytes)
    ensures |s| == k
  {
    if k == 0 then [] else PutBe(n / 256, k - 1) + [n % 256]
  }

  function GetBe(s: Bytes): nat {
    if s == [] then 0 else 256 * GetBe(s[..|s| - 1]) + s[|s| - 1]
  }

  lemma {:induction false} BeRoundTrip(n: nat, k: nat)
    requires n < Power(k)
    ensures GetBe(PutBe(n, k)) == n
  {
    if k > 0 {
      BeRoundTrip(n / 256, k - 1);
      assert PutBe(n, k)[..k - 1] == PutBe(n / 256, k - 1);
    }
  }

  function Be64(n: nat): (s: Bytes)
    ensures |s| == 8
  {
    PutBe(n, 8)
  }

  function Be16(n: nat): (s: Bytes)
    ensures |s| == 2
  {
    PutBe(n, 2)
  }

  lemma Get64(n: nat, rest: Bytes)
    requires n < TWO_64
    ensures |Be64(n)| == 8 && GetBe((Be64(n) + rest)[..8]) == n && (Be64(n) + rest)[8..] == rest
  {
    assert Power(4) == 0x1_0000_0000;
    assert Power(8) == TWO_64;
    BeRoundTrip(n, 8);
    assert (Be64(n) + rest)[..8] == Be64(n);
  }

  lemma Get16(n: nat, rest: Bytes)
    requires n < 0x1_0000
    ensures |Be16(n)| == 2 && GetBe((Be16(n) + rest)[..2]) == n && (Be16(n) + rest)[2..] == rest
  {
    assert Power(2) == 0x1_0000;
    BeRoundTrip(n, 2);
    assert (Be16(n) + rest)[..2] == Be16(n);
  }

  // ----- what is sent -----

  function Length(b: RamBlock): (n: nat)
    ensures n >= PAGE_SIZE
  {
    b.pages * PAGE_SIZE
  }

  function Total(blocks: seq<RamBlock>): nat {
    if blocks == [] then 0 else Length(blocks[0]) + Total(blocks[1..])
  }

  datatype Payload = Zero | Full(data: PageData) | Patch(bytes: Bytes)

  /** A page that is sent: block index, byte offset in the block, contents. */
  datatype PageRecord = PageRecord(block: nat, offset: nat, payload: Payload)

  /** A block name fits the sender's buffer and is a C string. */
  predicate Named(b: RamBlock) { |b.idstr| <= 255 && 0 !in b.idstr }

  predicate BlocksOk(blocks: seq<RamBlock>) {
    (forall b <- blocks :: Named(b)) && Total(blocks) < TWO_64
  }

  predicate RecordOk(blocks: seq<RamBlock>, r: PageRecord) {
    && r.block < |blocks| && r.offset % PAGE_SIZE == 0 && r.offset < Length(blocks[r.block])
    && (r.payload.Full? ==> |r.payload.data| == PAGE_SIZE)
    && (r.payload.Patch? ==> |r.payload.bytes| <= PAGE_SIZE)
  }

  function Name(id: Bytes): Bytes
    requires |id| <= 255
  {
    [|id|] + id
  }

  function Flag(p: Payload): nat {
    match p
    case Zero => FLAG_COMPRESS
    case Full(_) => FLAG_PAGE
    case Patch(_) => FLAG_XBZRLE
  }

  /** save_block_hdr */
  function Header(blocks: seq<RamBlock>, last: Option<nat>, r: PageRecord): Bytes
    requires BlocksOk(blocks) && RecordOk(blocks, r)
  {
    var cont := last == Some(r.block);
    assert Named(blocks[r.block]);
    Be64(r.offset + (if cont then FLAG_CONTINUE else 0) + Flag(r.payload))
    + if cont then [] else Name(blocks[r.block].idstr)
  }

  function Body(p: Payload): Bytes
    requires p.Patch? ==> |p.bytes| <= PAGE_SIZE
  {
    match p
    case Zero => [0]
    case Full(data) => data
    case Patch(bytes) => [ENCODING_XBZRLE] + (Be16(|bytes|) + bytes)
  }

  /** The pages of one section and its end mark; `last` is last_sent_block. */
  function Section(blocks: seq<RamBlock>, last: Option<nat>, rs: seq<PageRecord>): Bytes
    requires BlocksOk(blocks) && forall r <- rs :: RecordOk(blocks, r)
    decreases |rs|
  {
    if rs == [] then Be64(FLAG_EOS)
    else Header(blocks, last, rs[0]) + (Body(rs[0].payload) + Section(blocks, Some(rs[0].block), rs[1..]))
  }

  function LastSent(last: Option<nat>, rs: seq<PageRecord>): Option<nat> {
    if rs == [] then last else Some(rs[|rs| - 1].block)
  }

  function Entry(b: RamBlock): Bytes
    requires Named(b)
  {
    Name(b.idstr) + Be64(Length(b))
  }

  function Entries(blocks: seq<RamBlock>): Bytes
    requires forall b <- blocks :: Named(b)
  {
    if blocks == [] then [] else Entry(blocks[0]) + Entries(blocks[1..])
  }

  /** What ram_save_setup writes. */
  function Setup(blocks: seq<RamBlock>): Bytes
    requires BlocksOk(blocks)
  {
    Be64(Total(blocks) + FLAG_MEM_SIZE) + (Entries(blocks) + Be64(FLAG_EOS))
  }

  // ----- what is loaded -----

  /** Receiver memory by block name and byte offset. */
  type Mem = (Bytes, nat) -> PageData

  function Store(m: Mem, id: Bytes, offset: nat, d: PageData): Mem {
    (i, o) => if i == id && o == offset then d else m(i, o)
  }

  function Fill(ch: byte): PageData { seq(PAGE_SIZE, _ => ch) }

  /** `block` is the static variable of host_from_stream_offset. */
  datatype Loader = Loader(block: Option<nat>, mem: Mem)

  /** One turn of ram_load: go on, normal exit, or failure. */
  datatype Turn = More(st: Loader, rest: Bytes) | End(rest: Bytes) | Fail

  datatype Loaded = Accepted(st: Loader, rest: Bytes) | Refused

  /** The C string in a buffer. */
  function Cut(id: Bytes): Bytes {
    if id == [] || id[0] == 0 then [] else [id[0]] + Cut(id[1..])
  }

  function Find(blocks: seq<RamBlock>, id: Bytes): (r: Option<nat>)
    ensures r.Some? ==> r.value < |blocks| && blocks[r.value].idstr == id
    ensures r.None? ==> forall b <- blocks :: b.idstr != id
  {
    if blocks == [] then None
    else if blocks[0].idstr == id then Some(0)
    else
      var r := Find(blocks[1..], id);
      if r.Some? then Some(r.value + 1) else None
  }

  /** A length byte and that many bytes. */
  function GetName(s: Bytes): (r: Option<(Bytes, Bytes)>)
    ensures r.Some? ==> |r.value.1| < |s|
  {
    if s == [] then None
    else
      var n: nat := s[0];
      if |s| < 1 + n then None else Some((Cut(s[1..1 + n]), s[1 + n..]))
  }

  /** host_from_stream_offset: the block and the bytes after its name. */
  function Host(blocks: seq<RamBlock>, block: Option<nat>, flags: nat, s: Bytes): (r: Option<(nat, Bytes)>)
    requires block.Some? ==> block.value < |blocks|
    ensures r.Some? ==> r.value.0 < |blocks| && |r.value.1| <= |s|
  {
    if Has(flags, FLAG_CONTINUE) then
      if block.Some? then Some((block.value, s)) else None
    else
      var n := GetName(s);
      if n.None? then None
      else
        var i := Find(blocks, n.value.0);
        if i.Some? then Some((i.value, n.value.1)) else None
  }

  /** The block list.  A block that is unknown or has another length ends the loop, and
      the error code set for it is overwritten after the loop. */
  function LoadList(blocks: seq<RamBlock>, total: nat, s: Bytes): (r: Option<Bytes>)
    ensures r.Some? ==> |r.value| <= |s|
    decreases |s|
  {
    if total == 0 then Some(s)
    else
      var n := GetName(s);
      if n.None? || |n.value.1| < 8 then None
      else
        var length, rest, i := GetBe(n.value.1[..8]), n.value.1[8..], Find(blocks, n.value.0);
        if i.None? || Length(blocks[i.value]) != length then Some(rest)
        else LoadList(blocks, (total - length) % TWO_64, rest)
  }

  /** load_xbzrle */
  function LoadPatch(c: Codec, old': PageData, s: Bytes): (r: Option<(PageData, Bytes)>)
    ensures r.Some? ==> |r.value.1| <= |s|
  {
    if |s| < 3 || s[0] != ENCODING_XBZRLE then None
    else
      var n := GetBe(s[1..][..2]);
      if n > PAGE_SIZE || |s| < 3 + n then None
      else
        var d := c.decode(old', s[1..][2..][..n]);
        if d.Some? then Some((d.value, s[1..][2..][n..])) else None
  }

  predicate LoaderOk(blocks: seq<RamBlock>, st: Loader) {
    st.block.Some? ==> st.block.value < |blocks|
  }

  /** The data that follows a header, for the page at `offset` of block `id`. */
  function LoadBody(c: Codec, m: Mem, flags: nat, id: Bytes, offset: nat, s: Bytes): (r: Option<(PageData, Bytes)>)
    ensures r.Some? ==> |r.value.1| <= |s|
  {
    if Has(flags, FLAG_COMPRESS) then
      if s == [] then None else Some((Fill(s[0]), s[1..]))
    else if Has(flags, FLAG_PAGE) then
      if |s| < PAGE_SIZE then None else Some((s[..PAGE_SIZE], s[PAGE_SIZE..]))
    else
      LoadPatch(c, m(id, offset), s)
  }

  /** One turn of the loop of ram_load. */
  function LoadTurn(c: Codec, blocks: seq<RamBlock>, st: Loader, s: Bytes): (t: Turn)
    requires LoaderOk(blocks, st)
    ensures t.More? ==> LoaderOk(blocks, t.st) && |t.rest| < |s|
  {
    if |s| < 8 then Fail
    else
      var word, s' := GetBe(s[..8]), s[8..];
      var flags := word % PAGE_SIZE;
      var addr := word - flags;
      if Has(flags, FLAG_MEM_SIZE) then
        var l := LoadList(blocks, addr, s');
        if l.Some? then More(st, l.value) else Fail
      else if Has(flags, FLAG_COMPRESS) || Has(flags, FLAG_PAGE) || Has(flags, FLAG_XBZRLE) then
        var h := Host(blocks, st.block, flags, s');
        if h.None? then Fail
        else
          var id := blocks[h.value.0].idstr;
          var d := LoadBody(c, st.mem, flags, id, addr, h.value.1);
          if d.None? then Fail else More(Loader(Some(h.value.0), Store(st.mem, id, addr, d.value.0)), d.value.1)
      else if Has(flags, FLAG_HOOK) then Fail
      else if Has(flags, FLAG_EOS) then End(s')
      else Fail
  }

  /** ram_load */
  function Load(c: Codec, blocks: seq<RamBlock>, st: Loader, s: Bytes): (r: Loaded)
    requires LoaderOk(blocks, st)
    ensures r.Accepted? ==> LoaderOk(blocks, r.st)
    decreases |s|
  {
    match LoadTurn(c, blocks, st, s)
    case More(st', rest) => Load(c, blocks, st', rest)
    case End(rest) => Accepted(st, rest)
    case Fail => Refused
  }

  // ----- loading undoes sending -----

  /** The receiver has a block of that name and length. */
  predicate Known(mine: seq<RamBlock>, b: RamBlock) {
    Find(mine, b.idstr).Some? && Length(mine[Find(mine, b.idstr).value]) == Length(b)
  }

  predicate Matches(mine: seq<RamBlock>, theirs: seq<RamBlock>) {
    forall b <- theirs :: Known(mine, b)
  }

  /** The receiver remembers the block that the sender sent last. */
  predicate Remembers(mine: seq<RamBlock>, theirs: seq<RamBlock>, block: Option<nat>, last: Option<nat>) {
    last.Some? ==> last.value < |theirs| && block.Some? && block == Find(mine, theirs[last.value].idstr)
  }

  /** What the page becomes. */
  function Contents(c: Codec, old': PageData, p: Payload): Option<PageData> {
    match p
    case Zero => Some(Fill(0))
    case Full(d) => Some(d)
    case Patch(bytes) => c.decode(old', bytes)
  }

  /** The memory after the pages `rs`, or none if a delta does not decode. */
  function Replay(c: Codec, blocks: seq<RamBlock>, m: Mem, rs: seq<PageRecord>): Option<Mem>
    requires forall r <- rs :: r.block < |blocks|
  {
    if rs == [] then Some(m)
    else
      var id := blocks[rs[0].block].idstr;
      var d := Contents(c, m(id, rs[0].offset), rs[0].payload);
      if d.None? then None else Replay(c, blocks, Store(m, id, rs[0].offset, d.value), rs[1..])
  }

  lemma {:induction false} CutName(id: Bytes)
    requires 0 !in id
    ensures Cut(id) == id
  {
    if id != [] { CutName(id[1..]); }
  }

  lemma NameParses(id: Bytes, rest: Bytes)
    requires |id| <= 255 && 0 !in id
    ensures GetName(Name(id) + rest) == Some((id, rest))
  {
    var s := Name(id) + rest;
    CutName(id);
    var n: nat := s[0];
    assert s[1..1 + n] == id && s[1 + n..] == rest;
  }

  lemma LengthBelowTotal(blocks: seq<RamBlock>, b: nat)
    requires b < |blocks|
    ensures Length(blocks[b]) <= Total(blocks)
  {
    if b > 0 { LengthBelowTotal(blocks[1..], b - 1); }
  }

  function Word(last: Option<nat>, r: PageRecord): nat {
    r.offset + (if last == Some(r.block) then FLAG_CONTINUE else 0) + Flag(r.payload)
  }

  /** Offset and flags separate. */
  lemma WordSplits(last: Option<nat>, r: PageRecord)
    requires r.offset % PAGE_SIZE == 0
    ensures var flags := Word(last, r) % PAGE_SIZE;
      && Word(last, r) - flags == r.offset
      && !Has(flags, FLAG_MEM_SIZE)
      && (Has(flags, FLAG_CONTINUE) <==> last == Some(r.block))
      && (Has(flags, FLAG_COMPRESS) <==> r.payload.Zero?)
      && (Has(flags, FLAG_PAGE) <==> r.payload.Full?)
      && (Has(flags, FLAG_XBZRLE) <==> r.payload.Patch?)
  {
    hide Has;
    LowBits(r.offset, (if last == Some(r.block) then FLAG_CONTINUE else 0) + Flag(r.payload));
    FlagBits(last == Some(r.block), r.payload);
  }

  lemma LowBits(offset: nat, flags: nat)
    requires offset % PAGE_SIZE == 0 && flags < PAGE_SIZE
    ensures (offset + flags) % PAGE_SIZE == flags
  {}

  lemma FlagBits(cont: bool, p: Payload)
    ensures var flags := (if cont then FLAG_CONTINUE else 0) + Flag(p);
      && !Has(flags, FLAG_MEM_SIZE)
      && (Has(flags, FLAG_CONTINUE) <==> cont)
      && (Has(flags, FLAG_COMPRESS) <==> p.Zero?)
      && (Has(flags, FLAG_PAGE) <==> p.Full?)
      && (Has(flags, FLAG_XBZRLE) <==> p.Patch?)
  {}

  lemma HeaderWord(theirs: seq<RamBlock>, last: Option<nat>, r: PageRecord, rest: Bytes)
    requires BlocksOk(theirs) && RecordOk(theirs, r)
    ensures Named(theirs[r.block])
    ensures var s, tail := Header(theirs, last, r) + rest, if last == Some(r.block) then [] else Name(theirs[r.block].idstr);
      |s| >= 8 && GetBe(s[..8]) == Word(last, r) && s[8..] == tail + rest
  {
    hide GetBe, Be64, Total, Name;
    LengthBelowTotal(theirs, r.block);
    assert Named(theirs[r.block]);
    var tail := if last == Some(r.block) then [] else Name(theirs[r.block].idstr);
    assert Header(theirs, last, r) + rest == Be64(Word(last, r)) + (tail + rest);
    assert Word(last, r) < TWO_64 by { WordFits(r.offset, theirs[r.block].pages); }
    Get64(Word(last, r), tail + rest);
  }

  lemma WordFits(offset: nat, pages: nat)
    requires offset % PAGE_SIZE == 0 && offset < pages * PAGE_SIZE
    ensures offset + PAGE_SIZE <= pages * PAGE_SIZE
  {}

  /** The header names the right block, whether or not it repeats the name. */
  lemma HeaderParses(mine: seq<RamBlock>, theirs: seq<RamBlock>, block: Option<nat>, last: Option<nat>, r: PageRecord, rest: Bytes)
    requires BlocksOk(theirs) && RecordOk(theirs, r) && Matches(mine, theirs) && Remembers(mine, theirs, block, last)
    requires block.Some? ==> block.value < |mine|
    ensures Known(mine, theirs[r.block])
    ensures var s := Header(theirs, last, r) + rest;
      && |s| >= 8 && GetBe(s[..8]) == Word(last, r)
      && Host(mine, block, Word(last, r) % PAGE_SIZE, s[8..]) == Some((Find(mine, theirs[r.block].idstr).value, rest))
  {
    hide GetBe, Be64, Total, Name, Header, GetName, Find, Has, BlocksOk, Word;
    HeaderWord(theirs, last, r, rest);
    WordSplits(last, r);
    var b := theirs[r.block];
    assert b in theirs;
    NameParses(b.idstr, rest);
    assert [] + rest == rest;
  }

  lemma BodyParses(c: Codec, m: Mem, flags: nat, id: Bytes, offset: nat, p: Payload, rest: Bytes)
    requires p.Full? ==> |p.data| == PAGE_SIZE
    requires p.Patch? ==> |p.bytes| <= PAGE_SIZE
    requires Has(flags, FLAG_COMPRESS) == p.Zero? && Has(flags, FLAG_PAGE) == p.Full?
    ensures LoadBody(c, m, flags, id, offset, Body(p) + rest) ==
            var d := Contents(c, m(id, offset), p); if d.Some? then Some((d.value, rest)) else None
  {
    hide GetBe, Be16, Has;
    var s := Body(p) + rest;
    match p
    case Zero =>
    case Full(data) => assert s[..PAGE_SIZE] == data && s[PAGE_SIZE..] == rest;
    case Patch(bytes) =>
      var n := |bytes|;
      assert s[1..] == Be16(n) + (bytes + rest);
      Get16(n, bytes + rest);
      assert (bytes + rest)[..n] == bytes && (bytes + rest)[n..] == rest;
  }

  /** One page: the loader stores what was sent, at the place it was sent from, and again
      remembers the sender's block. */
  lemma RecordLoads(c: Codec, mine: seq<RamBlock>, theirs: seq<RamBlock>, st: Loader, last: Option<nat>, r: PageRecord, rest: Bytes)
    requires BlocksOk(theirs) && RecordOk(theirs, r) && Matches(mine, theirs)
    requires LoaderOk(mine, st) && Remembers(mine, theirs, st.block, last)
    ensures var id := theirs[r.block].idstr; var d := Contents(c, st.mem(id, r.offset), r.payload);
      LoadTurn(c, mine, st, Header(theirs, last, r) + (Body(r.payload) + rest)) ==
      if d.None? then Fail else More(Loader(Find(mine, id), Store(st.mem, id, r.offset, d.value)), rest)
  {
    hide Header, Body, Host, LoadBody, Contents, Has, GetBe, BlocksOk, Store, Find, LoadList, Word;
    var id := theirs[r.block].idstr;
    assert theirs[r.block] in theirs;
    HeaderParses(mine, theirs, st.block, last, r, Body(r.payload) + rest);
    WordSplits(last, r);
    BodyParses(c, st.mem, Word(last, r) % PAGE_SIZE, id, r.offset, r.payload, rest);
  }

  lemma EosLoads(c: Codec, blocks: seq<RamBlock>, st: Loader, rest: Bytes)
    requires LoaderOk(blocks, st)
    ensures LoadTurn(c, blocks, st, Be64(FLAG_EOS) + rest) == End(rest)
  {
    Get64(FLAG_EOS, rest);
  }

  /** A whole section: ram_load consumes it exactly and replays its pages; it fails only
      if a delta does not decode. */
  lemma {:induction false} SectionLoads(c: Codec, mine: seq<RamBlock>, theirs: seq<RamBlock>, st: Loader, last: Option<nat>,
                                        rs: seq<PageRecord>, rest: Bytes)
    requires BlocksOk(theirs) && (forall r <- rs :: RecordOk(theirs, r)) && Matches(mine, theirs)
    requires LoaderOk(mine, st) && Remembers(mine, theirs, st.block, last)
    ensures var l, m := Load(c, mine, st, Section(theirs, last, rs) + rest), Replay(c, theirs, st.mem, rs);
      if m.None? then l == Refused
      else l.Accepted? && l.st.mem == m.value && l.rest == rest && Remembers(mine, theirs, l.st.block, LastSent(last, rs))
    decreases |rs|
  {
    hide LoadTurn, Header, Body, BlocksOk, Contents, Store, Matches, Find, Be64;
    var s := Section(theirs, last, rs) + rest;
    if rs == [] {
      EosLoads(c, mine, st, rest);
    } else {
      var r := rs[0];
      assert RecordOk(theirs, r);
      var rest' := Section(theirs, Some(r.block), rs[1..]) + rest;
      assert s == Header(theirs, last, r) + (Body(r.payload) + rest');
      RecordLoads(c, mine, theirs, st, last, r, rest');
      var id := theirs[r.block].idstr;
      var d := Contents(c, st.mem(id, r.offset), r.payload);
      if d.Some? {
        RemembersNow(mine, theirs, r.block);
        SectionLoads(c, mine, theirs, Loader(Find(mine, id), Store(st.mem, id, r.offset, d.value)), Some(r.block), rs[1..], rest);
      }
    }
  }

  lemma RemembersNow(mine: seq<RamBlock>, theirs: seq<RamBlock>, b: nat)
    requires Matches(mine, theirs) && b < |theirs|
    ensures Remembers(mine, theirs, Find(mine, theirs[b].idstr), Some(b))
  {
    assert theirs[b] in theirs;
  }

  // ----- the block list -----

  lemma EntryParses(b: RamBlock, rest: Bytes)
    requires Named(b) && Length(b) < TWO_64
    ensures var n := GetName(Entry(b) + rest);
      && n.Some? && n.value.0 == b.idstr && |n.value.1| >= 8
      && GetBe(n.value.1[..8]) == Length(b) && n.value.1[8..] == rest
  {
    assert Entry(b) + rest == Name(b.idstr) + (Be64(Length(b)) + rest);
    NameParses(b.idstr, Be64(Length(b)) + rest);
    Get64(Length(b), rest);
  }

  /** The list is read up to and including the first block that is not `Known`. */
  function Unread(mine: seq<RamBlock>, theirs: seq<RamBlock>): (r: seq<RamBlock>)
    ensures forall b <- r :: b in theirs
  {
    if theirs == [] then [] else if Known(mine, theirs[0]) then Unread(mine, theirs[1..]) else theirs[1..]
  }

  lemma {:induction false} ListLoads(mine: seq<RamBlock>, theirs: seq<RamBlock>, rest: Bytes)
    requires BlocksOk(theirs)
    ensures LoadList(mine, Total(theirs), Entries(theirs) + rest) == Some(Entries(Unread(mine, theirs)) + rest)
    decreases |theirs|
  {
    hide GetBe, Be64, Find, GetName, Entry, Length;
    if theirs == [] {
      assert Entries(theirs) + rest == rest;
    } else {
      var b, more := theirs[0], theirs[1..];
      assert Named(b);
      assert Entries(theirs) + rest == Entry(b) + (Entries(more) + rest);
      EntryParses(b, Entries(more) + rest);
      assert (Total(theirs) - Length(b)) % TWO_64 == Total(more);
      ListLoads(mine, more, rest);
    }
  }

  lemma {:induction false} TotalAligned(blocks: seq<RamBlock>)
    ensures Total(blocks) % PAGE_SIZE == 0
  {
    if blocks != [] { TotalAligned(blocks[1..]); }
  }

  lemma TotalWord(blocks: seq<RamBlock>)
    requires BlocksOk(blocks)
    ensures var word := Total(blocks) + FLAG_MEM_SIZE;
      word < TWO_64 && word - word % PAGE_SIZE == Total(blocks) && Has(word % PAGE_SIZE, FLAG_MEM_SIZE)
  {
    TotalAligned(blocks);
    LowBits(Total(blocks), FLAG_MEM_SIZE);
  }

  /** The setup section: the loader goes on as if the stream began after the first block
      that the receiver does not have, although an error was reported for it. */
  lemma SetupLoads(c: Codec, mine: seq<RamBlock>, theirs: seq<RamBlock>, st: Loader, rest: Bytes)
    requires BlocksOk(theirs) && LoaderOk(mine, st)
    ensures Load(c, mine, st, Setup(theirs) + rest) ==
            Load(c, mine, st, Entries(Unread(mine, theirs)) + (Be64(FLAG_EOS) + rest))
  {
    hide GetBe, Be64, Entries, Total, LoadList, Unread, Has;
    var tail := Be64(FLAG_EOS) + rest;
    TotalWord(theirs);
    assert Setup(theirs) + rest == Be64(Total(theirs) + FLAG_MEM_SIZE) + (Entries(theirs) + tail);
    Get64(Total(theirs) + FLAG_MEM_SIZE, Entries(theirs) + tail);
    ListLoads(mine, theirs, tail);
  }

  lemma {:induction false} UnreadNone(mine: seq<RamBlock>, theirs: seq<RamBlock>)
    requires forall i :: 0 <= i < |theirs| - 1 ==> Known(mine, theirs[i])
    ensures Unread(mine, theirs) == []
    decreases |theirs|
  {
    hide Known;
    if theirs != [] { UnreadNone(mine, theirs[1..]); }
  }

  /** A block list that matches is accepted and consumed exactly.  So is one whose last
      block does not match, the only one. */
  lemma SetupAccepted(c: Codec, mine: seq<RamBlock>, theirs: seq<RamBlock>, st: Loader, rest: Bytes)
    requires BlocksOk(theirs) && LoaderOk(mine, st)
    requires forall i :: 0 <= i < |theirs| - 1 ==> Known(mine, theirs[i])
    ensures Load(c, mine, st, Setup(theirs) + rest) == Accepted(st, rest)
  {
    hide LoadTurn, Be64, Setup, BlocksOk, Known;
    SetupLoads(c, mine, theirs, st, rest);
    UnreadNone(mine, theirs);
    assert Entries([]) + (Be64(FLAG_EOS) + rest) == Be64(FLAG_EOS) + rest;
    EosLoads(c, mine, st, rest);
  }

  // ----- a block list that does not match -----

  /** The byte of a list entry that ends up as the flags of a header word, if the entry is
      taken for a header: the seventh character of a name that is long enough. */
  function Eighth(b: RamBlock): byte
    requires Named(b)
  {
    Entry(b)[7]
  }

  lemma EighthIsName(b: RamBlock)
    requires Named(b) && |b.idstr| >= 7
    ensures Eighth(b) == b.idstr[6]
  {
    hide Be64;
  }

  /** Flags that end the section. */
  predicate Ends(c: nat) { Plainly(c) && Has(c, FLAG_EOS) && !Has(c, FLAG_HOOK) }

  /** Flags that are an error whatever follows. */
  predicate Fails(c: nat) { Plainly(c) && (Has(c, FLAG_HOOK) || !Has(c, FLAG_EOS)) }

  /** Flags of neither a block list nor a page. */
  predicate Plainly(c: nat) { !Has(c, FLAG_MEM_SIZE) && !Has(c, FLAG_COMPRESS) && !Has(c, FLAG_PAGE) && !Has(c, FLAG_XBZRLE) }

  /** Flags of a page of the block before. */
  predicate Continues(c: nat) {
    !Has(c, FLAG_MEM_SIZE) && (Has(c, FLAG_COMPRESS) || Has(c, FLAG_PAGE) || Has(c, FLAG_XBZRLE)) && Has(c, FLAG_CONTINUE)
  }

  lemma LowTen(word: nat)
    ensures word % PAGE_SIZE == 256 * (word / 256 % 4) + word % 256
  {
    var q := word / 256;
    assert q == 4 * (q / 4) + q % 4;
    assert word == 1024 * (q / 4) + (256 * (q % 4) + word % 256);
  }

  lemma LowByte(word: nat, flag: pos)
    requires flag in {FLAG_COMPRESS, FLAG_MEM_SIZE, FLAG_PAGE, FLAG_EOS, FLAG_CONTINUE, FLAG_XBZRLE, FLAG_HOOK}
    ensures Has(word % PAGE_SIZE, flag) == Has(word % 256, flag)
  {
    hide Has;
    LowTen(word);
    LowBit(word / 256 % 4, word % 256, flag);
  }

  lemma SameDigit(c: nat, z: nat, flag: pos)
    ensures Has(c + (2 * z) * flag, flag) == Has(c, flag)
  {
    var q := c / flag;
    assert q * flag <= c < (q + 1) * flag by { MulAdd(q, 1, flag); }
    MulAdd(q, 2 * z, flag);
    MulAdd(q + 1, 2 * z, flag);
    DivUnique(c + (2 * z) * flag, q + 2 * z, flag);
  }

  lemma LowBit(y: nat, c: nat, flag: pos)
    requires flag in {FLAG_COMPRESS, FLAG_MEM_SIZE, FLAG_PAGE, FLAG_EOS, FLAG_CONTINUE, FLAG_XBZRLE, FLAG_HOOK}
    ensures Has(256 * y + c, flag) == Has(c, flag)
  {
    hide Has;
    if flag == 2 { SameDigit(c, 64 * y, 2); }
    else if flag == 4 { SameDigit(c, 32 * y, 4); }
    else if flag == 8 { SameDigit(c, 16 * y, 8); }
    else if flag == 16 { SameDigit(c, 8 * y, 16); }
    else if flag == 32 { SameDigit(c, 4 * y, 32); }
    else if flag == 64 { SameDigit(c, 2 * y, 64); }
    else { SameDigit(c, y, 128); }
  }

  lemma EntryWord(b: RamBlock, rest: Bytes)
    requires Named(b)
    ensures var s := Entry(b) + rest; |s| >= 8 && GetBe(s[..8]) % 256 == Eighth(b) && s[8..] == Entry(b)[8..] + rest
  {
    hide Be64;
    var s := Entry(b) + rest;
    assert s[..8][..7] == s[..7] && s[..8][7] == Eighth(b);
    assert GetBe(s[..8]) == 256 * GetBe(s[..7]) + Eighth(b);
  }

  /** One turn of ram_load on a list entry: it exits normally exactly for flags that say so,
      and some flags make it fail whatever follows. */
  lemma EntryTurn(c: Codec, mine: seq<RamBlock>, st: Loader, b: RamBlock, rest: Bytes)
    requires Named(b) && LoaderOk(mine, st)
    ensures var t := LoadTurn(c, mine, st, Entry(b) + rest);
      && (t.End? <==> Ends(Eighth(b))) && (t.End? ==> t.rest == Entry(b)[8..] + rest)
      && (Plainly(Eighth(b)) ==> (t.Fail? <==> Fails(Eighth(b))))
      && (Continues(Eighth(b)) && st.block.None? ==> t.Fail?)
  {
    EntryWord(b, rest);
    hide Has, GetBe, Be64, Entry, Name, LoadList, LoadBody, GetName, Find;
    var word := GetBe((Entry(b) + rest)[..8]);
    LowByte(word, FLAG_COMPRESS);
    LowByte(word, FLAG_MEM_SIZE);
    LowByte(word, FLAG_PAGE);
    LowByte(word, FLAG_EOS);
    LowByte(word, FLAG_CONTINUE);
    LowByte(word, FLAG_XBZRLE);
    LowByte(word, FLAG_HOOK);
  }

  /** A section takes at least its end mark. */
  lemma {:induction false} LoadConsumes(c: Codec, blocks: seq<RamBlock>, st: Loader, s: Bytes)
    requires LoaderOk(blocks, st)
    ensures var l := Load(c, blocks, st, s); l.Accepted? ==> |l.rest| + 8 <= |s|
    decreases |s|
  {
    EndTakesWord(c, blocks, st, s);
    hide LoadTurn;
    var t := LoadTurn(c, blocks, st, s);
    if t.More? { LoadConsumes(c, blocks, t.st, t.rest); }
  }

  lemma EndTakesWord(c: Codec, blocks: seq<RamBlock>, st: Loader, s: Bytes)
    requires LoaderOk(blocks, st)
    ensures var t := LoadTurn(c, blocks, st, s); (t.End? ==> |t.rest| + 8 == |s|) && (t.More? ==> |t.rest| + 8 <= |s|)
  {
    hide Has, GetBe, Store, Find, GetName;
  }

  /** Loading goes on at a list entry. */
  lemma EntryLoads(c: Codec, mine: seq<RamBlock>, st: Loader, b: RamBlock, more: Bytes)
    requires Named(b) && LoaderOk(mine, st)
    ensures var l := Load(c, mine, st, Entry(b) + more);
      && (l == Accepted(st, Entry(b)[8..] + more) <==> Ends(Eighth(b)))
      && (Fails(Eighth(b)) || (Continues(Eighth(b)) && st.block.None?) ==> l == Refused)
  {
    hide LoadTurn, Entry, Has;
    var s := Entry(b) + more;
    EntryTurn(c, mine, st, b, more);
    EntryWord(b, more);
    var t := LoadTurn(c, mine, st, s);
    if t.More? {
      EndTakesWord(c, mine, st, s);
      LoadConsumes(c, mine, t.st, t.rest);
    }
  }

  /** The setup section when the receiver does not have a block of the list other than the
      last: it is accepted at once, with the rest of the list unread, if and only if the
      next entry passes for an end mark, and refused if it passes for an error or, before
      any page has been received, for a page that continues a block. */
  lemma SetupMismatch(c: Codec, mine: seq<RamBlock>, theirs: seq<RamBlock>, st: Loader, rest: Bytes)
    requires BlocksOk(theirs) && LoaderOk(mine, st) && Unread(mine, theirs) != []
    ensures var u, l := Unread(mine, theirs), Load(c, mine, st, Setup(theirs) + rest);
      && Named(u[0]) && (forall b <- u[1..] :: Named(b))
      && var left := Entry(u[0])[8..] + (Entries(u[1..]) + (Be64(FLAG_EOS) + rest));
         && (l == Accepted(st, left) <==> Ends(Eighth(u[0])))
         && (Fails(Eighth(u[0])) || (Continues(Eighth(u[0])) && st.block.None?) ==> l == Refused)
  {
    hide Be64, Total, Load, Entry, Setup, Ends, Fails, Continues, Unread, Named;
    var u, tail := Unread(mine, theirs), Be64(FLAG_EOS) + rest;
    assert u[0] in u && forall b <- u[1..] :: b in u;
    SetupLoads(c, mine, theirs, st, rest);
    assert Entries(u) + tail == Entry(u[0]) + (Entries(u[1..]) + tail);
    EntryLoads(c, mine, st, u[0], Entries(u[1..]) + tail);
  }

  /** The flags of some characters: digits 0 and 1 end a section, and a lower-case letter
      whose code has no MEM_SIZE bit continues a block. */
  lemma CharacterFlags(c: byte)
    ensures c == 48 || c == 49 ==> Ends(c)
    ensures 97 <= c <= 122 && !Has(c, FLAG_MEM_SIZE) ==> Continues(c)
  {}

  /** A list whose first unknown block is followed by one whose seventh character is such a
      letter is refused by a receiver that has not received a page yet. */
  lemma RefusedByLetter(c: Codec, mine: seq<RamBlock>, theirs: seq<RamBlock>, st: Loader, rest: Bytes)
    requires BlocksOk(theirs) && LoaderOk(mine, st) && st.block == None
    requires Unread(mine, theirs) != [] && var id := Unread(mine, theirs)[0].idstr;
      |id| >= 7 && 97 <= id[6] <= 122 && !Has(id[6], FLAG_MEM_SIZE)
    ensures Load(c, mine, st, Setup(theirs) + rest) == Refused
  {
    hide Setup, Load, Has;
    var b := Unread(mine, theirs)[0];
    assert b in Unread(mine, theirs);
    SetupMismatch(c, mine, theirs, st, rest);
    EighthIsName(b);
    CharacterFlags(b.idstr[6]);
  }

  /** A receiver without blocks is sent the list "a", "vga.ra0": it takes the second name
      for an end mark and accepts the section with 16 of its bytes unread. */
  lemma UnknownBlocksAccepted(c: Codec, st: Loader, rest: Bytes)
    requires LoaderOk([], st)
    ensures var theirs := [RamBlock([97], 0, 1), RamBlock([118, 103, 97, 46, 114, 97, 48], 1, 1)];
      && BlocksOk(theirs)
      && Load(c, [], st, Setup(theirs) + rest) == Accepted(st, Be64(1024) + (Be64(FLAG_EOS) + rest))
  {
    var b := RamBlock([118, 103, 97, 46, 114, 97, 48], 1, 1);
    var theirs := [RamBlock([97], 0, 1), b];
    assert theirs[1..] == [b] && [b][1..] == [];
    assert Total([b]) == Length(b) + Total([]);
    assert Total(theirs) == 2048;
    assert forall x <- theirs :: Named(x);
    assert Unread([], theirs) == [b];
    SetupMismatch(c, [], theirs, st, rest);
    EighthIsName(b);
    CharacterFlags(48);
    hide Be64, Load, Setup, Has;
    assert Entry(b)[8..] == Be64(1024);
    assert Entries([]) + (Be64(FLAG_EOS) + rest) == Be64(FLAG_EOS) + rest;
  }

  // ----- whole streams -----

  /** The stream of a migration after setup: one section per call of ram_save_iterate and
      ram_save_complete. */
  function Sections(blocks: seq<RamBlock>, last: Option<nat>, ss: seq<seq<PageRecord>>): Bytes
    requires BlocksOk(blocks) && forall rs <- ss, r <- rs :: RecordOk(blocks, r)
    decreases |ss|
  {
    if ss == [] then [] else Section(blocks, last, ss[0]) + Sections(blocks, LastSent(last, ss[0]), ss[1..])
  }

  /** ram_load called for `n` sections in turn. */
  function LoadSections(c: Codec, blocks: seq<RamBlock>, st: Loader, n: nat, s: Bytes): Loaded
    requires LoaderOk(blocks, st)
    decreases n
  {
    if n == 0 then Accepted(st, s)
    else
      var l := Load(c, blocks, st, s);
      if l.Refused? then Refused else LoadSections(c, blocks, l.st, n - 1, l.rest)
  }

  function ReplaySections(c: Codec, blocks: seq<RamBlock>, m: Mem, ss: seq<seq<PageRecord>>): Option<Mem>
    requires forall rs <- ss, r <- rs :: r.block < |blocks|
    decreases |ss|
  {
    if ss == [] then Some(m)
    else
      var m' := Replay(c, blocks, m, ss[0]);
      if m'.None? then None else ReplaySections(c, blocks, m'.value, ss[1..])
  }

  lemma {:induction false} SectionsLoad(c: Codec, mine: seq<RamBlock>, theirs: seq<RamBlock>, st: Loader, last: Option<nat>,
                                        ss: seq<seq<PageRecord>>, rest: Bytes)
    requires BlocksOk(theirs) && (forall rs <- ss, r <- rs :: RecordOk(theirs, r)) && Matches(mine, theirs)
    requires LoaderOk(mine, st) && Remembers(mine, theirs, st.block, last)
    ensures var l := LoadSections(c, mine, st, |ss|, Sections(theirs, last, ss) + rest);
      var m := ReplaySections(c, theirs, st.mem, ss);
      if m.None? then l == Refused else l.Accepted? && l.st.mem == m.value && l.rest == rest
    decreases |ss|
  {
    hide BlocksOk, RecordOk, Section, Load, Replay, Matches, Remembers, LastSent;
    if ss == [] {
      assert Sections(theirs, last, ss) + rest == rest;
    } else {
      var last', rest' := LastSent(last, ss[0]), Sections(theirs, LastSent(last, ss[0]), ss[1..]) + rest;
      assert Sections(theirs, last, ss) + rest == Section(theirs, last, ss[0]) + rest';
      SectionLoads(c, mine, theirs, st, last, ss[0], rest');
      var l := Load(c, mine, st, Section(theirs, last, ss[0]) + rest');
      if l.Accepted? {
        SectionsLoad(c, mine, theirs, l.st, last', ss[1..], rest);
      }
    }
  }

  /** From setup to completion, whatever the receiver's loader remembered before: ram_load
      accepts the stream, consumes it exactly and replays every page, unless a delta does
      not decode. */
  lemma StreamLoads(c: Codec, mine: seq<RamBlock>, theirs: seq<RamBlock>, st: Loader, ss: seq<seq<PageRecord>>, rest: Bytes)
    requires BlocksOk(theirs) && (forall rs <- ss, r <- rs :: RecordOk(theirs, r)) && Matches(mine, theirs) && LoaderOk(mine, st)
    ensures var l := LoadSections(c, mine, st, |ss| + 1, Setup(theirs) + (Sections(theirs, None, ss) + rest));
      var m := ReplaySections(c, theirs, st.mem, ss);
      if m.None? then l == Refused else l.Accepted? && l.st.mem == m.value && l.rest == rest
  {
    hide BlocksOk, RecordOk, Setup, Sections, Load, ReplaySections;
    SetupAccepted(c, mine, theirs, st, Sections(theirs, None, ss) + rest);
    SectionsLoad(c, mine, theirs, st, None, ss, rest);
  }

  // ----- pages by number -----

  /** The receiver's memory, by block and offset, is `ram` by page number. */
  ghost predicate Agrees(blocks: seq<RamBlock>, m: Mem, ram: Ram) {
    forall b: nat, o: nat :: b < |blocks| && o < blocks[b].pages ==> ram(Page(blocks, b, o)) == m(blocks[b].idstr, o * PAGE_SIZE)
  }

  predicate DistinctNames(blocks: seq<RamBlock>) {
    forall i, j :: 0 <= i < j < |blocks| ==> blocks[i].idstr != blocks[j].idstr
  }

  function ToRecord(p: nat, payload: Payload): Record {
    match payload
    case Zero => Compress(p)
    case Full(d) => Plain(p, d)
    case Patch(bytes) => Xbzrle(p, bytes)
  }

  /** Storing a page that the stream carries is what `Receive` does with its record. */
  lemma StoreIsReceive(c: Codec, blocks: seq<RamBlock>, m: Mem, ram: Ram, b: nat, o: nat, p: Payload)
    requires Layout(blocks) && DistinctNames(blocks) && c.zero == Fill(0) && Agrees(blocks, m, ram)
    requires b < |blocks| && o < blocks[b].pages
    ensures var id, off := blocks[b].idstr, o * PAGE_SIZE;
      var d := Contents(c, m(id, off), p);
      d.Some? ==> Agrees(blocks, Store(m, id, off, d.value), Receive(c, ram, ToRecord(Page(blocks, b, o), p)))
  {
    hide Layout;
    var id, off := blocks[b].idstr, o * PAGE_SIZE;
    var d := Contents(c, m(id, off), p);
    if d.Some? {
      var m', ram' := Store(m, id, off, d.value), Receive(c, ram, ToRecord(Page(blocks, b, o), p));
      forall b': nat, o': nat | b' < |blocks| && o' < blocks[b'].pages
        ensures ram'(Page(blocks, b', o')) == m'(blocks[b'].idstr, o' * PAGE_SIZE)
      {
        if Page(blocks, b', o') == Page(blocks, b, o) { PageInjective(blocks, b', o', b, o); }
      }
    }
  }

  // ----- the code that writes and reads -----

  class RamSaver {
    const blocks: seq<RamBlock>
    var lastSent: Option<nat>
    var out: Bytes

    constructor (blocks: seq<RamBlock>)
      ensures this.blocks == blocks && lastSent == None && out == []
    {
      this.blocks, lastSent, out := blocks, None, [];
    }

    /** ram_bytes_total */
    method BytesTotal() returns (total: nat)
      ensures total == Total(blocks)
    {
      hide Length;
      total := 0;
      var i := 0;
      while i < |blocks|
        invariant 0 <= i <= |blocks| && total + Total(blocks[i..]) == Total(blocks)
      {
        assert blocks[i..][1..] == blocks[i + 1..];
        total, i := total + Length(blocks[i]), i + 1;
      }
    }

    /** The stream that ram_save_setup writes. */
    method SaveSetup()
      requires BlocksOk(blocks)
      modifies this
      ensures lastSent == None && out == old(out) + Setup(blocks)
    {
      hide Be64, Total, Entry;
      lastSent := None;
      var total := BytesTotal();
      out := out + Be64(total + FLAG_MEM_SIZE);
      var i := 0;
      while i < |blocks|
        invariant 0 <= i <= |blocks| && lastSent == None
        invariant out + Entries(blocks[i..]) == old(out) + Be64(Total(blocks) + FLAG_MEM_SIZE) + Entries(blocks)
      {
        assert Named(blocks[i]);
        assert out + Entries(blocks[i..]) == out + Entry(blocks[i]) + Entries(blocks[i + 1..]);
        out := out + Entry(blocks[i]);
        i := i + 1;
      }
      assert out == out + Entries(blocks[i..]);
      out := out + Be64(FLAG_EOS);
    }

    method SaveBlockHdr(r: PageRecord)
      requires BlocksOk(blocks) && RecordOk(blocks, r)
      modifies `out
      ensures out == old(out) + Header(blocks, lastSent, r)
    {
      hide Be64, Total, Flag;
      assert Named(blocks[r.block]);
      ghost var was := out;
      var cont := if lastSent == Some(r.block) then FLAG_CONTINUE else 0;
      out := out + Be64(r.offset + cont + Flag(r.payload));
      if cont == 0 {
        ghost var word := Be64(r.offset + cont + Flag(r.payload));
        out := out + [|blocks[r.block].idstr|];
        out := out + blocks[r.block].idstr;
        assert out == was + (word + Name(blocks[r.block].idstr));
      } else {
        assert Header(blocks, lastSent, r) == Be64(r.offset + cont + Flag(r.payload));
      }
    }

    method SaveBody(p: Payload)
      requires p.Patch? ==> |p.bytes| <= PAGE_SIZE
      modifies `out
      ensures out == old(out) + Body(p)
    {
      hide Be16;
      match p {
        case Zero => out := out + [0];
        case Full(data) => out := out + data;
        case Patch(bytes) =>
          out := out + [ENCODING_XBZRLE];
          out := out + Be16(|bytes|);
          out := out + bytes;
      }
    }

    /** One page, after which last_sent_block is its block. */
    method SaveRecord(r: PageRecord)
      requires BlocksOk(blocks) && RecordOk(blocks, r)
      modifies this
      ensures lastSent == Some(r.block)
      ensures out == old(out) + (Header(blocks, old(lastSent), r) + Body(r.payload))
    {
      hide Header, Body, BlocksOk;
      SaveBlockHdr(r);
      SaveBody(r.payload);
      lastSent := Some(r.block);
    }

    /** The pages of one call of ram_save_iterate or ram_save_complete. */
    method SaveSection(rs: seq<PageRecord>)
      requires BlocksOk(blocks) && forall r <- rs :: RecordOk(blocks, r)
      modifies this
      ensures lastSent == LastSent(old(lastSent), rs)
      ensures out == old(out) + Section(blocks, old(lastSent), rs)
    {
      hide Header, Body, BlocksOk, Be64;
      var i := 0;
      while i < |rs|
        invariant 0 <= i <= |rs| && lastSent == LastSent(old(lastSent), rs[..i])
        invariant out + Section(blocks, lastSent, rs[i..]) == old(out) + Section(blocks, old(lastSent), rs)
      {
        assert RecordOk(blocks, rs[i]) && rs[..i + 1] == rs[..i] + [rs[i]];
        ghost var h, t := Header(blocks, lastSent, rs[i]) + Body(rs[i].payload), Section(blocks, Some(rs[i].block), rs[i + 1..]);
        assert out + Section(blocks, lastSent, rs[i..]) == out + h + t;
        SaveRecord(rs[i]);
        i := i + 1;
      }
      assert rs[..i] == rs;
      out := out + Be64(FLAG_EOS);
    }
  }

  class RamLoader {
    const blocks: seq<RamBlock>
    const codec: Codec
    var block: Option<nat>
    var mem: Mem

    constructor (blocks: seq<RamBlock>, codec: Codec, mem: Mem)
      ensures this.blocks == blocks && this.codec == codec && block == None && this.mem == mem
    {
      this.blocks, this.codec, block, this.mem := blocks, codec, None, mem;
    }

    ghost function State(): Loader
      reads this
    {
      Loader(block, mem)
    }

    method FindBlock(id: Bytes) returns (r: Option<nat>)
      ensures r == Find(blocks, id)
    {
      var i := 0;
      while i < |blocks| && blocks[i].idstr != id
        invariant 0 <= i <= |blocks|
        invariant Find(blocks, id) == var t := Find(blocks[i..], id); if t.Some? then Some(t.value + i) else None
      {
        i := i + 1;
      }
      r := if i < |blocks| then Some(i) else None;
    }

    method LoadBlockList(total: nat, s: Bytes) returns (r: Option<Bytes>)
      ensures r == LoadList(blocks, total, s)
    {
      hide GetBe, GetName, Find, Length;
      var left: nat, rest := total, s;
      while left != 0
        invariant LoadList(blocks, left, rest) == LoadList(blocks, total, s)
        decreases |rest|
      {
        var n := GetName(rest);
        if n.None? || |n.value.1| < 8 { return None; }
        var length := GetBe(n.value.1[..8]);
        var i := FindBlock(n.value.0);
        if i.None? || Length(blocks[i.value]) != length { return Some(n.value.1[8..]); }
        left, rest := (left - length) % TWO_64, n.value.1[8..];
      }
      r := Some(rest);
    }

    /** ram_load; a stream that is cut short or malformed is refused. */
    method RamLoad(s: Bytes) returns (ok: bool, rest: Bytes)
      requires LoaderOk(blocks, State())
      modifies this
      ensures ok ==> LoaderOk(blocks, State())
      ensures var l := Load(codec, blocks, old(State()), s);
        if ok then l == Accepted(State(), rest) else l.Refused?
    {
      hide GetBe, LoadBody, Host, Has, LoadList, Store;
      rest := s;
      while |rest| >= 8
        invariant LoaderOk(blocks, State())
        invariant Load(codec, blocks, State(), rest) == Load(codec, blocks, old(State()), s)
        decreases |rest|
      {
        var word := GetBe(rest[..8]);
        var flags := word % PAGE_SIZE;
        var addr := word - flags;
        var at := rest[8..];
        if Has(flags, FLAG_MEM_SIZE) {
          var l := LoadBlockList(addr, at);
          if l.None? { return false, rest; }
          rest := l.value;
        } else if Has(flags, FLAG_COMPRESS) || Has(flags, FLAG_PAGE) || Has(flags, FLAG_XBZRLE) {
          var h := Host(blocks, block, flags, at);
          if h.None? { return false, rest; }
          var id := blocks[h.value.0].idstr;
          var d := LoadBody(codec, mem, flags, id, addr, h.value.1);
          if d.None? { return false, rest; }
          block, mem, rest := Some(h.value.0), Store(mem, id, addr, d.value.0), d.value.1;
        } else if !Has(flags, FLAG_HOOK) && Has(flags, FLAG_EOS) {
          return true, at;
        } else {
          return false, rest;
        }
      }
      ok := false;
    }
  }
}
