/**
 Bitmaps of pages as arrays of machine words.  A word is the set of the positions
 of its one bits, so or, and-not and population count are union, difference and
 cardinality.
 */
module DirtyBitmap {
  const BITS_PER_LONG: nat := 64

  type Word = w: set<nat> | forall b <- w :: b < BITS_PER_LONG

  type Bitmap = seq<Word>

  predicate Bit(m: Bitmap, nr: nat) {
    nr / BITS_PER_LONG < |m| && nr % BITS_PER_LONG in m[nr / BITS_PER_LONG]
  }

  /** The pages whose bit is set. */
  function Bits(m: Bitmap): set<nat> {
    set nr: nat | nr < BITS_PER_LONG * |m| && Bit(m, nr)
  }

  lemma BitsAre(m: Bitmap, nr: nat)
    ensures nr in Bits(m) <==> Bit(m, nr)
  {}

  function SetBit(m: Bitmap, nr: nat): (r: Bitmap)
    requires nr / BITS_PER_LONG < |m|
    ensures |r| == |m| && Bits(r) == Bits(m) + {nr}
  {
    var k := nr / BITS_PER_LONG;
    var r := m[k := m[k] + {nr % BITS_PER_LONG}];
    assert forall x: nat :: Bit(r, x) <==> Bit(m, x) || x == nr;
    r
  }

  function ClearBit(m: Bitmap, nr: nat): (r: Bitmap)
    requires nr / BITS_PER_LONG < |m|
    ensures |r| == |m| && Bits(r) == Bits(m) - {nr}
  {
    var k := nr / BITS_PER_LONG;
    var r := m[k := m[k] - {nr % BITS_PER_LONG}];
    assert forall x: nat :: Bit(r, x) <==> Bit(m, x) && x != nr;
    r
  }

  /** The pages of word `k` that are set in `w`. */
  function WordPages(w: Word, k: nat): set<nat> {
    set nr: nat | BITS_PER_LONG * k <= nr < BITS_PER_LONG * (k + 1) && nr % BITS_PER_LONG in w
  }

  /** The population count of a word is the number of its pages. */
  lemma {:induction false} PopulationCount(w: Word, k: nat)
    ensures |WordPages(w, k)| == |w|
    decreases |w|
  {
    if w == {} {
      assert WordPages(w, k) == {};
    } else {
      var b :| b in w;
      var rest: Word := w - {b};
      PopulationCount(rest, k);
      OnePage(w, b, k);
    }
  }

  lemma OnePage(w: Word, b: nat, k: nat)
    requires b in w
    ensures |WordPages(w, k)| == |WordPages(w - {b}, k)| + 1
  {
    var rest: Word := w - {b};
    var nr := BITS_PER_LONG * k + b;
    assert nr / BITS_PER_LONG == k && nr % BITS_PER_LONG == b;
    assert nr !in WordPages(rest, k);
    assert WordPages(w, k) == WordPages(rest, k) + {nr};
  }

  lemma WordSplit(a: Word, b: Word, k: nat)
    ensures WordPages(a - b, k) == WordPages(a, k) - WordPages(b, k)
    ensures WordPages(a + b, k) == WordPages(a, k) + WordPages(b, k)
  {}

  lemma BitsOfUpdate(m: Bitmap, k: nat, w: Word)
    requires k < |m|
    ensures Bits(m[k := w]) == Bits(m) - WordPages(m[k], k) + WordPages(w, k)
  {
    assert forall nr: nat :: Bit(m[k := w], nr) <==>
      (if nr / BITS_PER_LONG == k then nr % BITS_PER_LONG in w else Bit(m, nr));
  }

  function Range(lo: nat, hi: nat): (s: set<nat>)
    ensures forall x: nat :: x in s <==> lo <= x < hi
    decreases hi - lo
  {
    if hi <= lo then {} else {lo} + Range(lo + 1, hi)
  }
}
