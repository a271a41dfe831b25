/** Page descriptors of a kdump-compressed vmcore (dump.c) as bytes in the dump's byte order. */
module KdumpDescriptor {
  import opened Basics
  import opened KdumpBitmap

  const DESC_SIZE: nat := 24           // sizeof(PageDescriptor)

  datatype Desc = Desc(offset: nat, size: nat, flags: nat)

  /** The values that the fields of a descriptor hold. */
  predicate DescOk(d: Desc) {
    d.offset < Power(8) && d.size < Power(4) && d.flags < Power(4)
  }

  function Power(k: nat): pos { if k == 0 then 1 else 256 * Power(k - 1) }

  lemma Powers()
    ensures Power(4) == 0x1_0000_0000 && Power(8) == 0x1_0000_0000_0000_0000
  {
    assert Power(4) == 256 * (256 * (256 * (256 * Power(0))));
    assert Power(8) == 256 * (256 * (256 * (256 * Power(4))));
  }

  // ----- a byte and its value -----

  function Two(k: nat): pos { if k == 0 then 1 else 2 * Two(k - 1) }

  /** The byte whose low `k` bits are those of `n`. */
  function Low(n: nat, k: nat): Byte
    requires k <= 8
  {
    if k == 0 then 0
    else if n >= Two(k - 1) then Updated(Low(n - Two(k - 1), k - 1), k - 1, true)
    else Low(n, k - 1)
  }

  /** The value of the low `k` bits. */
  function Value(b: Byte, k: nat): nat {
    if k == 0 then 0 else Value(b, k - 1) + if Test(b, k - 1) then Two(k - 1) else 0
  }

  lemma {:induction false} SameValue(b: Byte, b': Byte, k: nat)
    requires forall j: nat :: j < k ==> Test(b, j) == Test(b', j)
    ensures Value(b, k) == Value(b', k)
  {
    if k > 0 { SameValue(b, b', k - 1); }
  }

  lemma {:induction false} LowValue(n: nat, k: nat)
    requires k <= 8 && n < Two(k)
    ensures Value(Low(n, k), k) == n && forall j: nat :: k <= j < 8 ==> !Test(Low(n, k), j)
  {
    hide Test, Updated;
    if k == 0 {
      forall j: nat ensures !Test(0, j) { ZeroTest(j); }
    } else {
      var m := if n >= Two(k - 1) then n - Two(k - 1) else n;
      var low := Low(m, k - 1);
      LowValue(m, k - 1);
      forall j: nat | j < 8 ensures Test(Updated(low, k - 1, true), j) == if j == k - 1 then true else Test(low, j) {
        UpdatedTest(low, k - 1, true, j);
      }
      var b := Low(n, k);
      assert b == if n >= Two(k - 1) then Updated(low, k - 1, true) else low;
      assert Two(k) == 2 * Two(k - 1);
      SameValue(b, low, k - 1);
      assert Test(b, k - 1) == (n >= Two(k - 1));
      forall j: nat | k <= j < 8 ensures !Test(b, j) { assert !Test(low, j); }
      assert Value(b, k) == Value(b, k - 1) + if Test(b, k - 1) then Two(k - 1) else 0;
    }
  }

  function ToByte(n: nat): Byte { Low(n, 8) }
  function FromByte(b: Byte): nat { Value(b, 8) }

  lemma ByteRoundTrip(n: nat)
    requires n < 256
    ensures FromByte(ToByte(n)) == n
  {
    assert Two(4) == 16 && Two(8) == 256;
    LowValue(n, 8);
  }

  // ----- words -----

  /** A word of `k` bytes, most significant first if `big`. */
  function PutWord(big: bool, n: nat, k: nat): (s: seq<Byte>)
    ensures |s| == k
  {
    if k == 0 then []
    else if big then PutWord(big, n / 256, k - 1) + [ToByte(n % 256)]
    else [ToByte(n % 256)] + PutWord(big, n / 256, k - 1)
  }

  function GetWord(big: bool, s: seq<Byte>): nat {
    if s == [] then 0
    else if big then 256 * GetWord(big, s[..|s| - 1]) + FromByte(s[|s| - 1])
    else FromByte(s[0]) + 256 * GetWord(big, s[1..])
  }

  lemma {:induction false} WordRoundTrip(big: bool, n: nat, k: nat)
    requires n < Power(k)
    ensures GetWord(big, PutWord(big, n, k)) == n
  {
    hide ToByte, FromByte;
    if k > 0 {
      WordRoundTrip(big, n / 256, k - 1);
      ByteRoundTrip(n % 256);
      var s := PutWord(big, n, k);
      if big {
        assert s[..k - 1] == PutWord(big, n / 256, k - 1);
      } else {
        assert s[1..] == PutWord(big, n / 256, k - 1);
      }
    }
  }

  // ----- descriptors -----

  function PutDesc(big: bool, d: Desc): (s: seq<Byte>)
    ensures |s| == DESC_SIZE
  {
    PutWord(big, d.offset, 8) + (PutWord(big, d.size, 4) + (PutWord(big, d.flags, 4) + PutWord(big, 0, 8)))
  }

  function GetDesc(big: bool, s: seq<Byte>): Desc
    requires |s| == DESC_SIZE
  {
    Desc(GetWord(big, s[..8]), GetWord(big, s[8..12]), GetWord(big, s[12..16]))
  }

  /** A descriptor reads back as written, in either byte order. */
  lemma DescRoundTrip(big: bool, d: Desc)
    requires DescOk(d)
    ensures GetDesc(big, PutDesc(big, d)) == d
  {
    hide PutWord, GetWord;
    var s := PutDesc(big, d);
    assert s[..8] == PutWord(big, d.offset, 8);
    assert s[8..12] == PutWord(big, d.size, 4);
    assert s[12..16] == PutWord(big, d.flags, 4);
    WordRoundTrip(big, d.offset, 8);
    WordRoundTrip(big, d.size, 4);
    WordRoundTrip(big, d.flags, 4);
  }
}
