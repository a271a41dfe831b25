/**
 Merging of write requests before they are submitted (block.c): what the merged
 list does to the disk compared with the sorted one, the bound on the number of
 I/O vector elements, and the completion callbacks.
 */
module Multiwrite {
  import opened Basics

  const IOV_MAX: nat := 1024
  const SECTOR_SIZE: nat := 512

  type Sector = seq<byte>
  type Disk = nat -> Sector

  /** A write of whole sectors; `iov` are the lengths of its vector elements in bytes. */
  datatype Request = Request(sector: nat, data: seq<Sector>, iov: seq<nat>)

  function End(r: Request): nat { r.sector + |r.data| }

  predicate Covers(r: Request, s: nat) { r.sector <= s < End(r) }

  predicate CoveredBy(rs: seq<Request>, s: nat) { exists r <- rs :: Covers(r, s) }

  function Sum(iov: seq<nat>): nat { if iov == [] then 0 else iov[0] + Sum(iov[1..]) }

  predicate RequestOk(r: Request) { Sum(r.iov) == SECTOR_SIZE * |r.data| }

  predicate Sorted(rs: seq<Request>) { forall i, j :: 0 <= i < j < |rs| ==> rs[i].sector <= rs[j].sector }

  // ----- writing -----

  function Apply(d: Disk, r: Request): Disk {
    (s: nat) => if Covers(r, s) then r.data[s - r.sector] else d(s)
  }

  function ApplyAll(d: Disk, rs: seq<Request>): Disk
    decreases |rs|
  {
    if rs == [] then d else ApplyAll(Apply(d, rs[0]), rs[1..])
  }

  /** A sector ends up the same if it was the same before or is written. */
  lemma {:induction false} ApplySame(d: Disk, d': Disk, rs: seq<Request>, s: nat)
    requires d(s) == d'(s) || CoveredBy(rs, s)
    ensures ApplyAll(d, rs)(s) == ApplyAll(d', rs)(s)
    decreases |rs|
  {
    if rs != [] {
      if !Covers(rs[0], s) && CoveredBy(rs, s) {
        var r :| r in rs && Covers(r, s);
        assert r in rs[1..];
      }
      ApplySame(Apply(d, rs[0]), Apply(d', rs[0]), rs[1..], s);
    }
  }

  lemma {:induction false} ApplyNone(d: Disk, rs: seq<Request>, s: nat)
    requires !CoveredBy(rs, s)
    ensures ApplyAll(d, rs)(s) == d(s)
    decreases |rs|
  {
    if rs != [] {
      assert rs[0] in rs;
      assert !CoveredBy(rs[1..], s) by { forall r <- rs[1..] ensures !Covers(r, s) { assert r in rs; } }
      ApplyNone(Apply(d, rs[0]), rs[1..], s);
    }
  }

  // ----- merging -----

  /** qemu_iovec_concat of the first `n` bytes: the elements that are added. */
  function Take(iov: seq<nat>, n: nat): (r: seq<nat>)
    ensures |r| <= |iov|
  {
    if n == 0 || iov == [] then []
    else if iov[0] == 0 then Take(iov[1..], n)
    else if iov[0] >= n then [n]
    else [iov[0]] + Take(iov[1..], n - iov[0])
  }

  lemma {:induction false} TakeSum(iov: seq<nat>, n: nat)
    requires n <= Sum(iov)
    ensures Sum(Take(iov, n)) == n
  {
    if n > 0 && iov != [] {
      if iov[0] == 0 { TakeSum(iov[1..], n); }
      else if iov[0] < n { TakeSum(iov[1..], n - iov[0]); }
    }
  }

  lemma {:induction false} SumAppend(a: seq<nat>, b: seq<nat>)
    ensures Sum(a + b) == Sum(a) + Sum(b)
  {
    if a == [] { assert a + b == b; } else { assert (a + b)[1..] == a[1..] + b; SumAppend(a[1..], b); }
  }

  predicate CanMerge(o: Request, r: Request) { r.sector <= End(o) && |o.iov| + |r.iov| + 1 <= IOV_MAX }

  /** The first request up to the start of the second, then the second. */
  function MergeInto(o: Request, r: Request): Request
    requires o.sector <= r.sector <= End(o)
  {
    var k := r.sector - o.sector;
    Request(o.sector, o.data[..k] + r.data, Take(o.iov, SECTOR_SIZE * k) + Take(r.iov, Sum(r.iov)))
  }

  lemma MergeKeepsOk(o: Request, r: Request)
    requires RequestOk(o) && RequestOk(r) && o.sector <= r.sector <= End(o)
    ensures RequestOk(MergeInto(o, r)) && |MergeInto(o, r).iov| <= |o.iov| + |r.iov|
    ensures End(MergeInto(o, r)) == End(r) && MergeInto(o, r).sector == o.sector
  {
    var k := r.sector - o.sector;
    hide Sum, Take;
    TakeSum(o.iov, SECTOR_SIZE * k);
    TakeSum(r.iov, Sum(r.iov));
    SumAppend(Take(o.iov, SECTOR_SIZE * k), Take(r.iov, Sum(r.iov)));
  }

  /** Merging changes only what the first request writes behind the end of the second. */
  lemma ApplyMerged(d: Disk, o: Request, r: Request, s: nat)
    requires o.sector <= r.sector <= End(o)
    ensures var a, b := Apply(Apply(d, o), r)(s), Apply(d, MergeInto(o, r))(s);
      if End(r) <= s < End(o) then a == o.data[s - o.sector] && b == d(s) else a == b
  {
    hide Take, Sum;
    var k, m := r.sector - o.sector, MergeInto(o, r);
    assert End(m) == End(r) && m.sector == o.sector;
    assert Apply(d, o)(s) == if Covers(o, s) then o.data[s - o.sector] else d(s);
    assert Apply(Apply(d, o), r)(s) == if Covers(r, s) then r.data[s - r.sector] else Apply(d, o)(s);
    assert Apply(d, m)(s) == if Covers(m, s) then m.data[s - m.sector] else d(s);
    if Covers(m, s) {
      assert m.data[s - o.sector] == if s < r.sector then o.data[s - o.sector] else r.data[s - r.sector];
    }
  }

  /** `o` comes before the sorted requests `rest`. */
  predicate Before(o: Request, rest: seq<Request>) { Sorted(rest) && forall r <- rest :: o.sector <= r.sector }

  lemma BeforeTail(o: Request, rest: seq<Request>)
    requires Before(o, rest) && rest != []
    ensures o.sector <= rest[0].sector && Before(o, rest[1..]) && Before(rest[0], rest[1..])
  {
    assert rest[0] in rest;
    forall r <- rest[1..] ensures o.sector <= r.sector && rest[0].sector <= r.sector {
      assert r in rest;
      var i :| 0 <= i < |rest[1..]| && rest[1..][i] == r;
      assert rest[i + 1] == r;
    }
  }

  /** The output requests, with `o` the one that is being built. */
  function Merge(o: Request, rest: seq<Request>): seq<Request>
    requires Before(o, rest)
    decreases |rest|
  {
    if rest == [] then [o]
    else
      BeforeTail(o, rest);
      if CanMerge(o, rest[0]) then Merge(MergeInto(o, rest[0]), rest[1..])
      else [o] + Merge(rest[0], rest[1..])
  }

  lemma {:induction false} OutputsWithinLimit(o: Request, rest: seq<Request>)
    requires Before(o, rest) && |o.iov| <= IOV_MAX && forall r <- rest :: |r.iov| <= IOV_MAX
    ensures forall m <- Merge(o, rest) :: |m.iov| <= IOV_MAX
    decreases |rest|
  {
    if rest != [] {
      BeforeTail(o, rest);
      if CanMerge(o, rest[0]) { OutputsWithinLimit(MergeInto(o, rest[0]), rest[1..]); }
      else { OutputsWithinLimit(rest[0], rest[1..]); }
    }
  }

  /** Whenever a request ends before the one it is merged into, later requests write
      what is dropped. */
  predicate Keeps(o: Request, rest: seq<Request>)
    requires Before(o, rest)
    decreases |rest|
  {
    rest == [] ||
    (BeforeTail(o, rest);
     if CanMerge(o, rest[0])
     then Recovered(o, rest) && Keeps(MergeInto(o, rest[0]), rest[1..])
     else Keeps(rest[0], rest[1..]))
  }

  predicate Recovered(o: Request, rest: seq<Request>)
    requires rest != []
  {
    forall s :: End(rest[0]) <= s < End(o) ==> CoveredBy(rest[1..], s)
  }

  /** Under that condition the outputs write what the requests write, sector by sector. */
  lemma {:induction false} MergePreserves(d: Disk, o: Request, rest: seq<Request>, s: nat)
    requires Before(o, rest) && Keeps(o, rest)
    ensures ApplyAll(Apply(d, o), rest)(s) == ApplyAll(d, Merge(o, rest))(s)
    decreases |rest|
  {
    if rest == [] {
      assert Merge(o, rest)[1..] == [];
    } else {
      BeforeTail(o, rest);
      var r, rest' := rest[0], rest[1..];
      if CanMerge(o, r) {
        var m := MergeInto(o, r);
        MergePreserves(d, m, rest', s);
        ApplyMerged(d, o, r, s);
        ApplySame(Apply(Apply(d, o), r), Apply(d, m), rest', s);
      } else {
        MergePreserves(Apply(d, o), r, rest', s);
        assert ([o] + Merge(r, rest'))[1..] == Merge(r, rest');
      }
    }
  }

  /** A request that reaches at least as far as the one it is merged into drops nothing. */
  predicate NoneContained(o: Request, rest: seq<Request>)
    requires Before(o, rest)
    decreases |rest|
  {
    rest == [] ||
    (BeforeTail(o, rest);
     if CanMerge(o, rest[0])
     then End(o) <= End(rest[0]) && NoneContained(MergeInto(o, rest[0]), rest[1..])
     else NoneContained(rest[0], rest[1..]))
  }

  lemma {:induction false} NoneContainedKeeps(o: Request, rest: seq<Request>)
    requires Before(o, rest) && NoneContained(o, rest)
    ensures Keeps(o, rest)
    decreases |rest|
  {
    if rest != [] {
      BeforeTail(o, rest);
      if CanMerge(o, rest[0]) { NoneContainedKeeps(MergeInto(o, rest[0]), rest[1..]); }
      else { NoneContainedKeeps(rest[0], rest[1..]); }
    }
  }

  // ----- the condition is exact -----

  predicate SameShape(r: Request, r': Request) { r'.sector == r.sector && |r'.data| == |r.data| && r'.iov == r.iov }

  predicate SameShapes(rs: seq<Request>, rs': seq<Request>) {
    |rs'| == |rs| && forall i :: 0 <= i < |rs| ==> SameShape(rs[i], rs'[i])
  }

  lemma ShapesBefore(o: Request, rest: seq<Request>, o': Request, rest': seq<Request>)
    requires Before(o, rest) && SameShape(o, o') && SameShapes(rest, rest')
    ensures Before(o', rest')
  {
    forall r <- rest' ensures o'.sector <= r.sector {
      var i :| 0 <= i < |rest'| && rest'[i] == r;
      assert rest[i] in rest && SameShape(rest[i], rest'[i]);
    }
    forall i, j | 0 <= i < j < |rest'| ensures rest'[i].sector <= rest'[j].sector {
      assert SameShape(rest[i], rest'[i]) && SameShape(rest[j], rest'[j]);
    }
  }

  lemma ShapesCover(rs: seq<Request>, rs': seq<Request>, s: nat)
    requires SameShapes(rs, rs') && CoveredBy(rs', s)
    ensures CoveredBy(rs, s)
  {
    var r :| r in rs' && Covers(r, s);
    var i :| 0 <= i < |rs'| && rs'[i] == r;
    assert SameShape(rs[i], rs'[i]) && rs[i] in rs && Covers(rs[i], s);
  }

  lemma {:induction false} OutputsCover(o: Request, rest: seq<Request>, s: nat)
    requires Before(o, rest) && CoveredBy(Merge(o, rest), s)
    ensures Covers(o, s) || CoveredBy(rest, s)
    decreases |rest|
  {
    if rest != [] {
      BeforeTail(o, rest);
      var r, more := rest[0], rest[1..];
      if CanMerge(o, r) {
        OutputsCover(MergeInto(o, r), more, s);
      } else if !Covers(o, s) {
        var m :| m in Merge(o, rest) && Covers(m, s);
        assert m in Merge(r, more);
        OutputsCover(r, more, s);
      }
      assert r in rest && forall x <- more :: x in rest;
    }
  }

  /** The outputs and the requests give the disk a different sector `s`. */
  predicate Differs(d: Disk, o: Request, rest: seq<Request>, s: nat)
    requires Before(o, rest)
  {
    ApplyAll(Apply(d, o), rest)(s) != ApplyAll(d, Merge(o, rest))(s)
  }

  function Filled(r: Request, v: Sector): Request { r.(data := seq(|r.data|, _ => v)) }

  /** The request with the contents that the disk has there. */
  function Copied(r: Request, d: Disk): Request { r.(data := seq(|r.data|, i requires 0 <= i => d(r.sector + i))) }

  /** A dropped sector that nobody writes again makes a difference. */
  lemma DropDiffers(o: Request, rest: seq<Request>, s: nat) returns (d: Disk, o': Request)
    requires Before(o, rest) && rest != [] && CanMerge(o, rest[0])
    requires End(rest[0]) <= s < End(o) && !CoveredBy(rest[1..], s)
    ensures SameShape(o, o') && Before(o', rest) && Differs(d, o', rest, s)
  {
    var r, more := rest[0], rest[1..];
    d, o' := x => [0], Filled(o, [1]);
    ShapesBefore(o, rest, o', rest);
    BeforeTail(o', rest);
    ApplyNone(Apply(Apply(d, o'), r), more, s);
    ApplyMerged(d, o', r, s);
    assert o'.data[s - o.sector] == [1];
    var m := MergeInto(o', r);
    assert !CoveredBy(Merge(m, more), s) by { if CoveredBy(Merge(m, more), s) { OutputsCover(m, more, s); } }
    ApplyNone(d, Merge(m, more), s);
  }

  /** Where the first of two requests writes, behind the end of the second, what is there
      already, both together write just what the merged one does. */
  lemma SplitWrites(o: Request, r: Request, d: Disk, x: nat)
    requires o.sector <= r.sector <= End(o)
    requires End(r) <= x < End(o) ==> o.data[x - o.sector] == d(x)
    ensures Apply(Apply(d, o), r)(x) == Apply(d, MergeInto(o, r))(x)
  {
    ApplyMerged(d, o, r, x);
    hide Apply, MergeInto;
  }

  /** Contents for two requests that merge into `m`, and together write just what `m` does. */
  lemma SplitMerged(o: Request, r: Request, m: Request, d: Disk) returns (o': Request, r': Request)
    requires o.sector <= r.sector && CanMerge(o, r) && SameShape(MergeInto(o, r), m)
    ensures SameShape(o, o') && SameShape(r, r') && MergeInto(o', r') == m
    ensures forall x: nat :: Apply(Apply(d, o'), r')(x) == Apply(d, m)(x)
  {
    hide Take, Sum, Apply;
    var k := r.sector - o.sector;
    var tail := Copied(o, d).data[k..];
    r' := r.(data := m.data[k..]);
    o' := o.(data := m.data[..k] + tail);
    assert o'.data[..k] + r'.data == m.data;
    forall x: nat ensures Apply(Apply(d, o'), r')(x) == Apply(d, m)(x) {
      assert r.sector <= x < End(o) ==> o'.data[x - o.sector] == tail[x - r.sector] == d(x);
      SplitWrites(o', r', d, x);
    }
  }

  lemma DiffersAgain(d: Disk, o: Request, rest: seq<Request>, m: Request, more: seq<Request>, s: nat)
    requires Before(o, rest) && rest != [] && more == rest[1..] && CanMerge(o, rest[0])
    requires m == MergeInto(o, rest[0]) && Before(m, more) && Differs(d, m, more, s)
    requires forall x: nat :: Apply(Apply(d, o), rest[0])(x) == Apply(d, m)(x)
    ensures Differs(d, o, rest, s)
  {
    ApplySame(Apply(Apply(d, o), rest[0]), Apply(d, m), more, s);
  }

  /** Where the condition fails there are contents and a disk for which merging matters. */
  lemma {:induction false} LossDiffers(o: Request, rest: seq<Request>)
    returns (d: Disk, o': Request, rest': seq<Request>, s: nat)
    requires Before(o, rest) && !Keeps(o, rest)
    ensures SameShape(o, o') && SameShapes(rest, rest') && Before(o', rest') && Differs(d, o', rest', s)
    decreases |rest|
  {
    hide Take, Sum;
    BeforeTail(o, rest);
    var r, more := rest[0], rest[1..];
    if !CanMerge(o, r) {
      var r', more';
      d, r', more', s := LossDiffers(r, more);
      o', rest' := Copied(o, d), [r'] + more';
      ConsShapes(r, more, r', more', rest, rest');
      ShapesBefore(o, rest, o', rest');
      DiffersBehind(d, o', rest', s);
    } else if Recovered(o, rest) {
      var m, more', r';
      d, m, more', s := LossDiffers(MergeInto(o, r), more);
      o', r' := SplitMerged(o, r, m, d);
      rest' := [r'] + more';
      ConsShapes(r, more, r', more', rest, rest');
      ShapesBefore(o, rest, o', rest');
      DiffersAgain(d, o', rest', m, more', s);
    } else {
      s :| End(r) <= s < End(o) && !CoveredBy(more, s);
      d, o' := DropDiffers(o, rest, s);
      rest' := rest;
    }
  }

  lemma ConsShapes(r: Request, more: seq<Request>, r': Request, more': seq<Request>, rest: seq<Request>, rest': seq<Request>)
    requires SameShape(r, r') && SameShapes(more, more') && rest == [r] + more && rest' == [r'] + more'
    ensures SameShapes(rest, rest') && rest'[0] == r' && rest'[1..] == more'
  {
    forall i | 0 <= i < |rest| ensures SameShape(rest[i], rest'[i]) {
      if i > 0 { assert rest[i] == more[i - 1] && rest'[i] == more'[i - 1]; }
    }
  }

  /** A request that writes what is there already changes nothing. */
  lemma DiffersBehind(d: Disk, o: Request, rest: seq<Request>, s: nat)
    requires Before(o, rest) && rest != [] && !CanMerge(o, rest[0]) && o == Copied(o, d)
    requires Before(rest[0], rest[1..]) && Differs(d, rest[0], rest[1..], s)
    ensures Differs(d, o, rest, s)
  {
    var r, more, d' := rest[0], rest[1..], Apply(d, o);
    forall x: nat ensures d'(x) == d(x) {
      if Covers(o, x) { assert o.data[x - o.sector] == Copied(o, d).data[x - o.sector]; }
    }
    assert ([o] + Merge(r, more))[1..] == Merge(r, more);
    ApplySame(Apply(d', r), Apply(d, r), more, s);
    ApplySame(d', d, Merge(r, more), s);
  }

  /** Merging preserves every disk and all contents exactly under the condition, which can
      be read off the positions, lengths and vector lengths of the requests. */
  lemma MergeExact(o: Request, rest: seq<Request>)
    requires Before(o, rest)
    ensures Keeps(o, rest) <==>
      forall d, o', rest', s ::
        SameShape(o, o') && SameShapes(rest, rest') && Before(o', rest') ==> !Differs(d, o', rest', s)
  {
    hide Differs, Keeps;
    if Keeps(o, rest) {
      forall d, o', rest', s | SameShape(o, o') && SameShapes(rest, rest') && Before(o', rest')
        ensures !Differs(d, o', rest', s)
      {
        ShapesKeep(o, rest, o', rest');
        Preserved(d, o', rest', s);
      }
    } else {
      var d, o', rest', s := LossDiffers(o, rest);
    }
  }

  lemma Preserved(d: Disk, o: Request, rest: seq<Request>, s: nat)
    requires Before(o, rest) && Keeps(o, rest)
    ensures !Differs(d, o, rest, s)
  {
    MergePreserves(d, o, rest, s);
  }

  lemma {:induction false} ShapesKeep(o: Request, rest: seq<Request>, o': Request, rest': seq<Request>)
    requires Before(o, rest) && Before(o', rest') && SameShape(o, o') && SameShapes(rest, rest') && Keeps(o, rest)
    ensures Keeps(o', rest')
    decreases |rest|
  {
    if rest != [] {
      BeforeTail(o, rest);
      BeforeTail(o', rest');
      assert SameShape(rest[0], rest'[0]);
      ShapesTail(rest, rest');
      hide SameShapes, Before, Recovered, Take, Sum;
      if CanMerge(o, rest[0]) {
        ShapesKeep(MergeInto(o, rest[0]), rest[1..], MergeInto(o', rest'[0]), rest'[1..]);
        ShapesRecover(o, rest, o', rest');
      } else {
        ShapesKeep(rest[0], rest[1..], rest'[0], rest'[1..]);
      }
    }
  }

  lemma ShapesRecover(o: Request, rest: seq<Request>, o': Request, rest': seq<Request>)
    requires rest != [] && SameShape(o, o') && SameShapes(rest, rest') && Recovered(o, rest)
    ensures Recovered(o', rest')
  {
    assert SameShape(rest[0], rest'[0]);
    ShapesTail(rest, rest');
    ShapesSwap(rest[1..], rest'[1..]);
    hide CoveredBy, SameShapes;
    forall s | End(rest'[0]) <= s < End(o') ensures CoveredBy(rest'[1..], s) {
      ShapesCover(rest'[1..], rest[1..], s);
    }
  }

  lemma ShapesTail(rs: seq<Request>, rs': seq<Request>)
    requires SameShapes(rs, rs') && rs != []
    ensures SameShapes(rs[1..], rs'[1..])
  {
    forall i | 0 <= i < |rs| - 1 ensures SameShape(rs[1..][i], rs'[1..][i]) { assert SameShape(rs[i + 1], rs'[i + 1]); }
  }

  lemma ShapesSwap(rs: seq<Request>, rs': seq<Request>)
    requires SameShapes(rs, rs')
    ensures SameShapes(rs', rs)
  {
    forall i | 0 <= i < |rs| ensures SameShape(rs'[i], rs[i]) { assert SameShape(rs[i], rs'[i]); }
  }

  /** Three sectors written at 0 and one at sector 1: sector 2 is dropped. */
  lemma ContainedRequestLost()
    ensures var o, r := Request(0, [[1], [1], [1]], [1536]), Request(1, [[2]], [512]);
      Before(o, [r]) && Differs(x => [0], o, [r], 2)
  {
    var o, r, d: Disk := Request(0, [[1], [1], [1]], [1536]), Request(1, [[2]], [512]), x => [0];
    assert Before(o, [r]) && CanMerge(o, r) && [r][1..] == [];
    var m := MergeInto(o, r);
    ApplyMerged(d, o, r, 2);
    assert Merge(o, [r]) == [m] && [m][1..] == [];
  }

  // ----- the code -----

  /** multiwrite_merge, in place; `sorted` is what qsort makes of the array. */
  method MultiwriteMerge(reqs: array<Request>, sorted: seq<Request>) returns (n: nat)
    requires reqs.Length > 0 && multiset(sorted) == multiset(reqs[..]) && Sorted(sorted) && |sorted| == reqs.Length
    modifies reqs
    ensures 0 < n <= reqs.Length && Before(sorted[0], sorted[1..]) && reqs[..n] == Merge(sorted[0], sorted[1..])
  {
    hide MergeInto, Sorted, CanMerge, Merge, Before;
    forall i | 0 <= i < reqs.Length { reqs[i] := sorted[i]; }
    var outidx, i := 0, 1;
    BeforeRest(sorted);
    while i < reqs.Length
      invariant 0 <= outidx < i <= reqs.Length && Before(reqs[outidx], sorted[i..])
      invariant forall j :: i <= j < reqs.Length ==> reqs[j] == sorted[j]
      invariant reqs[..outidx] + Merge(reqs[outidx], sorted[i..]) == Merge(sorted[0], sorted[1..])
    {
      var oldreqLast := reqs[outidx].sector + |reqs[outidx].data|;
      var merge := reqs[i].sector <= oldreqLast;
      if |reqs[outidx].iov| + |reqs[i].iov| + 1 > IOV_MAX {
        merge := false;
      }
      MergeUnfolds(reqs[outidx], sorted, i);
      if merge {
        reqs[outidx] := MergeInto(reqs[outidx], reqs[i]);
      } else {
        ghost var done := reqs[..outidx + 1];
        assert done == reqs[..outidx] + [reqs[outidx]];
        outidx := outidx + 1;
        reqs[outidx] := reqs[i];
        assert reqs[..outidx] == done;
      }
      i := i + 1;
    }
    MergeDone(reqs[outidx]);
    assert sorted[i..] == [] && reqs[..outidx + 1] == reqs[..outidx] + [reqs[outidx]];
    n := outidx + 1;
  }

  lemma MergeDone(o: Request)
    ensures Before(o, []) && Merge(o, []) == [o]
  {}

  lemma BeforeRest(sorted: seq<Request>)
    requires Sorted(sorted) && sorted != []
    ensures Before(sorted[0], sorted[1..])
  {
    forall r <- sorted[1..] ensures sorted[0].sector <= r.sector {
      var i :| 0 <= i < |sorted| - 1 && sorted[1..][i] == r;
      assert sorted[i + 1] == r;
    }
  }

  lemma MergeUnfolds(o: Request, sorted: seq<Request>, i: nat)
    requires i < |sorted| && Before(o, sorted[i..])
    ensures CanMerge(o, sorted[i]) <==> sorted[i].sector <= o.sector + |o.data| && !(|o.iov| + |sorted[i].iov| + 1 > IOV_MAX)
    ensures o.sector <= sorted[i].sector && Before(o, sorted[i + 1..]) && Before(sorted[i], sorted[i + 1..])
    ensures CanMerge(o, sorted[i]) ==>
      Before(MergeInto(o, sorted[i]), sorted[i + 1..]) && Merge(o, sorted[i..]) == Merge(MergeInto(o, sorted[i]), sorted[i + 1..])
    ensures !CanMerge(o, sorted[i]) ==> Merge(o, sorted[i..]) == [o] + Merge(sorted[i], sorted[i + 1..])
  {
    assert sorted[i..][1..] == sorted[i + 1..] && sorted[i..][0] == sorted[i];
    BeforeTail(o, sorted[i..]);
  }

  function FirstError(rets: seq<int>): int {
    if rets == [] then 0 else if rets[0] < 0 then rets[0] else FirstError(rets[1..])
  }

  lemma {:induction false} FirstErrorNext(rets: seq<int>, ret: int)
    ensures FirstError(rets + [ret]) == if ret < 0 && FirstError(rets) == 0 then ret else FirstError(rets)
  {
    if rets == [] {
      assert [ret][1..] == [];
    } else {
      assert (rets + [ret])[1..] == rets[1..] + [ret];
      FirstErrorNext(rets[1..], ret);
    }
  }

  /** The callbacks of all requests of one bdrv_aio_multiwrite, in order, with a result. */
  function AllCalled(n: nat, error: int): seq<(nat, int)> { seq(n, i requires 0 <= i => (i, error)) }

  class MultiwriteCB {
    const numCallbacks: nat
    var numRequests: nat
    var error: int
    var called: seq<(nat, int)>     // calls of user callbacks, by index and result
    ghost var rets: seq<int>        // results of the merged requests so far
    ghost const total: nat

    constructor (numCallbacks: nat, numRequests: nat)
      requires numRequests > 0
      ensures Valid() && rets == [] && total == numRequests && this.numCallbacks == numCallbacks
    {
      this.numCallbacks, this.numRequests, error, called := numCallbacks, numRequests, 0, [];
      rets, total := [], numRequests;
    }

    /** No callback runs before the last merged request has completed; then each has run
        exactly once, with the first error. */
    ghost predicate Valid()
      reads this
    {
      && numRequests == total - |rets| && error == FirstError(rets)
      && called == if numRequests == 0 then AllCalled(numCallbacks, error) else []
    }

    /** multiwrite_cb */
    method Complete(ret: int)
      requires Valid() && numRequests > 0
      modifies this
      ensures Valid() && rets == old(rets) + [ret]
    {
      FirstErrorNext(rets, ret);
      if ret < 0 && error == 0 {
        error := ret;
      }
      rets := rets + [ret];
      numRequests := numRequests - 1;
      if numRequests == 0 {
        UserCallbacks();
      }
    }

    /** multiwrite_user_cb */
    method UserCallbacks()
      requires called == []
      modifies `called
      ensures called == AllCalled(numCallbacks, error)
    {
      var i := 0;
      while i < numCallbacks
        invariant 0 <= i <= numCallbacks && called == AllCalled(i, error)
      {
        called := called + [(i, error)];
        i := i + 1;
      }
    }
  }

  /** In whatever order the merged requests complete, every user callback is called once. */
  method CompleteAll(numCallbacks: nat, results: seq<int>) returns (called: seq<(nat, int)>)
    requires results != []
    ensures |called| == numCallbacks
    ensures forall i :: 0 <= i < numCallbacks ==> called[i] == (i, FirstError(results))
  {
    var mcb := new MultiwriteCB(numCallbacks, |results|);
    var i := 0;
    while i < |results|
      invariant 0 <= i <= |results| && mcb.Valid() && mcb.rets == results[..i] && fresh(mcb)
      invariant mcb.total == |results| && mcb.numCallbacks == numCallbacks
    {
      assert results[..i + 1] == results[..i] + [results[i]];
      mcb.Complete(results[i]);
      i := i + 1;
    }
    assert results[..i] == results;
    called := mcb.called;
  }
}
