/** Lists of free blocks in address order, as used by the kernel heap and by the virtual heaps: the
    list is the canonical form of the set of free addresses. */
module FreeList {
  import opened Wrappers

  /** n addresses from a on. */
  datatype Blk = Blk(a: int, n: int)

  function End(b: Blk): int { b.a + b.n }

  predicate Has(b: Blk, x: int) { b.a <= x < End(b) }

  /** Sorted, disjoint, not even adjacent, inside [lo, hi). */
  ghost predicate Canon(s: seq<Blk>, lo: int, hi: int) {
    && (forall i :: 0 <= i < |s| ==> s[i].n > 0 && lo <= s[i].a && End(s[i]) <= hi)
    && (forall i, j :: 0 <= i < j < |s| ==> End(s[i]) < s[j].a)
  }

  ghost predicate Free(s: seq<Blk>, x: int) { exists i :: 0 <= i < |s| && Has(s[i], x) }

  /** The lengths together. */
  function Total(s: seq<Blk>): int { if s == [] then 0 else s[0].n + Total(s[1..]) }

  // ---- the operations ----

  /** The first block of at least n, and the last. */
  function FirstFit(s: seq<Blk>, n: int): (i: nat)
    ensures i <= |s| && (i < |s| ==> s[i].n >= n)
    ensures forall j :: 0 <= j < i ==> s[j].n < n
  {
    if s == [] || s[0].n >= n then 0 else FirstFit(s[1..], n) + 1
  }

  function LastFit(s: seq<Blk>, n: int): (i: int)
    ensures -1 <= i < |s| && (i >= 0 ==> s[i].n >= n)
    ensures forall j :: i < j < |s| ==> s[j].n < n
  {
    if s == [] then -1 else if s[|s| - 1].n >= n then |s| - 1 else LastFit(s[..|s| - 1], n)
  }

  /** n addresses from the front of the first block that has them. */
  function Get(s: seq<Blk>, n: int): Option<(seq<Blk>, int)> {
    var i := FirstFit(s, n);
    if i == |s| then None
    else if s[i].n == n then Some((s[..i] + s[i + 1..], s[i].a))
    else Some((s[i := Blk(s[i].a + n, s[i].n - n)], s[i].a))
  }

  /** n addresses from the back of the last block that has them. */
  function GetTop(s: seq<Blk>, n: int): Option<(seq<Blk>, int)> {
    var i := LastFit(s, n);
    if i < 0 then None
    else if s[i].n == n then Some((s[..i] + s[i + 1..], s[i].a))
    else Some((s[i := Blk(s[i].a, s[i].n - n)], s[i].a + s[i].n - n))
  }

  /** How many blocks lie before a. */
  function Pos(s: seq<Blk>, a: int): (k: nat)
    ensures k <= |s| && (k < |s| ==> a <= s[k].a)
    ensures forall j :: 0 <= j < k ==> s[j].a < a
  {
    if s == [] || a <= s[0].a then 0 else Pos(s[1..], a) + 1
  }

  predicate Left(s: seq<Blk>, k: int, a: int) { 0 < k <= |s| && End(s[k - 1]) == a }

  predicate Right(s: seq<Blk>, k: int, e: int) { 0 <= k < |s| && e == s[k].a }

  /** The block that a freed block becomes part of. */
  function Merged(s: seq<Blk>, k: nat, a: int, n: int): Blk
    requires k <= |s|
  {
    var b := if Left(s, k, a) then Blk(s[k - 1].a, s[k - 1].n + n) else Blk(a, n);
    if Right(s, k, a + n) then Blk(b.a, b.n + s[k].n) else b
  }

  /** The block [a, a + n) given back; refused when it overlaps the block before or behind it. */
  function Put(s: seq<Blk>, a: int, n: int): Option<seq<Blk>> {
    var k := Pos(s, a);
    if (k > 0 && a < End(s[k - 1])) || (k < |s| && a + n > s[k].a) then None
    else Some(s[..if Left(s, k, a) then k - 1 else k] + [Merged(s, k, a, n)]
      + s[if Right(s, k, a + n) then k + 1 else k..])
  }

  // ---- lists and sets of addresses ----

  lemma TotalSplit(p: seq<Blk>, q: seq<Blk>)
    ensures Total(p + q) == Total(p) + Total(q)
  {
    if p == [] {
      assert p + q == q;
    } else {
      assert (p + q)[1..] == p[1..] + q;
      TotalSplit(p[1..], q);
    }
  }

  lemma FreeSplit(p: seq<Blk>, q: seq<Blk>, x: int)
    ensures Free(p + q, x) <==> Free(p, x) || Free(q, x)
  {
    if Free(p, x) {
      var i :| 0 <= i < |p| && Has(p[i], x);
      assert Has((p + q)[i], x);
    }
    if Free(q, x) {
      var i :| 0 <= i < |q| && Has(q[i], x);
      assert Has((p + q)[|p| + i], x);
    }
  }

  lemma FreeOne(b: Blk, x: int)
    ensures Free([b], x) <==> Has(b, x)
  {
    if Has(b, x) { assert Has([b][0], x); }
  }

  /** A list is determined by its set of addresses. */
  lemma {:induction false} Unique(s: seq<Blk>, t: seq<Blk>, lo: int, hi: int)
    requires Canon(s, lo, hi) && Canon(t, lo, hi) && forall x :: Free(s, x) <==> Free(t, x)
    ensures s == t
    decreases |s|
  {
    hide Free, Has, Canon;
    if s == [] {
      if t != [] { HeadFree(t, lo, hi); }
    } else {
      HeadFree(s, lo, hi);
      if t != [] {
        HeadFree(t, lo, hi);
        SameFirst(s, t, lo, hi);
        forall x ensures Free(s[1..], x) <==> Free(t[1..], x) {
          TailFree(s, lo, hi, x);
          TailFree(t, lo, hi, x);
        }
        Unique(s[1..], t[1..], lo, hi);
        assert s == [s[0]] + s[1..] && t == [t[0]] + t[1..];
      }
    }
  }

  /** The first address is free, on an empty list none is, and a list without its first block is in
      order. */
  lemma HeadFree(s: seq<Blk>, lo: int, hi: int)
    requires Canon(s, lo, hi) && s != []
    ensures Free(s, s[0].a) && !Free([], s[0].a) && Canon(s[1..], lo, hi)
  {
    assert Has(s[0], s[0].a);
  }

  lemma TailFree(s: seq<Blk>, lo: int, hi: int, x: int)
    requires Canon(s, lo, hi) && s != []
    ensures Free(s[1..], x) <==> Free(s, x) && !Has(s[0], x)
  {
    assert s == [s[0]] + s[1..];
    FreeSplit([s[0]], s[1..], x);
    FreeOne(s[0], x);
  }

  lemma FirstLeast(s: seq<Blk>, lo: int, hi: int, x: int)
    requires Canon(s, lo, hi) && s != [] && Free(s, x)
    ensures s[0].a <= x
  {}

  lemma EndNotFree(s: seq<Blk>, lo: int, hi: int, i: int)
    requires Canon(s, lo, hi) && 0 <= i < |s|
    ensures !Free(s, End(s[i]))
  {}

  lemma SameFirst(s: seq<Blk>, t: seq<Blk>, lo: int, hi: int)
    requires Canon(s, lo, hi) && Canon(t, lo, hi) && s != [] && t != [] && forall x :: Free(s, x) <==> Free(t, x)
    ensures s[0] == t[0]
  {
    assert Has(s[0], s[0].a) && Has(t[0], t[0].a);
    FirstLeast(s, lo, hi, t[0].a);
    FirstLeast(t, lo, hi, s[0].a);
    EndNotFree(s, lo, hi, 0);
    EndNotFree(t, lo, hi, 0);
    var (b, c) := (s[0], t[0]);
    assert End(b) < End(c) ==> Has(c, End(b));
    assert End(c) < End(b) ==> Has(b, End(c));
  }

  // ---- taking a block ----

  /** r is s with [a, a + n) taken out of block i. */
  ghost predicate Taken(s: seq<Blk>, i: nat, a: int, n: int, r: seq<Blk>) {
    && i < |s| && 0 < n <= s[i].n
    && (|| (n == s[i].n && a == s[i].a && r == s[..i] + s[i + 1..])
        || (n < s[i].n && a == s[i].a && r == s[..i] + [Blk(a + n, s[i].n - n)] + s[i + 1..])
        || (n < s[i].n && a == End(s[i]) - n && r == s[..i] + [Blk(s[i].a, s[i].n - n)] + s[i + 1..]))
  }

  lemma TakeTotal(s: seq<Blk>, i: nat, a: int, n: int, r: seq<Blk>)
    requires Taken(s, i, a, n, r)
    ensures Total(r) == Total(s) - n
  {
    var mid := if n == s[i].n then [] else [r[i]];
    assert r == s[..i] + mid + s[i + 1..] && s == s[..i] + [s[i]] + s[i + 1..];
    TotalSplit(s[..i] + mid, s[i + 1..]);
    TotalSplit(s[..i], mid);
    TotalSplit(s[..i] + [s[i]], s[i + 1..]);
    TotalSplit(s[..i], [s[i]]);
  }

  lemma TakeCanon(s: seq<Blk>, lo: int, hi: int, i: nat, a: int, n: int, r: seq<Blk>)
    requires Canon(s, lo, hi) && Taken(s, i, a, n, r)
    ensures Canon(r, lo, hi)
  {
    CanonDrop(s, lo, hi, i, i + 1);
    CanonCut(s, lo, hi, i, i + 1);
    if n < s[i].n {
      var c := r[i];
      assert c.n == s[i].n - n && s[i].a <= c.a && End(c) <= End(s[i]);
      CanonJoin(s[..i], c, s[i + 1..], lo, hi);
    }
  }

  lemma CanonCut(s: seq<Blk>, lo: int, hi: int, i: nat, j: nat)
    requires Canon(s, lo, hi) && i <= j <= |s|
    ensures Canon(s[..i], lo, hi) && Canon(s[j..], lo, hi)
  {}

  lemma CanonDrop(s: seq<Blk>, lo: int, hi: int, i: nat, j: nat)
    requires Canon(s, lo, hi) && i <= j <= |s|
    ensures Canon(s[..i] + s[j..], lo, hi)
  {}

  lemma CanonJoin(p: seq<Blk>, c: Blk, q: seq<Blk>, lo: int, hi: int)
    requires Canon(p, lo, hi) && Canon(q, lo, hi) && c.n > 0 && lo <= c.a && End(c) <= hi
    requires forall m :: 0 <= m < |p| ==> End(p[m]) < c.a
    requires forall m :: 0 <= m < |q| ==> End(c) < q[m].a
    ensures Canon(p + [c] + q, lo, hi)
  {}

  lemma TakeFree(s: seq<Blk>, lo: int, hi: int, i: nat, a: int, n: int, r: seq<Blk>)
    requires Canon(s, lo, hi) && Taken(s, i, a, n, r)
    ensures forall x :: a <= x < a + n ==> Free(s, x)
    ensures forall x :: Free(r, x) <==> Free(s, x) && !(a <= x < a + n)
  {
    var mid := if n == s[i].n then [] else [r[i]];
    assert r == s[..i] + mid + s[i + 1..];
    forall x | a <= x < a + n ensures Free(s, x) { assert Has(s[i], x); }
    hide Free;
    forall x ensures Free(r, x) <==> Free(s, x) && !(a <= x < a + n) { TakeFreeAt(s, lo, hi, i, a, n, mid, x); }
  }

  lemma TakeFreeAt(s: seq<Blk>, lo: int, hi: int, i: nat, a: int, n: int, mid: seq<Blk>, x: int)
    requires Canon(s, lo, hi) && i < |s| && 0 < n <= s[i].n && s[i].a <= a && a + n <= End(s[i])
    requires if mid == [] then n == s[i].n else |mid| == 1 && forall y :: Has(mid[0], y) <==>
      Has(s[i], y) && !(a <= y < a + n)
    ensures Free(s[..i] + mid + s[i + 1..], x) <==> Free(s, x) && !(a <= x < a + n)
  {
    assert s == s[..i] + [s[i]] + s[i + 1..];
    FreeSplit(s[..i] + mid, s[i + 1..], x);
    FreeSplit(s[..i], mid, x);
    FreeSplit(s[..i] + [s[i]], s[i + 1..], x);
    FreeSplit(s[..i], [s[i]], x);
    FreeOne(s[i], x);
    OnlyOne(s, lo, hi, i, x);
    hide Free, Canon;
    if |mid| == 1 {
      assert mid == [mid[0]];
      FreeOne(mid[0], x);
    }
  }

  /** No other block has an address of block i. */
  lemma OnlyOne(s: seq<Blk>, lo: int, hi: int, i: nat, x: int)
    requires Canon(s, lo, hi) && i < |s|
    ensures Has(s[i], x) ==> !Free(s[..i], x) && !Free(s[i + 1..], x)
  {}

  /** What getmem returns was free, is taken, and nothing else changes; it fails exactly when no
      block is large enough. */
  lemma GetOk(s: seq<Blk>, lo: int, hi: int, n: int)
    requires Canon(s, lo, hi) && n > 0
    ensures Get(s, n).None? <==> forall i :: 0 <= i < |s| ==> s[i].n < n
    ensures Get(s, n).Some? ==> var (r, a) := Get(s, n).value;
      && Canon(r, lo, hi) && Total(r) == Total(s) - n
      && (forall x :: a <= x < a + n ==> Free(s, x)) && (forall x :: Free(r, x) <==> Free(s, x) && !(a <= x < a + n))
  {
    hide Canon, Free, Total;
    var i := FirstFit(s, n);
    if i < |s| {
      var r := Get(s, n).value.0;
      assert n < s[i].n ==> r == s[..i] + [Blk(s[i].a + n, s[i].n - n)] + s[i + 1..];
      TakeOk(s, lo, hi, i, s[i].a, n, r);
    }
  }

  lemma TakeOk(s: seq<Blk>, lo: int, hi: int, i: nat, a: int, n: int, r: seq<Blk>)
    requires Canon(s, lo, hi) && Taken(s, i, a, n, r)
    ensures Canon(r, lo, hi) && Total(r) == Total(s) - n
    ensures forall x :: a <= x < a + n ==> Free(s, x)
    ensures forall x :: Free(r, x) <==> Free(s, x) && !(a <= x < a + n)
  {
    hide Canon, Free, Taken;
    TakeTotal(s, i, a, n, r);
    TakeCanon(s, lo, hi, i, a, n, r);
    TakeFree(s, lo, hi, i, a, n, r);
  }

  lemma GetTopOk(s: seq<Blk>, lo: int, hi: int, n: int)
    requires Canon(s, lo, hi) && n > 0
    ensures GetTop(s, n).None? <==> forall i :: 0 <= i < |s| ==> s[i].n < n
    ensures GetTop(s, n).Some? ==> var (r, a) := GetTop(s, n).value;
      && Canon(r, lo, hi) && Total(r) == Total(s) - n
      && (forall x :: a <= x < a + n ==> Free(s, x)) && (forall x :: Free(r, x) <==> Free(s, x) && !(a <= x < a + n))
  {
    hide Canon, Free, Total;
    var i := LastFit(s, n);
    if i >= 0 {
      var r := GetTop(s, n).value.0;
      assert n < s[i].n ==> r == s[..i] + [Blk(s[i].a, s[i].n - n)] + s[i + 1..];
      TakeOk(s, lo, hi, i, End(s[i]) - n, n, r);
    }
  }

  // ---- giving a block back ----

  /** The blocks before place Pos end before a or reach into the block, the others lie behind it. */
  lemma Around(s: seq<Blk>, lo: int, hi: int, a: int, n: int)
    requires Canon(s, lo, hi) && n > 0
    ensures Put(s, a, n).Some? <==> forall x :: a <= x < a + n ==> !Free(s, x)
  {
    var k := Pos(s, a);
    if Put(s, a, n).None? {
      var m := if k > 0 && a < End(s[k - 1]) then k - 1 else k;
      var x := if m < k then a else s[k].a;
      assert Has(s[m], x);
      assert Free(s, x);
    }
  }

  lemma PutCanon(s: seq<Blk>, lo: int, hi: int, a: int, n: int)
    requires Canon(s, lo, hi) && n > 0 && lo <= a && a + n <= hi && Put(s, a, n).Some?
    ensures Canon(Put(s, a, n).value, lo, hi)
  {
    hide Canon, Merged, Left, Right, End;
    var k := Pos(s, a);
    var i := if Left(s, k, a) then k as int - 1 else k as int;
    var j := if Right(s, k, a + n) then k + 1 else k;
    MergedIn(s, lo, hi, k, a, n, i, j);
    CanonCut(s, lo, hi, i, j);
    CanonJoin(s[..i], Merged(s, k, a, n), s[j..], lo, hi);
  }

  lemma MergedIn(s: seq<Blk>, lo: int, hi: int, k: nat, a: int, n: int, i: int, j: int)
    requires Canon(s, lo, hi) && n > 0 && k == Pos(s, a) && lo <= a && a + n <= hi
    requires !(k > 0 && a < End(s[k - 1])) && !(k < |s| && a + n > s[k].a)
    requires i == (if Left(s, k, a) then k - 1 else k) && j == (if Right(s, k, a + n) then k + 1 else k)
    ensures 0 <= i <= j <= |s|
    ensures var c := Merged(s, k, a, n); c.n > 0 && lo <= c.a && End(c) <= hi
    ensures forall m :: 0 <= m < i ==> End(s[m]) < Merged(s, k, a, n).a
    ensures forall m :: j <= m < |s| ==> End(Merged(s, k, a, n)) < s[m].a
  {}

  lemma PutTotal(s: seq<Blk>, a: int, n: int)
    requires Put(s, a, n).Some?
    ensures Total(Put(s, a, n).value) == Total(s) + n
  {
    hide Total, Pos;
    var k := Pos(s, a);
    var (i, j) := (if Left(s, k, a) then k - 1 else k, if Right(s, k, a + n) then k + 1 else k);
    var (p, c, q) := (s[..i], Merged(s, k, a, n), s[j..]);
    TotalSplit(p + [c], q);
    TotalSplit(p, [c]);
    TotalSingle(c);
    TotalCut(s, i, k, j);
  }

  lemma TotalSingle(b: Blk)
    ensures Total([b]) == b.n
  {
    assert [b][1..] == [];
  }

  /** Around at most one block on each side of place k. */
  lemma TotalCut(s: seq<Blk>, i: nat, k: nat, j: nat)
    requires i <= k <= j <= |s| && k <= i + 1 && j <= k + 1
    ensures Total(s) == Total(s[..i]) + (if i < k then s[i].n else 0) + (if k < j then s[k].n else 0) + Total(s[j..])
  {
    hide Total;
    assert s == s[..i] + s[i..k] + s[k..j] + s[j..];
    TotalSplit(s[..i] + s[i..k] + s[k..j], s[j..]);
    TotalSplit(s[..i] + s[i..k], s[k..j]);
    TotalSplit(s[..i], s[i..k]);
    TotalOf(s, i, k);
    TotalOf(s, k, j);
  }

  lemma TotalOf(s: seq<Blk>, i: nat, j: nat)
    requires i <= j <= |s| && j <= i + 1
    ensures Total(s[i..j]) == if i < j then s[i].n else 0
  {
    if i < j {
      assert s[i..j] == [s[i]];
      TotalSingle(s[i]);
    }
  }

  lemma PutFree(s: seq<Blk>, lo: int, hi: int, a: int, n: int, x: int)
    requires Canon(s, lo, hi) && n > 0 && Put(s, a, n).Some?
    ensures Free(Put(s, a, n).value, x) <==> Free(s, x) || a <= x < a + n
  {
    hide Free, Total;
    var k := Pos(s, a);
    var i, j := if Left(s, k, a) then k - 1 else k, if Right(s, k, a + n) then k + 1 else k;
    var c := Merged(s, k, a, n);
    MergedHas(s, lo, hi, k, a, n, i, j, x);
    hide Canon, Merged, Left, Right, Has;
    FreeSplit(s[..i] + [c], s[j..], x);
    FreeSplit(s[..i], [c], x);
    FreeOne(c, x);
    FreeCut(s, i, k, j, x);
  }

  /** The merged block has the addresses of its parts. */
  lemma MergedHas(s: seq<Blk>, lo: int, hi: int, k: nat, a: int, n: int, i: int, j: int, x: int)
    requires Canon(s, lo, hi) && n > 0 && k <= |s|
    requires i == (if Left(s, k, a) then k - 1 else k) && j == (if Right(s, k, a + n) then k + 1 else k)
    ensures Has(Merged(s, k, a, n), x) <==> a <= x < a + n || (i < k && Has(s[i], x)) || (k < j && Has(s[k], x))
  {}

  lemma FreeCut(s: seq<Blk>, i: int, k: int, j: int, x: int)
    requires 0 <= i <= k <= j <= |s| && k <= i + 1 && j <= k + 1
    ensures Free(s, x) <==> Free(s[..i], x) || (i < k && Has(s[i], x)) || (k < j && Has(s[k], x)) || Free(s[j..], x)
  {
    hide Free, Has;
    assert s == s[..i] + s[i..k] + s[k..j] + s[j..];
    FreeSplit(s[..i] + s[i..k] + s[k..j], s[j..], x);
    FreeSplit(s[..i] + s[i..k], s[k..j], x);
    FreeSplit(s[..i], s[i..k], x);
    FreeFew(s, i, k, x);
    FreeFew(s, k, j, x);
  }

  /** A part of at most one block. */
  lemma FreeFew(s: seq<Blk>, i: int, j: int, x: int)
    requires 0 <= i <= j <= |s| && j <= i + 1
    ensures Free(s[i..j], x) <==> i < j && Has(s[i], x)
  {
    if i < j {
      hide Free, Has;
      assert s[i..j] == [s[i]];
      FreeOne(s[i], x);
    }
  }

  /** freemem accepts a block exactly when no part of it is free, and then adds it. */
  lemma PutOk(s: seq<Blk>, lo: int, hi: int, a: int, n: int)
    requires Canon(s, lo, hi) && n > 0
    ensures Put(s, a, n).Some? <==> forall x :: a <= x < a + n ==> !Free(s, x)
    ensures Put(s, a, n).Some? ==> var r := Put(s, a, n).value;
      && Total(r) == Total(s) + n && (forall x :: Free(r, x) <==> Free(s, x) || a <= x < a + n)
      && (Canon(r, lo, hi) <==> lo <= a && a + n <= hi)
  {
    Around(s, lo, hi, a, n);
    if Put(s, a, n).Some? {
      PutTotal(s, a, n);
      forall x { PutFree(s, lo, hi, a, n, x); }
      var r := Put(s, a, n).value;
      if lo <= a && a + n <= hi {
        PutCanon(s, lo, hi, a, n);
      } else if Canon(r, lo, hi) {
        CanonIn(r, lo, hi, a);
        CanonIn(r, lo, hi, a + n - 1);
      }
    }
  }

  lemma CanonIn(s: seq<Blk>, lo: int, hi: int, x: int)
    requires Canon(s, lo, hi) && Free(s, x)
    ensures lo <= x < hi
  {}

  /** Giving back no bytes is refused inside a free block, changes nothing at the end of one, and
      otherwise asks for a block of length 0. */
  lemma PutNothing(s: seq<Blk>, lo: int, hi: int, a: int)
    requires Canon(s, lo, hi)
    ensures Put(s, a, 0).None? || Left(s, Pos(s, a), a) <==> Free(s, a - 1)
    ensures Left(s, Pos(s, a), a) ==> Put(s, a, 0) == Some(s)
  {
    hide Free, Canon;
    var k := Pos(s, a);
    BeforeFree(s, lo, hi, k, a);
    if Left(s, k, a) {
      CanonBlk(s, lo, hi, k);
      SameBlock(s, k);
    }
  }

  lemma SameBlock(s: seq<Blk>, k: nat)
    requires 0 < k <= |s|
    ensures s[..k - 1] + [Blk(s[k - 1].a, s[k - 1].n)] + s[k..] == s
  {}

  lemma BeforeFree(s: seq<Blk>, lo: int, hi: int, k: nat, a: int)
    requires Canon(s, lo, hi) && k <= |s| && (forall j :: 0 <= j < k ==> s[j].a < a) && (k < |s| ==> a <= s[k].a)
    ensures Free(s, a - 1) <==> k > 0 && a <= End(s[k - 1])
  {
    if k > 0 && a <= End(s[k - 1]) { assert Has(s[k - 1], a - 1); }
  }

  lemma CanonBlk(s: seq<Blk>, lo: int, hi: int, k: nat)
    requires Canon(s, lo, hi) && 0 < k <= |s|
    ensures k < |s| ==> End(s[k - 1]) < s[k].a
  {}

  // ---- round trips ----

  /** Freeing what was taken restores the identical list. */
  lemma TakePut(s: seq<Blk>, lo: int, hi: int, r: seq<Blk>, a: int, n: int)
    requires Canon(s, lo, hi) && Canon(r, lo, hi) && n > 0
    requires (forall x :: a <= x < a + n ==> Free(s, x))
      && (forall x :: Free(r, x) <==> Free(s, x) && !(a <= x < a + n))
    ensures Put(r, a, n) == Some(s)
  {
    hide Canon, Free, Put;
    PutOk(r, lo, hi, a, n);
    CanonIn(s, lo, hi, a);
    CanonIn(s, lo, hi, a + n - 1);
    Unique(Put(r, a, n).value, s, lo, hi);
  }

  lemma GetPut(s: seq<Blk>, lo: int, hi: int, n: int)
    requires Canon(s, lo, hi) && n > 0
    ensures Get(s, n).Some? ==> Put(Get(s, n).value.0, Get(s, n).value.1, n) == Some(s)
    ensures GetTop(s, n).Some? ==> Put(GetTop(s, n).value.0, GetTop(s, n).value.1, n) == Some(s)
  {
    hide Canon, Free, Put, Get, GetTop, Total;
    GetOk(s, lo, hi, n);
    GetTopOk(s, lo, hi, n);
    if Get(s, n).Some? { TakePut(s, lo, hi, Get(s, n).value.0, Get(s, n).value.1, n); }
    if GetTop(s, n).Some? { TakePut(s, lo, hi, GetTop(s, n).value.0, GetTop(s, n).value.1, n); }
  }
}
