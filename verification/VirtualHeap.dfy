/** The virtual heap of a process, in pages: vmhinit, vmhgetmem and vmhfreemem. The nodes of the
    free list lie in the first pages of the free blocks, which therefore count as allocated for
    the fault handler. */
module VirtualHeaps {
  import opened Kernel
  import opened FreeList
  import opened NodeLists
  import opened MemBlk

  /** Pages of the address space. */
  const PAGES := 0x10_0000

  /** prmeminit, the header and the nodes of prmemblk, and pralloc; `base` is the first page. */
  datatype VHeap = VHeap(base: int, init: bool, total: int, list: seq<Blk>, alloc: seq<bool>)

  function Limit(v: VHeap): int { v.base + |v.alloc| }

  /** pralloc of a page. */
  predicate Alloc(v: VHeap, x: int) { v.base <= x < Limit(v) && v.alloc[x - v.base] }

  function Mark(v: VHeap, a: int, n: int, b: bool): (w: VHeap)
    ensures |w.alloc| == |v.alloc|
  {
    v.(alloc := Marks(v.alloc, v.base, a, n, b))
  }

  /** pralloc with n pages from a on set to b. */
  function Marks(s: seq<bool>, base: int, a: int, n: int, b: bool): (r: seq<bool>)
    ensures |r| == |s|
  {
    seq(|s|, i requires 0 <= i < |s| => if a <= base + i < a + n then b else s[i])
  }

  lemma MarkAt(v: VHeap, a: int, n: int, b: bool, x: int)
    requires v.base <= x < Limit(v)
    ensures Alloc(Mark(v, a, n, b), x) <==> if a <= x < a + n then b else Alloc(v, x)
  {}

  /** vmhinit */
  function Init(v: VHeap): VHeap {
    if v.init then v
    else Mark(v.(init := true, total := |v.alloc|, list := [Blk(v.base, |v.alloc|)]), v.base, 1, true)
  }

  /** vmhgetmem */
  function GetMem(v0: VHeap, msize: nat): (VHeap, int) {
    var v := Init(v0);
    if msize == 0 || v.total == 0 then (v, SYSERR)
    else
      match Get(v.list, msize)
      case None => (v, SYSERR)
      case Some((r, a)) =>
        var v1 := v.(list := r, total := v.total - msize);
        var v2 := if v.list[FirstFit(v.list, msize)].n > msize then Mark(v1, a + msize, 1, true) else v1;
        (Mark(v2, a, msize, true), a)
  }

  /** vmhfreemem, as far as it reads the marks of the heap's own pages. */
  function FreeMem(v0: VHeap, a: int, msize: nat): (VHeap, int) {
    var v := Init(v0);
    if msize == 0 || a < v.base || a > Limit(v) then (v, SYSERR)
    else if exists x :: a <= x < a + msize && !Alloc(v, x) then (v, SYSERR)
    else
      match Put(v.list, a, msize)
      case None => (v, SYSERR)
      case Some(r) =>
        var v1 := v.(list := r, total := v.total + msize);
        (if Left(v.list, Pos(v.list, a), a) then Mark(v1, a, msize, false) else Mark(v1, a + 1, msize - 1, false), OK)
  }

  /** vmhfreemem reads no mark beyond the last page: the block ends inside the heap, or a page before
      the end is not allocated. */
  ghost predicate ReadsInside(v: VHeap, a: int, msize: nat) {
    v.base <= a <= Limit(v) && a + msize > Limit(v) ==> exists x :: a <= x < Limit(v) && !Alloc(Init(v), x)
  }

  /** A process that has not used its heap. */
  function Unused(base: int, pages: nat): VHeap { VHeap(base, false, 0, [], seq(pages, _ => false)) }

  /** Every page that is not free, and every page that holds a node, is marked in pralloc. */
  ghost predicate Inv(v: VHeap) {
    && 0 < v.base
    && (v.init ==>
          && Canon(v.list, v.base, Limit(v)) && v.total == Total(v.list)
          && (forall x :: v.base <= x < Limit(v) && !Free(v.list, x) ==> Alloc(v, x))
          && (forall i :: 0 <= i < |v.list| ==> Alloc(v, v.list[i].a)))
  }

  lemma InitInv(v: VHeap)
    requires Inv(v) && |v.alloc| > 0
    ensures Inv(Init(v)) && Init(v).init && Init(v).base == v.base && Limit(Init(v)) == Limit(v)
  {
    if !v.init {
      var w := Init(v);
      forall x { FreeOne(Blk(v.base, |v.alloc|), x); }
      TotalSingle(Blk(v.base, |v.alloc|));
      MarkAt(v.(init := true, total := |v.alloc|, list := w.list), v.base, 1, true, v.base);
    }
  }

  lemma NothingFree(s: seq<Blk>, lo: int, hi: int)
    requires Canon(s, lo, hi) && Total(s) == 0
    ensures s == []
  {
    if s != [] { TotalPos(s[1..], lo, hi); }
  }

  lemma TotalPos(s: seq<Blk>, lo: int, hi: int)
    requires Canon(s, lo, hi)
    ensures Total(s) >= 0
  {
    if s != [] { TotalPos(s[1..], lo, hi); }
  }

  /** vmhgetmem when block i is the one it takes from. */
  lemma GetShape(u: VHeap, msize: nat)
    requires u.init && msize > 0 && u.total != 0 && Get(u.list, msize).Some?
    ensures var i := FirstFit(u.list, msize); i < |u.list| && u.list[i].n >= msize && GetMem(u, msize).1 == u.list[i].a
    ensures var w := GetMem(u, msize).0;
      && w.init && w.base == u.base && |w.alloc| == |u.alloc| && w.total == u.total - msize
      && w.list == Get(u.list, msize).value.0
      && Get(u.list, msize).value.1 == GetMem(u, msize).1
    ensures var i := FirstFit(u.list, msize);
      Get(u.list, msize).value.0
      == if u.list[i].n == msize then u.list[..i] + u.list[i + 1..]
      else u.list[i := Blk(u.list[i].a + msize, u.list[i].n - msize)]
    ensures forall x :: u.base <= x < Limit(u) ==>
      var b := u.list[FirstFit(u.list, msize)];
      (Alloc(GetMem(u, msize).0, x) <==> Alloc(u, x) || b.a <= x < b.a + msize || (b.n > msize && x == b.a + msize))
  {
    hide Canon, Free, Total, FirstFit;
  }

  lemma GetMarks(u: VHeap, msize: nat)
    requires Inv(u) && u.init && msize > 0 && Get(u.list, msize).Some? && u.total != 0
    ensures Inv(GetMem(u, msize).0)
    ensures var a := GetMem(u, msize).1;
      && a >= u.base && (forall x :: a <= x < a + msize ==> Free(u.list, x) && Alloc(GetMem(u, msize).0, x))
      && (forall x :: Free(GetMem(u, msize).0.list, x) <==> Free(u.list, x) && !(a <= x < a + msize))
  {
    hide Canon, Free, Total, FirstFit, Get, GetMem;
    var w, a := GetMem(u, msize).0, GetMem(u, msize).1;
    var i := FirstFit(u.list, msize);
    GetShape(u, msize);
    GetOk(u.list, u.base, Limit(u), msize);
    CanonAt2(u.list, u.base, Limit(u), i);
    forall j | 0 <= j < |w.list| ensures Alloc(w, w.list[j].a) {
      var m := if u.list[i].n > msize || j < i then j else j + 1;
      CanonAt2(u.list, u.base, Limit(u), m);
      assert m != i ==> w.list[j] == u.list[m] && Alloc(u, u.list[m].a);
    }
    forall x | u.base <= x < Limit(u) && !Free(w.list, x) ensures Alloc(w, x) {}
  }

  /** vmhgetmem returns pages that were free and marks them; it fails exactly when there is no
      block of that many pages, and then only vmhinit has changed anything. */
  lemma GetMemOk(v: VHeap, msize: nat)
    requires Inv(v) && |v.alloc| > 0
    ensures Inv(GetMem(v, msize).0)
    ensures var r := GetMem(v, msize).1;
      && (r == SYSERR <==> msize == 0 || forall i :: 0 <= i < |Init(v).list| ==> Init(v).list[i].n < msize)
      && (r == SYSERR ==> GetMem(v, msize).0 == Init(v))
      && (r != SYSERR ==> forall x :: r <= x < r + msize ==> Free(Init(v).list, x) && Alloc(GetMem(v, msize).0, x))
      && (r != SYSERR ==> forall x :: Free(GetMem(v, msize).0.list, x) <==>
        Free(Init(v).list, x) && !(r <= x < r + msize))
  {
    hide Canon, Free, Total, FirstFit, Get, Init;
    InitInv(v);
    var u := Init(v);
    InitTwice(v);
    if msize > 0 {
      GetOk(u.list, u.base, Limit(u), msize);
      if u.total == 0 {
        NothingFree(u.list, u.base, Limit(u));
      } else if Get(u.list, msize).Some? {
        GetMarks(u, msize);
      }
    }
  }

  lemma InitTwice(v: VHeap)
    ensures Init(Init(v)) == Init(v)
  {}

  lemma CanonAt2(s: seq<Blk>, lo: int, hi: int, i: nat)
    requires Canon(s, lo, hi) && i < |s|
    ensures lo <= s[i].a && s[i].n > 0 && End(s[i]) <= hi
  {}

  // ---- vmhfreemem ----

  /** The places of the list that a freed block replaces. */
  function From(s: seq<Blk>, k: nat, a: int): (i: nat)
    requires k <= |s|
    ensures i <= k
  {
    if Left(s, k, a) then k - 1 else k
  }

  function To(s: seq<Blk>, k: nat, e: int): (j: nat)
    requires k <= |s|
    ensures k <= j <= |s|
  {
    if Right(s, k, e) then k + 1 else k
  }

  lemma PutShape(s: seq<Blk>, lo: int, hi: int, a: int, n: int)
    requires Canon(s, lo, hi) && n > 0 && lo <= a && a + n <= hi && Put(s, a, n).Some?
    ensures var k := Pos(s, a);
      Put(s, a, n).value == s[..From(s, k, a)] + [Merged(s, k, a, n)] + s[To(s, k, a + n)..]
    ensures var k := Pos(s, a); Merged(s, k, a, n).a == if Left(s, k, a) then s[From(s, k, a)].a else a
    ensures var k := Pos(s, a); Left(s, k, a) ==> s[From(s, k, a)].a < a
    ensures var k := Pos(s, a);
      (forall m :: 0 <= m < k ==> s[m].a < a) && (forall m :: k <= m < |s| ==> a + n <= s[m].a)
    ensures var k := Pos(s, a); Right(s, k, a + n) ==> s[k].a == a + n < hi && Free(s, a + n)
  {
    var k := Pos(s, a);
    if Right(s, k, a + n) { assert Has(s[k], a + n); }
    if k < |s| {
      forall m | k <= m < |s| ensures a + n <= s[m].a {
        assert m == k || s[k].a < s[m].a;
      }
    }
  }

  /** vmhfreemem when it accepts the block. */
  lemma FreeShape(u: VHeap, a: int, msize: nat)
    requires u.init && u.base <= a && FreeMem(u, a, msize).1 == OK
    ensures msize > 0 && Put(u.list, a, msize).Some? && forall x :: a <= x < a + msize ==> Alloc(u, x)
    ensures var w := FreeMem(u, a, msize).0;
      && w.init && w.base == u.base && |w.alloc| == |u.alloc| && w.total == u.total + msize
      && w.list == Put(u.list, a, msize).value
    ensures forall x :: u.base <= x < Limit(u) ==>
      (Alloc(FreeMem(u, a, msize).0, x) <==>
       if a <= x < a + msize then x == a && !Left(u.list, Pos(u.list, a), a) else Alloc(u, x))
  {
    hide Canon, Free, Total, Pos, Left, Put;
    var v1 := u.(list := Put(u.list, a, msize).value, total := u.total + msize);
    forall x | u.base <= x < Limit(u)
      ensures Alloc(FreeMem(u, a, msize).0, x) <==>
              if a <= x < a + msize then x == a && !Left(u.list, Pos(u.list, a), a) else Alloc(u, x) {
      assert Alloc(v1, x) <==> Alloc(u, x);
      MarkAt(v1, a, msize, false, x);
      MarkAt(v1, a + 1, msize - 1, false, x);
    }
  }

  lemma FreeInv(u: VHeap, a: int, msize: nat)
    requires Inv(u) && u.init && u.base <= a && a + msize <= Limit(u) && FreeMem(u, a, msize).1 == OK
    ensures Inv(FreeMem(u, a, msize).0)
    ensures forall x :: Free(FreeMem(u, a, msize).0.list, x) <==> Free(u.list, x) || a <= x < a + msize
  {
    hide Canon, Free, Total, Pos, Left, Right, Put, FreeMem, Merged;
    FreeShape(u, a, msize);
    var w := FreeMem(u, a, msize).0;
    PutOk(u.list, u.base, Limit(u), a, msize);
    PutShape(u.list, u.base, Limit(u), a, msize);
    var k := Pos(u.list, a);
    var i, j := From(u.list, k, a), To(u.list, k, a + msize);
    forall m | 0 <= m < |w.list| ensures Alloc(w, w.list[m].a) {
      if m != i {
        var q := if m < i then m else m - i - 1 + j;
        assert w.list[m] == u.list[q] && Alloc(u, u.list[q].a);
      } else if Left(u.list, k, a) {
        assert Alloc(u, u.list[i].a);
      } else {
        assert w.list[m].a == a && Alloc(u, a);
      }
    }
  }

  /** vmhfreemem accepts a block exactly when none of its pages is free, and then
      they all become free; nothing else does. */
  lemma FreeMemOk(v: VHeap, a: int, msize: nat)
    requires Inv(v) && |v.alloc| > 0 && ReadsInside(v, a, msize)
    ensures Inv(FreeMem(v, a, msize).0)
    ensures FreeMem(v, a, msize).1 == OK <==>
      msize > 0 && v.base <= a <= Limit(v) && forall x :: a <= x < a + msize ==> !Free(Init(v).list, x)
    ensures FreeMem(v, a, msize).1 != OK ==> FreeMem(v, a, msize) == (Init(v), SYSERR)
    ensures FreeMem(v, a, msize).1 == OK ==>
      forall x :: Free(FreeMem(v, a, msize).0.list, x) <==> Free(Init(v).list, x) || a <= x < a + msize
  {
    hide Canon, Free, Total, Pos, Left, Right, Put, Init, Merged, Limit;
    InitInv(v);
    InitTwice(v);
    var u := Init(v);
    SameAsInit(v, a, msize);
    if a + msize > Limit(v) {
      Refused(v, a, msize);
    } else if msize > 0 && v.base <= a <= Limit(v) {
      PutOk(u.list, u.base, Limit(u), a, msize);
      if FreeMem(u, a, msize).1 == OK { FreeInv(u, a, msize); }
    }
  }

  /** The page that is not allocated is free. */
  lemma Refused(v: VHeap, a: int, msize: nat)
    requires Inv(v) && |v.alloc| > 0 && ReadsInside(v, a, msize) && a + msize > Limit(v)
    ensures FreeMem(v, a, msize) == (Init(v), SYSERR)
    ensures v.base <= a <= Limit(v) ==> exists x :: a <= x < a + msize && Free(Init(v).list, x)
  {
    hide Canon, Free, Total, Put, Init;
    InitInv(v);
    if v.base <= a <= Limit(v) {
      var x :| a <= x < Limit(v) && !Alloc(Init(v), x);
      assert Free(Init(v).list, x);
    }
  }

  lemma SameAsInit(v: VHeap, a: int, msize: nat)
    ensures FreeMem(v, a, msize) == FreeMem(Init(v), a, msize)
  {
    hide Init, Put, Alloc;
    InitTwice(v);
  }

  // ---- pages marked without need ----

  /** pralloc marks nothing but the pages that are not free and those that hold nodes. */
  ghost predicate Exact(v: VHeap) {
    forall x :: v.base <= x < Limit(v) && Alloc(v, x) ==> !Free(v.list, x) || Node(v, x)
  }

  ghost predicate Node(v: VHeap, x: int) { exists i :: 0 <= i < |v.list| && v.list[i].a == x }

  lemma NodeIn(v: VHeap, i: nat)
    requires i < |v.list|
    ensures Node(v, v.list[i].a)
  {}

  /** When a freed block merges with the block behind it, the page of that block's node stays
      marked though it is free and holds no node any more: pralloc stays exact exactly when there
      is no such merge. */
  lemma FreeExact(u: VHeap, a: int, msize: nat)
    requires Inv(u) && u.init && u.base <= a && a + msize <= Limit(u) && FreeMem(u, a, msize).1 == OK && Exact(u)
    ensures Exact(FreeMem(u, a, msize).0) <==> !Right(u.list, Pos(u.list, a), a + msize)
  {
    hide Canon, Free, Total, Pos, Left, Right, Put, FreeMem, Merged, Node, Inv;
    InvCanon(u);
    FreeInv(u, a, msize);
    FreeShape(u, a, msize);
    PutShape(u.list, u.base, Limit(u), a, msize);
    var w := FreeMem(u, a, msize).0;
    var k := Pos(u.list, a);
    if Right(u.list, k, a + msize) {
      GoneNode(u.list, u.base, Limit(u), a, msize, w);
    } else {
      forall x | u.base <= x < Limit(u) && Alloc(w, x) && Free(w.list, x) ensures Node(w, x) {
        KeptNode(u, a, msize, w, x);
      }
    }
  }

  lemma InvCanon(u: VHeap)
    requires Inv(u) && u.init
    ensures Canon(u.list, u.base, Limit(u)) && forall i :: 0 <= i < |u.list| ==> Alloc(u, u.list[i].a)
  {}

  /** The node behind the freed block is not a node of the new list. */
  lemma GoneNode(s: seq<Blk>, lo: int, hi: int, a: int, n: int, w: VHeap)
    requires Canon(s, lo, hi) && n > 0 && lo <= a && a + n <= hi && Put(s, a, n).Some? && w.list == Put(s, a, n).value
    requires Right(s, Pos(s, a), a + n)
    ensures !Node(w, a + n)
  {
    var k := Pos(s, a);
    assert forall m :: k < m < |s| ==> s[k].a < s[m].a;
  }

  lemma KeptNode(u: VHeap, a: int, n: nat, w: VHeap, x: int)
    requires Canon(u.list, u.base, Limit(u)) && n > 0 && u.base <= a && a + n <= Limit(u) && Put(u.list, a, n).Some?
    requires w.list == Put(u.list, a, n).value && !Right(u.list, Pos(u.list, a), a + n)
    requires if a <= x < a + n then x == a && !Left(u.list, Pos(u.list, a), a) else !Free(u.list, x) || Node(u, x)
    requires Free(w.list, x)
    ensures Node(w, x)
  {
    hide Canon, Free, Total, Merged, Put, Pos;
    PutFree(u.list, u.base, Limit(u), a, n, x);
    PutShape(u.list, u.base, Limit(u), a, n);
    var k := Pos(u.list, a);
    var i := From(u.list, k, a);
    if a <= x < a + n {
      assert w.list[i].a == x;
    } else {
      var m :| 0 <= m < |u.list| && u.list[m].a == x;
      assert m < i ==> w.list[m] == u.list[m];
      assert m == i < k ==> w.list[m].a == u.list[m].a;
      assert m >= k ==> w.list[m - k + i + 1] == u.list[m];
    }
  }

  // ---- runs ----

  datatype Op = Take(msize: nat) | Give(a: int, msize: nat)

  /** The pages a process holds after a call, when it held `held`. */
  function Held(held: set<int>, v: VHeap, op: Op): set<int> {
    match op
    case Take(msize) =>
      var r := GetMem(v, msize).1;
      if r == SYSERR then held else held + Pages(r, msize)
    case Give(a, msize) => if FreeMem(v, a, msize).1 == OK then held - Pages(a, msize) else held
  }

  function Pages(a: int, n: nat): (s: set<int>)
    ensures forall x :: x in s <==> a <= x < a + n
    decreases n
  {
    if n == 0 then {} else {a} + Pages(a + 1, n - 1)
  }

  function Call(v: VHeap, op: Op): VHeap {
    match op case Take(msize) => GetMem(v, msize).0 case Give(a, msize) => FreeMem(v, a, msize).0
  }

  /** The call reads no marks beyond the heap. */
  ghost predicate Inside(v: VHeap, op: Op) { op.Give? ==> ReadsInside(v, op.a, op.msize) }

  ghost predicate AllInside(v: VHeap, ops: seq<Op>)
    decreases |ops|
  {
    ops != [] ==> Inside(v, ops[0]) && AllInside(Call(v, ops[0]), ops[1..])
  }

  function Run(v: VHeap, held: set<int>, ops: seq<Op>): (VHeap, set<int>)
    decreases |ops|
  {
    if ops == [] then (v, held) else Run(Call(v, ops[0]), Held(held, v, ops[0]), ops[1..])
  }

  /** The pages held and the free pages partition the heap. */
  ghost predicate Split(v: VHeap, held: set<int>) {
    if v.init then forall x :: x in held <==> v.base <= x < Limit(v) && !Free(v.list, x) else held == {}
  }

  lemma InitSplit(v: VHeap, held: set<int>)
    requires Inv(v) && |v.alloc| > 0 && Split(v, held)
    ensures Split(Init(v), held)
  {
    forall x { FreeOne(Blk(v.base, |v.alloc|), x); }
  }

  lemma TakeOk(v: VHeap, held: set<int>, msize: nat)
    requires Inv(v) && |v.alloc| > 0 && Split(v, held)
    ensures Inv(Call(v, Take(msize))) && Split(Call(v, Take(msize)), Held(held, v, Take(msize)))
  {
    hide Init, GetMem, FreeMem, Free, Inv, Limit;
    InitSplit(v, held);
    CallFrame(v, Take(msize));
    InitInv(v);
    GetMemOk(v, msize);
    var w, r := GetMem(v, msize).0, GetMem(v, msize).1;
    LimitSame(v, w);
    LimitSame(v, Init(v));
    forall x ensures x in Held(held, v, Take(msize)) <==> w.base <= x < Limit(w) && !Free(w.list, x) {
      if r != SYSERR && r <= x < r + msize { FreeIn(Init(v), x); }
    }
  }

  lemma GiveOk(v: VHeap, held: set<int>, a: int, msize: nat)
    requires Inv(v) && |v.alloc| > 0 && Split(v, held) && Inside(v, Give(a, msize))
    ensures Inv(Call(v, Give(a, msize))) && Split(Call(v, Give(a, msize)), Held(held, v, Give(a, msize)))
    ensures FreeMem(v, a, msize).1 == OK <==> msize > 0 && v.base <= a <= Limit(v) && Pages(a, msize) <= held
  {
    hide Init, GetMem, FreeMem, Free, Inv, Limit;
    InitSplit(v, held);
    CallFrame(v, Give(a, msize));
    InitInv(v);
    FreeMemOk(v, a, msize);
    LimitSame(v, Call(v, Give(a, msize)));
    LimitSame(v, Init(v));
    if FreeMem(v, a, msize).1 != OK && msize > 0 && v.base <= a <= Limit(v) {
      var x :| a <= x < a + msize && Free(Init(v).list, x);
      assert x in Pages(a, msize) && x !in held;
    }
  }

  lemma LimitSame(v: VHeap, w: VHeap)
    requires w.base == v.base && |w.alloc| == |v.alloc|
    ensures Limit(w) == Limit(v)
  {}

  lemma CallOk(v: VHeap, held: set<int>, op: Op)
    requires Inv(v) && |v.alloc| > 0 && Split(v, held) && Inside(v, op)
    ensures Inv(Call(v, op)) && Split(Call(v, op), Held(held, v, op))
    ensures Call(v, op).base == v.base && |Call(v, op).alloc| == |v.alloc|
  {
    hide Inv, Split, Call, Held, Inside;
    CallFrame(v, op);
    match op {
      case Take(msize) => TakeOk(v, held, msize);
      case Give(a, msize) => GiveOk(v, held, a, msize);
    }
  }

  lemma FreeIn(u: VHeap, x: int)
    requires Inv(u) && u.init && Free(u.list, x)
    ensures u.base <= x < Limit(u)
  {}

  lemma CallFrame(v: VHeap, op: Op)
    ensures Call(v, op).base == v.base && |Call(v, op).alloc| == |v.alloc|
    ensures Call(v, op).init && Init(v).base == v.base && |Init(v).alloc| == |v.alloc|
  {
    hide Get, Put, FirstFit, Pos, Left, Alloc;
  }

  /** From an unused heap on, over any run: pages are held or free, what is held is exactly what has
      been obtained and not given back, and every page held and every page with a node is marked
      in pralloc. */
  lemma {:induction false} RunOk(v: VHeap, held: set<int>, ops: seq<Op>)
    requires Inv(v) && |v.alloc| > 0 && Split(v, held) && AllInside(v, ops)
    ensures Inv(Run(v, held, ops).0) && Split(Run(v, held, ops).0, Run(v, held, ops).1)
    decreases |ops|
  {
    hide Inv, Split, Call, Held, Inside;
    if ops != [] {
      CallOk(v, held, ops[0]);
      RunOk(Call(v, ops[0]), Held(held, v, ops[0]), ops[1..]);
    }
  }

  // ---- the program ----

  class VirtualHeap {
    const base: int
    var prmeminit: bool
    /** prmemblk and its nodes; an empty list before vmhinit. */
    var prmemblk: NodeList
    const pralloc: array<bool>

    ghost predicate Valid() reads this, prmemblk, pralloc {
      && base > 0 && pralloc.Length > 0 && base + pralloc.Length < PAGES && prmemblk.lo == base
      && prmemblk.hi == base + pralloc.Length
      && prmemblk.Valid() && prmemblk.space == PAGES
    }

    ghost function View(): VHeap
      reads this, prmemblk, pralloc
    {
      if prmeminit then VHeap(base, true, Total(prmemblk.list), prmemblk.list, pralloc[..])
      else VHeap(base, false, 0, [], pralloc[..])
    }

    /** A process that has not used its heap; its list is made by vmhinit. */
    constructor (base: int, pages: nat)
      requires base > 0 && pages > 0 && base + pages < PAGES
      ensures Valid() && View() == Unused(base, pages) && fresh(prmemblk) && fresh(pralloc)
    {
      this.base, prmeminit := base, false;
      pralloc := new bool[pages](_ => false);
      prmemblk := new NodeList(base, base + pages, PAGES, 0, 0);
      new;
      assert pralloc[..] == seq(pages, _ => false);
    }

    method VmhInit()
      requires Valid()
      modifies this`prmeminit, this`prmemblk, pralloc
      ensures Valid() && View() == Init(old(View())) && prmeminit
      ensures prmemblk == old(prmemblk) || fresh(prmemblk)
    {
      if prmeminit {
        return;
      }
      pralloc[0] := true;
      prmemblk := new NodeList(base, base + pralloc.Length, PAGES, 0, 0);
      prmeminit := true;
      TotalSingle(Blk(base, pralloc.Length));
      assert pralloc[..] == Init(old(View())).alloc;
    }

    /** __set_pages_allocated, and the loop of __set_pages_deallocated as far as pralloc is
        concerned; `skip` leaves the first page alone. */
    method SetPages(a: int, msize: nat, skip: bool, b: bool)
      requires base <= a && a + msize <= base + pralloc.Length
      modifies pralloc
      ensures pralloc[..] == if skip && msize > 0 then Marks(old(pralloc[..]), base, a + 1, msize - 1, b)
      else Marks(old(pralloc[..]), base, a, msize, b)
    {
      ghost var from := if skip then a + 1 else a;
      var i := 0;
      while i < msize
        invariant 0 <= i <= msize
        invariant forall x :: 0 <= x < pralloc.Length ==>
          pralloc[x] == if from <= base + x < a + i then b else old(pralloc[x])
      {
        if !(i == 0 && skip) {
          pralloc[a + i - base] := b;
        }
        i := i + 1;
      }
      assert pralloc[..] == (if skip && msize > 0 then Marks(old(pralloc[..]), base, a + 1, msize - 1, b)
      else Marks(old(pralloc[..]), base, a, msize, b));
    }

    /** The pages that may be touched: the fault handler gives them a frame. */
    ghost function Marked(): iset<int> reads this, pralloc { iset x | HasMark(x) }

    ghost predicate HasMark(x: int) reads this, pralloc {
      base <= x < base + pralloc.Length && pralloc[x - base]
    }

    lemma NodesMarked()
      requires Valid() && prmeminit && Inv(View())
      ensures prmemblk.Within(Marked())
    {
      hide Canon, Free, Total, Rep;
      assert forall i :: 0 <= i < |prmemblk.list| ==> Alloc(View(), prmemblk.list[i].a);
    }

    /** vmhgetmem. Every node that is read or written lies in a page that is marked at that moment: the
        page of what is left of a split block is marked before the node is written. */
    method VmhGetMem(msize: nat) returns (r: int)
      requires Valid() && Inv(View())
      modifies this`prmeminit, this`prmemblk, prmemblk, pralloc
      ensures Valid() && View() == GetMem(old(View()), msize).0 && r == GetMem(old(View()), msize).1
    {
      hide Get, Rep, Canon, FirstFit, Init, Marks, Total, Free, Inv, TakenFrom, GetMem;
      InitInv(View());
      GetSame(View(), msize);
      VmhInit();
      ghost var u := View();
      Header(prmemblk.list, prmemblk.mnext, prmemblk.mlength);
      if msize == 0 || prmemblk.LengthAt(HEAD, Marked()) == 0 {
        return SYSERR;
      }
      NodesMarked();
      var prev, curr, i := prmemblk.FindFirst(msize, Marked());
      TakenIs(u, i, msize);
      if curr == NULL {
        return SYSERR;
      }
      CanonAt2(u.list, base, prmemblk.hi, i);
      TakeBlock(prev, curr, msize, i);
      r := curr;
    }

    /** The block found, or the front of it, is taken and marked. */
    method TakeBlock(prev: int, curr: int, msize: nat, ghost i: nat)
      requires Valid() && prmeminit && Inv(View()) && i < |prmemblk.list| && prev == Addr(prmemblk.list, i - 1)
      requires curr == prmemblk.list[i].a && prmemblk.list[i].n >= msize && base <= curr
        && curr + prmemblk.list[i].n <= base + pralloc.Length
      requires curr in prmemblk.mlength && prmemblk.mlength[curr] == prmemblk.list[i].n
      modifies prmemblk, pralloc
      ensures Valid() && View() == TakenFrom(old(View()), i, msize)
    {
      hide Rep, Canon, Marks, Total, Free, Inv;
      NodesMarked();
      TotalTaken(prmemblk.list, i, msize);
      if prmemblk.LengthAt(curr, Marked()) == msize {
        prmemblk.TakeWhole(prev, curr, msize, i, Marked());
      } else {
        MarkLeftover(curr + msize);
        prmemblk.TakeFront(prev, curr, msize, i, Marked());
      }
      SetPages(curr, msize, false, true);
    }

    /** The mark for the page of the node that is left. */
    method MarkLeftover(p: int)
      requires Valid() && base <= p < base + pralloc.Length
      modifies pralloc
      ensures Valid() && View() == Mark(old(View()), p, 1, true) && p in Marked()
      ensures old(prmemblk.Within(Marked())) ==> prmemblk.Within(Marked())
    {
      SetPages(p, 1, false, true);
    }

    /** vmhfreemem, up to the unmapping of the pages. Every node that is read or written lies in a page that
        is marked at that moment, also when the pages of the block are given up before the merge with the
        block behind it. */
    method VmhFreeMem(blkaddr: int, msize: nat) returns (st: int)
      requires Valid() && Inv(View()) && ReadsInside(View(), blkaddr, msize)
      modifies this`prmeminit, this`prmemblk, prmemblk, pralloc
      ensures Valid() && View() == FreeMem(old(View()), blkaddr, msize).0
        && st == FreeMem(old(View()), blkaddr, msize).1
    {
      hide Put, Rep, Canon, Pos, Init, Marks, Total, Free, NodesOk, Given, ReadsInside, Left, Inv, Refuses, LinkedAs;
      ReadsInit(View(), blkaddr, msize);
      SameAsInit(View(), blkaddr, msize);
      InitInv(View());
      VmhInit();
      ghost var u := View();
      if msize == 0 || blkaddr < base || blkaddr > base + pralloc.Length {
        return SYSERR;
      }
      var all := AllMarked(blkaddr, msize);
      if !all {
        return SYSERR;
      }
      NodesMarked();
      var ok := GiveBlock(blkaddr, msize);
      st := if ok then OK else SYSERR;
    }

    /** Whether all pages are allocated. */
    method AllMarked(blkaddr: int, msize: nat) returns (all: bool)
      requires Valid() && prmeminit && ReadsInside(View(), blkaddr, msize)
      requires msize > 0 && base <= blkaddr <= base + pralloc.Length
      ensures all <==> forall x :: blkaddr <= x < blkaddr + msize ==> Alloc(View(), x)
      ensures all ==> blkaddr + msize <= base + pralloc.Length
    {
      hide ReadsInside, Canon, Rep, Init, Total;
      var i := 0;
      while i < msize
        invariant 0 <= i <= msize && blkaddr + i <= base + pralloc.Length
        invariant forall x :: blkaddr <= x < blkaddr + i ==> Alloc(View(), x)
      {
        InHeap(View(), blkaddr, msize, i);
        if !pralloc[blkaddr + i - base] {
          assert !Alloc(View(), blkaddr + i);
          return false;
        }
        i := i + 1;
      }
      all := true;
    }

    /** The walk, the link, the marks, and the merge with the block behind. */
    method GiveBlock(blkaddr: int, msize: nat) returns (ok: bool)
      requires Valid() && prmeminit && Inv(View()) && msize > 0 && base <= blkaddr
      requires blkaddr + msize <= base + pralloc.Length
      requires forall x :: blkaddr <= x < blkaddr + msize ==> Alloc(View(), x)
      modifies prmemblk, pralloc
      ensures Valid() && View() == FreeMem(old(View()), blkaddr, msize).0
      ensures (if ok then OK else SYSERR) == FreeMem(old(View()), blkaddr, msize).1
    {
      hide Put, Rep, Canon, Pos, Init, Marks, Total, Free, NodesOk, Given, Left, Inv, Refuses, LinkedAs, FreeMem;
      ghost var u, m := View(), prmemblk.Fields();
      NodesMarked();
      assert blkaddr in Marked() by { assert Alloc(View(), blkaddr); }
      PutFitsIf(u.list, base, prmemblk.hi, blkaddr, msize, PAGES);
      FreeIs(u, blkaddr, msize);
      var merged, b, next;
      ok, merged, b, next := prmemblk.GiveLink(blkaddr, msize, Marked());
      if ok {
        GiveOutcome(m, u.list, base, prmemblk.hi, blkaddr, msize, PAGES);
        MergeTouches(u.list, m, prmemblk.Fields(), base, prmemblk.hi, blkaddr, msize, merged, b, next);
        GiveUp(blkaddr, msize, merged);
        prmemblk.MergeNext(b, next, Marked());
        prmemblk.list := Put(u.list, blkaddr, msize).value;
      }
    }

    /** The pages lose their marks, but for the one with the new node. */
    method GiveUp(a: int, msize: nat, merged: bool)
      requires base <= a && a + msize <= base + pralloc.Length && msize > 0
      modifies pralloc
      ensures pralloc[..] == if merged then Marks(old(pralloc[..]), base, a, msize, false)
      else Marks(old(pralloc[..]), base, a + 1, msize - 1, false)
      ensures forall x :: x in old(Marked()) && (a <= x < a + msize ==> x == a && !merged) ==> x in Marked()
    {
      SetPages(a, msize, !merged, false);
      assert forall i :: 0 <= i < pralloc.Length ==> pralloc[i] == pralloc[..][i];
    }
  }

  /** What vmhgetmem makes of block i. */
  function TakenFrom(v: VHeap, i: nat, msize: nat): VHeap
    requires i < |v.list|
  {
    var b := v.list[i];
    var v1 := v.(total := v.total - msize);
    if b.n == msize then Mark(v1.(list := v.list[..i] + v.list[i + 1..]), b.a, msize, true)
    else Mark(Mark(v1.(list := v.list[i := Blk(b.a + msize, b.n - msize)]), b.a + msize, 1, true), b.a, msize, true)
  }

  lemma GetSame(v: VHeap, msize: nat)
    ensures GetMem(v, msize) == GetMem(Init(v), msize)
    ensures msize == 0 || Init(v).total == 0 ==> GetMem(v, msize) == (Init(v), SYSERR)
  {
    hide Init, Get, FirstFit;
    InitTwice(v);
  }

  lemma TakenIs(u: VHeap, i: nat, msize: nat)
    requires u.init && i <= |u.list| && (forall j :: 0 <= j < i ==> u.list[j].n < msize)
    requires msize > 0 && u.total != 0 && (i < |u.list| ==> u.list[i].n >= msize)
    ensures i < |u.list| ==> GetMem(u, msize) == (TakenFrom(u, i, msize), u.list[i].a)
    ensures i == |u.list| ==> GetMem(u, msize) == (u, SYSERR)
  {
    hide Get, FirstFit, Marks;
    GetIs(u.list, msize, i);
  }

  lemma TotalTaken(s: seq<Blk>, i: nat, n: nat)
    requires i < |s| && n <= s[i].n
    ensures n == s[i].n ==> Total(s[..i] + s[i + 1..]) == Total(s) - n
    ensures Total(s[i := Blk(s[i].a + n, s[i].n - n)]) == Total(s) - n
  {
    var b := Blk(s[i].a + n, s[i].n - n);
    assert s == s[..i] + [s[i]] + s[i + 1..];
    assert s[i := b] == s[..i] + [b] + s[i + 1..];
    TotalPut(s[..i], s[i], s[i + 1..]);
    TotalPut(s[..i], b, s[i + 1..]);
  }

  lemma {:induction false} TotalPut(s: seq<Blk>, b: Blk, r: seq<Blk>)
    ensures Total(s + [b] + r) == Total(s + r) + b.n
  {
    if s == [] {
      assert [b] + r == [] + [b] + r && ([b] + r)[1..] == r && [] + r == r;
    } else {
      assert (s + [b] + r)[1..] == s[1..] + [b] + r && (s + r)[1..] == s[1..] + r;
      TotalPut(s[1..], b, r);
    }
  }

  /** vmhfreemem of pages that are all allocated. */
  lemma FreeIs(u: VHeap, a: int, msize: nat)
    requires u.init && msize > 0 && u.base <= a && a + msize <= Limit(u) && u.total == Total(u.list)
    requires forall x :: a <= x < a + msize ==> Alloc(u, x)
    ensures Put(u.list, a, msize).None? ==> FreeMem(u, a, msize) == (u, SYSERR)
    ensures Put(u.list, a, msize).Some? ==>
      var v1 := u.(list := Put(u.list, a, msize).value, total := Total(Put(u.list, a, msize).value));
      FreeMem(u, a, msize) == (if Left(u.list, Pos(u.list, a), a) then Mark(v1, a, msize, false)
                               else Mark(v1, a + 1, msize - 1, false), OK)
  {
    hide Put, Pos, Left, Marks, Total;
    if Put(u.list, a, msize).Some? { PutTotal(u.list, a, msize); }
  }

  /** The nodes that the merge touches lie in no page that has just been given up. */
  lemma MergeTouches(s: seq<Blk>, m: Nodes, m1: Nodes, lo: int, hi: int, a: int, n: int, merged: bool, b: int,
    next: int)
    requires NodesOk(m, s) && Canon(s, lo, hi) && 0 < lo <= a && 0 < n && a + n <= hi < PAGES && Put(s, a, n).Some?
    requires LinkedAs(m, m1, s, a, n, PAGES, merged, b, next)
    ensures b in m1.len && next in m1.next && next in m1.len && (merged <==> Left(s, Pos(s, a), a))
    ensures MergeRight(m1, b, next, PAGES) == Given(m, s, a, n, PAGES)
    ensures if merged then b < a && exists i :: 0 <= i < |s| && s[i].a == b else b == a
    ensures Wrap(b + m1.len[b], PAGES) == next ==> a + n <= next && exists i :: 0 <= i < |s| && s[i].a == next
  {
    hide Put, Given, Refuses, MergeRight;
    var k := Pos(s, a);
    PutShape(s, lo, hi, a, n);
    AddrIn(m, s, k as int - 1);
    if merged {
      NodeAt(s, k - 1, m.next, m.len);
      CanonAt2(s, lo, hi, k - 1);
    }
  }

  lemma ReadsInit(v: VHeap, a: int, msize: nat)
    requires ReadsInside(v, a, msize)
    ensures ReadsInside(Init(v), a, msize)
  {
    hide Init, Alloc;
    InitTwice(v);
    InitLimit(v);
  }

  lemma InitLimit(v: VHeap)
    ensures Init(v).base == v.base && Limit(Init(v)) == Limit(v)
  {}

  lemma InHeap(u: VHeap, a: int, msize: nat, i: nat)
    requires u.init && ReadsInside(u, a, msize) && u.base <= a && a + i <= Limit(u) && i < msize
    requires forall x :: a <= x < a + i ==> Alloc(u, x)
    ensures a + i < Limit(u)
  {}
}
