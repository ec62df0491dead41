/** getmem, getstk, freemem and freestk over whole runs: live blocks never overlap, and when all of
    them have been given back the heap is one free block again. */
module HeapRun {
  import opened Kernel
  import opened Wrappers
  import opened FreeList

  const MAX_REQUEST := 0xffff_fff8
  const WORD := 4

  /** roundmb in 32 bits. */
  function RoundMb(x: int): (r: int)
    requires 0 <= x < TWO32
    ensures 0 <= r < TWO32 && r % 8 == 0
    ensures x <= MAX_REQUEST <==> x <= r
    ensures x <= MAX_REQUEST ==> r < x + 8
    ensures x > MAX_REQUEST ==> r == 0
  {
    (x + 7) % TWO32 / 8 * 8
  }

  /** A request within seven bytes of 2^32 is rounded to nothing: what getmem or getstk then returns
      is still free. For all others it is the caller's alone. */
  lemma GetExact(s: seq<Blk>, lo: int, hi: int, nbytes: int)
    requires Canon(s, lo, hi) && 0 < nbytes < TWO32
    ensures Get(s, RoundMb(nbytes)).Some? ==>
      (Owned(s, Get(s, RoundMb(nbytes)).value.0, Get(s, RoundMb(nbytes)).value.1, nbytes) <==> nbytes <= MAX_REQUEST)
    ensures GetTop(s, RoundMb(nbytes)).Some? ==>
      (Owned(s, GetTop(s, RoundMb(nbytes)).value.0, GetTop(s, RoundMb(nbytes)).value.1, nbytes) <==>
        nbytes <= MAX_REQUEST)
  {
    hide Canon, Free, Get, GetTop;
    var n := RoundMb(nbytes);
    if n > 0 {
      GetOk(s, lo, hi, n);
      GetTopOk(s, lo, hi, n);
    } else {
      GetNothing(s, lo, hi);
    }
  }

  /** n bytes from a on were free in s and are not in r. */
  ghost predicate Owned(s: seq<Blk>, r: seq<Blk>, a: int, n: int) {
    forall x :: a <= x < a + n ==> Free(s, x) && !Free(r, x)
  }

  /** Taking no bytes leaves the list alone; the address is the first block's, or the end of the
      last. */
  lemma GetNothing(s: seq<Blk>, lo: int, hi: int)
    requires Canon(s, lo, hi)
    ensures Get(s, 0) == if s == [] then None else Some((s, s[0].a))
    ensures GetTop(s, 0) == if s == [] then None else Some((s, End(s[|s| - 1])))
    ensures s != [] ==> lo <= s[0].a <= hi && lo <= End(s[|s| - 1]) <= hi
    ensures forall a, n :: n > 0 ==> !Owned(s, s, a, n)
  {
    if s != [] {
      assert s[0 := Blk(s[0].a + 0, s[0].n - 0)] == s;
      assert s[|s| - 1 := Blk(s[|s| - 1].a, s[|s| - 1].n - 0)] == s;
    }
    forall a: int, n: int | n > 0 ensures !Owned(s, s, a, n) {
      assert Free(s, a) || !Free(s, a);
    }
  }

  // ---- runs ----

  /** What a caller holds: the pointer it got, the size it asked for, and from which routine. */
  datatype Live = Live(p: int, nbytes: int, stk: bool)

  /** The block behind it, as freemem and freestk compute it. */
  function Base(v: Live): int
    requires 0 <= v.nbytes < TWO32
  {
    if v.stk then v.p - RoundMb(v.nbytes) + WORD else v.p
  }

  function Block(v: Live): Blk
    requires 0 <= v.nbytes < TWO32
  {
    Blk(Base(v), RoundMb(v.nbytes))
  }

  datatype Heap = Heap(list: seq<Blk>, live: seq<Live>)

  datatype Op = GetMem(nbytes: int) | GetStk(nbytes: int) | FreeLive(i: nat)

  /** One call; None when freemem refuses a block of at least one byte, or leaves a node of length 0
      in the list. A request within seven bytes of 2^32 gets a pointer to no bytes; freestk hands
      its rounded size to freemem, which then returns at once. */
  function Step(h: Heap, op: Op): Option<Heap> {
    match op
    case GetMem(nbytes) =>
      if !(0 < nbytes < TWO32) then Some(h)
      else
        (match Get(h.list, RoundMb(nbytes))
         case None => Some(h)
         case Some((r, a)) => Some(Heap(r, h.live + [Live(a, nbytes, false)])))
    case GetStk(nbytes) =>
      if !(0 < nbytes < TWO32) then Some(h)
      else
        (match GetTop(h.list, RoundMb(nbytes))
         case None => Some(h)
         case Some((r, a)) => Some(Heap(r, h.live + [Live(a + RoundMb(nbytes) - WORD, nbytes, true)])))
    case FreeLive(i) =>
      if i >= |h.live| || !(0 < h.live[i].nbytes < TWO32) then Some(h)
      else
        var (v, b, rest) := (h.live[i], Block(h.live[i]), h.live[..i] + h.live[i + 1..]);
        if b.n == 0 && (v.stk || Put(h.list, b.a, 0).None?) then Some(Heap(h.list, rest))
        else if b.n == 0 && !Left(h.list, Pos(h.list, b.a), b.a) then None
        else
          match Put(h.list, b.a, b.n)
          case None => None
          case Some(r) => Some(Heap(r, rest))
  }

  /** What a caller can check: it does not hand to freemem a pointer that it got for a request within
      seven bytes of 2^32, unless the byte before it is free. */
  ghost predicate Safe(h: Heap, op: Op) {
    op.FreeLive? && op.i < |h.live| && h.live[op.i].nbytes > MAX_REQUEST ==>
      h.live[op.i].stk || Free(h.list, h.live[op.i].p - 1)
  }

  function Run(h: Heap, ops: seq<Op>): Option<Heap>
    decreases |ops|
  {
    if ops == [] then Some(h)
    else
      var h1 :- Step(h, ops[0]);
      Run(h1, ops[1..])
  }

  function LiveTotal(live: seq<Live>): int
    requires Sized(live)
  {
    if live == [] then 0 else RoundMb(live[0].nbytes) + LiveTotal(live[1..])
  }

  ghost predicate Sized(live: seq<Live>) { forall i :: 0 <= i < |live| ==> 0 < live[i].nbytes < TWO32 }

  /** Address x is in live block i. */
  ghost predicate In(live: seq<Live>, i: int, x: int) {
    0 <= i < |live| && 0 < live[i].nbytes < TWO32 && Has(Block(live[i]), x)
  }

  /** Every address of the heap is free or in exactly one live block. */
  ghost predicate Inv(h: Heap, lo: int, hi: int) {
    && Canon(h.list, lo, hi) && Sized(h.live)
    && (forall i, x :: In(h.live, i, x) ==> lo <= x < hi && !Free(h.list, x))
    && (forall i, j, x :: In(h.live, i, x) && In(h.live, j, x) ==> i == j)
    && (forall x :: lo <= x < hi ==> Free(h.list, x) || exists i :: In(h.live, i, x))
    && (forall i :: 0 <= i < |h.live| ==> lo <= Base(h.live[i]) && End(Block(h.live[i])) <= hi)
  }

  /** A block taken from the free list joins the live blocks. */
  lemma TakeLive(h: Heap, lo: int, hi: int, r: seq<Blk>, v: Live)
    requires Inv(h, lo, hi) && Canon(r, lo, hi) && 0 < v.nbytes < TWO32
    requires forall x :: Has(Block(v), x) ==> lo <= x < hi && Free(h.list, x)
    requires forall x :: Free(r, x) <==> Free(h.list, x) && !Has(Block(v), x)
    requires lo <= Base(v) && End(Block(v)) <= hi
    ensures Inv(Heap(r, h.live + [v]), lo, hi)
  {
    hide Free, Canon, Has, Block;
    var live := h.live + [v];
    forall i, x ensures In(live, i, x) <==> In(h.live, i, x) || (i == |h.live| && Has(Block(v), x)) {}
    forall x | lo <= x < hi ensures Free(r, x) || exists i :: In(live, i, x) {
      if !Free(r, x) {
        if Has(Block(v), x) {
          assert In(live, |h.live|, x);
        } else {
          var i :| In(h.live, i, x);
          assert In(live, i, x);
        }
      }
    }
  }

  /** A live block goes back to the free list. */
  lemma DropLive(h: Heap, lo: int, hi: int, r: seq<Blk>, k: nat)
    requires Inv(h, lo, hi) && Canon(r, lo, hi) && k < |h.live|
    requires forall x :: Free(r, x) <==> Free(h.list, x) || Has(Block(h.live[k]), x)
    ensures Inv(Heap(r, h.live[..k] + h.live[k + 1..]), lo, hi)
  {
    hide Free, Canon, Has, Block;
    var live := h.live[..k] + h.live[k + 1..];
    assert forall x :: In(h.live, k, x) <==> Has(Block(h.live[k]), x);
    forall i, x ensures In(live, i, x) <==> i >= 0 && In(h.live, if i < k then i else i + 1, x) {}
    forall x | lo <= x < hi ensures Free(r, x) || exists i :: In(live, i, x) {
      if !Free(r, x) {
        var i :| In(h.live, i, x);
        assert In(live, if i < k then i else i - 1, x);
      }
    }
  }

  lemma GetStep(h: Heap, lo: int, hi: int, nbytes: int)
    requires Inv(h, lo, hi) && 0 < nbytes < TWO32
    ensures Step(h, GetMem(nbytes)).Some? && Inv(Step(h, GetMem(nbytes)).value, lo, hi)
  {
    hide Free, Canon, In, Get;
    var n := RoundMb(nbytes);
    if Get(h.list, n).Some? {
      var r, a := Get(h.list, n).value.0, Get(h.list, n).value.1;
      if n > 0 {
        GetOk(h.list, lo, hi, n);
        InRange(h.list, lo, hi, a, n);
      } else {
        GetNothing(h.list, lo, hi);
      }
      TakeLive(h, lo, hi, r, Live(a, nbytes, false));
    }
  }

  lemma GetTopStep(h: Heap, lo: int, hi: int, nbytes: int)
    requires Inv(h, lo, hi) && 0 < nbytes < TWO32
    ensures Step(h, GetStk(nbytes)).Some? && Inv(Step(h, GetStk(nbytes)).value, lo, hi)
  {
    hide Free, Canon, In, GetTop;
    var n := RoundMb(nbytes);
    if GetTop(h.list, n).Some? {
      var r, a := GetTop(h.list, n).value.0, GetTop(h.list, n).value.1;
      if n > 0 {
        GetTopOk(h.list, lo, hi, n);
        InRange(h.list, lo, hi, a, n);
      } else {
        GetNothing(h.list, lo, hi);
      }
      TakeLive(h, lo, hi, r, Live(a + n - WORD, nbytes, true));
    }
  }

  lemma InRange(s: seq<Blk>, lo: int, hi: int, a: int, n: int)
    requires Canon(s, lo, hi) && n > 0 && forall x :: a <= x < a + n ==> Free(s, x)
    ensures lo <= a && a + n <= hi
  {
    CanonIn(s, lo, hi, a);
    CanonIn(s, lo, hi, a + n - 1);
  }

  /** Giving back what getmem or getstk returned, through freemem or freestk, succeeds exactly when
      the call is safe. */
  lemma FreeStep(h: Heap, lo: int, hi: int, i: nat)
    requires Inv(h, lo, hi)
    ensures Step(h, FreeLive(i)).Some? <==> Safe(h, FreeLive(i))
    ensures Step(h, FreeLive(i)).Some? ==> Inv(Step(h, FreeLive(i)).value, lo, hi)
  {
    hide Free, Canon, Put, Pos, Left;
    if i < |h.live| {
      var b := Block(h.live[i]);
      if b.n == 0 {
        PutNothing(h.list, lo, hi, b.a);
      } else {
        PutOk(h.list, lo, hi, b.a, b.n);
        forall x | b.a <= x < b.a + b.n ensures !Free(h.list, x) { assert In(h.live, i, x); }
      }
      hide In, Sized;
      if Step(h, FreeLive(i)).Some? { DropLive(h, lo, hi, Step(h, FreeLive(i)).value.list, i); }
    }
  }

  /** Calls of which each is safe when it is made. */
  ghost predicate AllSafe(h: Heap, ops: seq<Op>)
    decreases |ops|
  {
    ops != [] ==> Safe(h, ops[0]) && (Step(h, ops[0]).Some? ==> AllSafe(Step(h, ops[0]).value, ops[1..]))
  }

  /** Whatever is asked for and given back in whatever order: no call of freemem is refused or
      breaks the list exactly when all calls are safe, and every address then stays free or in exactly
      one live block. */
  lemma {:induction false} RunKeeps(h: Heap, lo: int, hi: int, ops: seq<Op>)
    requires Inv(h, lo, hi)
    ensures Run(h, ops).Some? <==> AllSafe(h, ops)
    ensures Run(h, ops).Some? ==> Inv(Run(h, ops).value, lo, hi)
    decreases |ops|
  {
    if ops != [] {
      hide Inv, Step, Safe;
      StepKeeps(h, lo, hi, ops[0]);
      if Step(h, ops[0]).Some? { RunKeeps(Step(h, ops[0]).value, lo, hi, ops[1..]); }
    }
  }

  lemma StepKeeps(h: Heap, lo: int, hi: int, op: Op)
    requires Inv(h, lo, hi)
    ensures Step(h, op).Some? <==> Safe(h, op)
    ensures Step(h, op).Some? ==> Inv(Step(h, op).value, lo, hi)
  {
    match op {
      case GetMem(nbytes) => if 0 < nbytes < TWO32 { hide Inv; GetStep(h, lo, hi, nbytes); }
      case GetStk(nbytes) => if 0 < nbytes < TWO32 { hide Inv; GetTopStep(h, lo, hi, nbytes); }
      case FreeLive(i) => hide Inv; FreeStep(h, lo, hi, i);
    }
  }

  /** The heap as meminit leaves it. */
  function Fresh(lo: int, hi: int): Heap { Heap([Blk(lo, hi - lo)], []) }

  lemma FreshOk(lo: int, hi: int)
    requires lo < hi
    ensures Inv(Fresh(lo, hi), lo, hi)
  {
    forall x { FreeOne(Blk(lo, hi - lo), x); }
  }

  /** When nothing is live, the heap is the one block it was at the start. */
  lemma AllFreed(lo: int, hi: int, ops: seq<Op>)
    requires lo < hi
    ensures Run(Fresh(lo, hi), ops).Some? <==> AllSafe(Fresh(lo, hi), ops)
    ensures Run(Fresh(lo, hi), ops).Some? && Run(Fresh(lo, hi), ops).value.live == [] ==>
      Run(Fresh(lo, hi), ops).value == Fresh(lo, hi)
  {
    FreshOk(lo, hi);
    RunKeeps(Fresh(lo, hi), lo, hi, ops);
    hide Inv, AllSafe;
    if Run(Fresh(lo, hi), ops).Some? && Run(Fresh(lo, hi), ops).value.live == [] {
      OnlyFree(Run(Fresh(lo, hi), ops).value, lo, hi);
    }
  }

  lemma OnlyFree(h: Heap, lo: int, hi: int)
    requires lo < hi && Inv(h, lo, hi) && h.live == []
    ensures h == Fresh(lo, hi)
  {
    hide Has;
    forall x ensures Free(h.list, x) <==> Free([Blk(lo, hi - lo)], x) {
      FreeOne(Blk(lo, hi - lo), x);
      HasRange(lo, hi, x);
      if Free(h.list, x) { CanonIn(h.list, lo, hi, x); }
    }
    Unique(h.list, [Blk(lo, hi - lo)], lo, hi);
  }

  lemma HasRange(lo: int, hi: int, x: int)
    ensures Has(Blk(lo, hi - lo), x) <==> lo <= x < hi
  {}

  /** Live blocks of at least one byte do not overlap each other. */
  lemma LiveApart(h: Heap, lo: int, hi: int, i: nat, j: nat)
    requires Inv(h, lo, hi) && i < j < |h.live|
    ensures var (a, b) := (Block(h.live[i]), Block(h.live[j])); a.n == 0 || b.n == 0 || End(a) <= b.a || End(b) <= a.a
  {
    var (a, b) := (Block(h.live[i]), Block(h.live[j]));
    var x := if a.a >= b.a then a.a else b.a;
    if Has(a, x) && Has(b, x) {
      assert In(h.live, i, x) && In(h.live, j, x);
    }
  }

  // ---- accounting ----

  lemma LiveTotalSplit(p: seq<Live>, q: seq<Live>)
    requires Sized(p) && Sized(q)
    ensures Sized(p + q) && LiveTotal(p + q) == LiveTotal(p) + LiveTotal(q)
  {
    if p == [] {
      assert p + q == q;
    } else {
      assert (p + q)[1..] == p[1..] + q;
      LiveTotalSplit(p[1..], q);
    }
  }

  /** All that is free and all that is live. */
  ghost function Sum(h: Heap): int
    requires Sized(h.live)
  {
    Total(h.list) + LiveTotal(h.live)
  }

  lemma TakeSum(h: Heap, r: seq<Blk>, v: Live)
    requires Sized(h.live) && 0 < v.nbytes < TWO32 && Total(r) == Total(h.list) - RoundMb(v.nbytes)
    ensures Sized(h.live + [v]) && Sum(Heap(r, h.live + [v])) == Sum(h)
  {
    LiveTotalSplit(h.live, [v]);
  }

  lemma DropSum(h: Heap, r: seq<Blk>, i: nat)
    requires Sized(h.live) && i < |h.live| && Total(r) == Total(h.list) + RoundMb(h.live[i].nbytes)
    ensures Sized(h.live[..i] + h.live[i + 1..]) && Sum(Heap(r, h.live[..i] + h.live[i + 1..])) == Sum(h)
  {
    assert h.live == h.live[..i] + ([h.live[i]] + h.live[i + 1..]);
    LiveTotalSplit([h.live[i]], h.live[i + 1..]);
    LiveTotalSplit(h.live[..i], [h.live[i]] + h.live[i + 1..]);
    LiveTotalSplit(h.live[..i], h.live[i + 1..]);
  }

  /** memlist.mlength and the live blocks add up to the same at all times. */
  lemma StepSum(h: Heap, lo: int, hi: int, op: Op)
    requires Inv(h, lo, hi) && Step(h, op).Some?
    ensures Sized(h.live) && Sized(Step(h, op).value.live) && Sum(Step(h, op).value) == Sum(h)
  {
    hide Free, Canon, In, Total, LiveTotal, Sum, Sized, Has, Get, GetTop, Put, Pos, Left;
    assert Sized(h.live);
    match op {
      case GetMem(nbytes) =>
        if 0 < nbytes < TWO32 && Get(h.list, RoundMb(nbytes)).Some? {
          TakenTotal(h.list, lo, hi, RoundMb(nbytes));
          TakeSum(h, Get(h.list, RoundMb(nbytes)).value.0, Live(Get(h.list, RoundMb(nbytes)).value.1, nbytes, false));
        }
      case GetStk(nbytes) =>
        if 0 < nbytes < TWO32 && GetTop(h.list, RoundMb(nbytes)).Some? {
          TakenTotal(h.list, lo, hi, RoundMb(nbytes));
          var p := GetTop(h.list, RoundMb(nbytes)).value.1 + RoundMb(nbytes) - WORD;
          TakeSum(h, GetTop(h.list, RoundMb(nbytes)).value.0, Live(p, nbytes, true));
        }
      case FreeLive(i) =>
        if i < |h.live| {
          SizedAt(h.live, i);
          var b := Block(h.live[i]);
          if Put(h.list, b.a, b.n).Some? { PutTotal(h.list, b.a, b.n); }
          DropSum(h, Step(h, op).value.list, i);
        }
    }
  }

  lemma TakenTotal(s: seq<Blk>, lo: int, hi: int, n: int)
    requires Canon(s, lo, hi) && n >= 0
    ensures Get(s, n).Some? ==> Total(Get(s, n).value.0) == Total(s) - n
    ensures GetTop(s, n).Some? ==> Total(GetTop(s, n).value.0) == Total(s) - n
  {
    if n > 0 {
      GetOk(s, lo, hi, n);
      GetTopOk(s, lo, hi, n);
    } else {
      GetNothing(s, lo, hi);
    }
  }

  lemma SizedAt(live: seq<Live>, i: nat)
    requires Sized(live) && i < |live|
    ensures 0 < live[i].nbytes < TWO32
  {}

  // ---- nodes of eight bytes ----

  const NODE := 8

  /** Every free block has room for the node that is kept in it. */
  ghost predicate NodesFit(s: seq<Blk>) { forall i :: 0 <= i < |s| ==> s[i].n >= NODE }

  /** Whole units of eight bytes, counted from the start of the heap. */
  predicate Whole(b: Blk, lo: int) { (b.a - lo) % NODE == 0 && b.n % NODE == 0 }

  ghost predicate AllWhole(s: seq<Blk>, lo: int) { forall i :: 0 <= i < |s| ==> Whole(s[i], lo) }

  ghost predicate WholeHeap(h: Heap, lo: int) {
    AllWhole(h.list, lo) && forall i :: 0 <= i < |h.live| && 0 < h.live[i].nbytes < TWO32 ==>
      Whole(Block(h.live[i]), lo)
  }

  lemma WholeGet(s: seq<Blk>, lo: int, n: nat)
    requires AllWhole(s, lo) && n % NODE == 0
    ensures Get(s, n).Some? ==> AllWhole(Get(s, n).value.0, lo) && Whole(Blk(Get(s, n).value.1, n), lo)
  {
    if Get(s, n).Some? { WholeParts(s[FirstFit(s, n)], n, lo); }
    hide Whole, FirstFit;
  }

  lemma WholeGetTop(s: seq<Blk>, lo: int, n: nat)
    requires AllWhole(s, lo) && n % NODE == 0
    ensures GetTop(s, n).Some? ==> AllWhole(GetTop(s, n).value.0, lo) && Whole(Blk(GetTop(s, n).value.1, n), lo)
  {
    if GetTop(s, n).Some? { WholeParts(s[LastFit(s, n)], n, lo); }
    hide Whole, LastFit;
  }

  lemma WholePut(s: seq<Blk>, lo: int, a: int, n: nat)
    requires AllWhole(s, lo) && Whole(Blk(a, n), lo)
    ensures Put(s, a, n).Some? ==> AllWhole(Put(s, a, n).value, lo)
  {
    var k := Pos(s, a);
    if Left(s, k, a) { WholeSum(s[k - 1], Blk(a, n), lo); }
    var b := if Left(s, k, a) then Blk(s[k - 1].a, s[k - 1].n + n) else Blk(a, n);
    if Right(s, k, a + n) { WholeSum(b, s[k], lo); }
    hide Whole, Pos;
  }

  lemma WholeParts(b: Blk, n: nat, lo: int)
    requires Whole(b, lo) && n % NODE == 0
    ensures Whole(Blk(b.a, n), lo) && Whole(Blk(b.a + n, b.n - n), lo)
    ensures Whole(Blk(b.a, b.n - n), lo) && Whole(Blk(b.a + b.n - n, n), lo)
  {}

  lemma WholeSum(b: Blk, c: Blk, lo: int)
    requires Whole(b, lo) && Whole(c, lo)
    ensures Whole(Blk(b.a, b.n + c.n), lo)
  {}

  lemma WholeStep(h: Heap, lo: int, op: Op)
    requires WholeHeap(h, lo) && Step(h, op).Some?
    ensures WholeHeap(Step(h, op).value, lo)
  {
    hide Whole, AllWhole, Get, GetTop, Put, Pos, Left;
    match op {
      case GetMem(nbytes) => if 0 < nbytes < TWO32 { WholeGet(h.list, lo, RoundMb(nbytes)); }
      case GetStk(nbytes) => if 0 < nbytes < TWO32 { WholeGetTop(h.list, lo, RoundMb(nbytes)); }
      case FreeLive(i) =>
        if i < |h.live| && 0 < h.live[i].nbytes < TWO32 {
          WholePut(h.list, lo, Block(h.live[i]).a, Block(h.live[i]).n);
        }
    }
  }

  lemma {:induction false} WholeRun(h: Heap, lo: int, hi: int, ops: seq<Op>)
    requires Inv(h, lo, hi) && WholeHeap(h, lo) && Run(h, ops).Some?
    ensures Inv(Run(h, ops).value, lo, hi) && WholeHeap(Run(h, ops).value, lo)
    decreases |ops|
  {
    if ops != [] {
      hide Inv, Step, Safe, WholeHeap;
      StepKeeps(h, lo, hi, ops[0]);
      WholeStep(h, lo, ops[0]);
      WholeRun(Step(h, ops[0]).value, lo, hi, ops[1..]);
    }
  }

  /** Every free block has room for its node in every run exactly when the heap is a whole number of
      nodes long, which meminit does not see to. */
  lemma NodesFitExact(lo: int, hi: int)
    requires 0 < lo < hi < TWO32
    ensures (forall ops :: Run(Fresh(lo, hi), ops).Some? ==> NodesFit(Run(Fresh(lo, hi), ops).value.list))
            <==> (hi - lo) % NODE == 0
  {
    hide Run, Inv, NodesFit;
    var h := Fresh(lo, hi);
    if (hi - lo) % NODE == 0 {
      forall ops | Run(h, ops).Some? ensures NodesFit(Run(h, ops).value.list) {
        FreshOk(lo, hi);
        WholeRun(h, lo, hi, ops);
        WholeFits(Run(h, ops).value, lo, hi);
      }
    } else {
      Remainder(lo, hi, (hi - lo) / NODE * NODE);
    }
  }

  lemma WholeFits(h: Heap, lo: int, hi: int)
    requires Inv(h, lo, hi) && WholeHeap(h, lo)
    ensures NodesFit(h.list)
  {
    forall i | 0 <= i < |h.list| ensures h.list[i].n >= NODE { assert Whole(h.list[i], lo) && h.list[i].n > 0; }
  }

  /** Asking for all whole units leaves less than one. */
  lemma Remainder(lo: int, hi: int, n: int)
    requires 0 < lo < hi < TWO32 && 0 <= n == (hi - lo) / NODE * NODE < hi - lo
    ensures exists ops :: Run(Fresh(lo, hi), ops).Some? && !NodesFit(Run(Fresh(lo, hi), ops).value.list)
  {
    var h := Fresh(lo, hi);
    if n == 0 {
      assert Run(h, []) == Some(h);
      assert !NodesFit(h.list) by { assert h.list[0].n < NODE; }
    } else {
      var r := Heap([Blk(lo + n, hi - lo - n)], [Live(lo, n, false)]);
      assert Step(h, GetMem(n)) == Some(r) by {
        assert RoundMb(n) == n && FirstFit(h.list, n) == 0;
        assert h.list[0 := Blk(lo + n, hi - lo - n)] == r.list && h.live + [Live(lo, n, false)] == r.live;
      }
      RunOne(h, GetMem(n), r);
      assert !NodesFit(r.list) by { assert r.list[0].n < NODE; }
    }
  }

  lemma RunOne(h: Heap, op: Op, r: Heap)
    requires Step(h, op) == Some(r)
    ensures Run(h, [op]) == Some(r)
  {
    hide Step;
    assert [op][1..] == [];
    assert Run(r, []) == Some(r);
  }
}
