/** Frame bookkeeping (framemgmt.c): three per-region stacks of free frames, the inverted
    page table, and the list of used E1 frames in the order in which they were taken.
    Every operation is a function on the value FrameSt; FrameTable.dfy has the in-place
    code that refines it. */
module Frames {
  import opened Kernel
  import opened Seqs

  const NBPG := 4096       // bytes in a page
  const NENTRIES := 1024   // entries in a page table

  /** Region boundaries as absolute frame numbers: D is [d0, e1), E1 is [e1, e2), E2 is [e2, f),
      and the virtual heap starts at frame f and has `heap` pages. `limit` is the bound that
      invtakeframe compares frame numbers with, `shared` are the frames of the page tables that all
      processes share, for the regions A to E2 and for G. */
  datatype Cfg = Cfg(d0: int, e1: int, e2: int, f: int, heap: int, limit: int, shared: seq<int>)

  const REGION_G_PD := 576 // the directory entry for region G

  /** E1 has a frame, and the heap of a process is covered by a single page table, which is not one
      of the shared ones, as with the shipped sizes. */
  predicate ValidCfg(c: Cfg) {
    && 0 < c.d0 <= c.e1 < c.e2 <= c.f && c.f % NENTRIES == 0 && 0 <= c.heap <= NENTRIES
    && 4 <= c.f / NENTRIES < NENTRIES && c.f / NENTRIES != REGION_G_PD && |c.shared| == 5
  }

  /** The shared page tables are the first five frames of region D. */
  const SHIPPED := Cfg(1024, 2024, 3048, 4096, 1024, 3072, [1024, 1025, 1026, 1027, 1028])

  datatype Region = D | E1 | E2

  function Lo(c: Cfg, r: Region): int {
    match r case D => c.d0 case E1 => c.e1 case E2 => c.e2
  }

  function Hi(c: Cfg, r: Region): int {
    match r case D => c.e1 case E1 => c.e2 case E2 => c.f
  }

  predicate InRegion(c: Cfg, r: Region, g: int) { Lo(c, r) <= g < Hi(c, r) }

  predicate InTable(c: Cfg, g: int) { c.d0 <= g < c.f }

  function RegionOf(c: Cfg, g: int): (r: Region)
    requires ValidCfg(c) && InTable(c, g)
    ensures InRegion(c, r, g) && forall q :: InRegion(c, q, g) ==> q == r
  {
    if g < c.e1 then D else if g < c.e2 then E1 else E2
  }

  /** A pointer to a page table entry: the frame that holds the table and the index in it. */
  datatype PtePtr = Unused | At(table: int, idx: int)

  /** The payload of an inverted page table entry; a freed entry keeps its pid and pte. */
  datatype Ent = Ent(pid: int, used: bool, pte: PtePtr)

  /** free[r] is the live part of the stack of region r, its top first. */
  datatype FrameSt = FrameSt(cfg: Cfg, ent: map<int, Ent>, free: map<Region, seq<int>>, fifo: seq<int>)

  ghost predicate Shape(st: FrameSt) {
    && ValidCfg(st.cfg)
    && (forall g :: g in st.ent <==> InTable(st.cfg, g))
    && (forall r: Region :: r in st.free)
    && (forall r: Region :: AllIn(st.cfg, r, st.free[r]))
    && AllIn(st.cfg, E1, st.fifo)
  }

  ghost predicate AllIn(c: Cfg, r: Region, s: seq<int>) {
    forall i :: 0 <= i < |s| ==> InRegion(c, r, s[i])
  }

  predicate IsUsed(st: FrameSt, g: int) { g in st.ent && st.ent[g].used }

  /** s lists, without repetition, the frames of region r whose use bit is `used`. */
  ghost predicate Lists(st: FrameSt, s: seq<int>, r: Region, used: bool) {
    && NoDup(s)
    && (forall i :: 0 <= i < |s| ==> InRegion(st.cfg, r, s[i]) && IsUsed(st, s[i]) == used)
    && (forall g :: InRegion(st.cfg, r, g) && IsUsed(st, g) == used ==> g in s)
  }

  /** Each stack holds exactly the unused frames of its region; the list holds exactly the
      used E1 frames. */
  ghost predicate InvF(st: FrameSt) {
    && Shape(st)
    && (forall r: Region :: Lists(st, st.free[r], r, false))
    && Lists(st, st.fifo, E1, true)
  }

  ghost predicate HasFree(st: FrameSt, r: Region) requires Shape(st) { st.free[r] != [] }

  ghost function GetFree(st: FrameSt, r: Region): (p: (FrameSt, int))
    requires Shape(st)
    ensures Shape(p.0) && p.0.cfg == st.cfg && (p.1 == SYSERR || InRegion(st.cfg, r, p.1))
    ensures p.1 == SYSERR ==> p.0 == st
  {
    if st.free[r] == [] then (st, SYSERR)
    else (st.(free := st.free[r := st.free[r][1..]]), st.free[r][0])
  }

  function GetUsedE1(st: FrameSt): int { if st.fifo == [] then SYSERR else st.fifo[0] }

  /** invtakeframe: refuses a frame at or above the limit, or one in use. */
  ghost function Take(st: FrameSt, g: int, pid: int, pte: PtePtr): (p: (FrameSt, bool))
    requires Shape(st) && InTable(st.cfg, g)
    ensures Shape(p.0) && p.0.cfg == st.cfg
  {
    if g >= st.cfg.limit || st.ent[g].used then (st, false)
    else
      (st.(ent := st.ent[g := Ent(pid, true, pte)],
           fifo := if InRegion(st.cfg, E1, g) then st.fifo + [g] else st.fifo), true)
  }

  /** invfreeframe: a free frame is left alone; a push on a full stack is refused. */
  ghost function Free(st: FrameSt, g: int): (p: (FrameSt, bool))
    requires Shape(st) && InTable(st.cfg, g)
    ensures Shape(p.0) && p.0.cfg == st.cfg
  {
    var r := RegionOf(st.cfg, g);
    if !st.ent[g].used then (st, true)
    else if |st.free[r]| >= Hi(st.cfg, r) - Lo(st.cfg, r) then (st, false)
    else
      (st.(ent := st.ent[g := st.ent[g].(used := false)],
           free := st.free[r := [g] + st.free[r]],
           fifo := if r == E1 then Without(st.fifo, g) else st.fifo), true)
  }

  /** Pop a frame of region r and take it, the way every caller does. */
  ghost function Alloc(st: FrameSt, r: Region, pid: int, pte: PtePtr): (p: (FrameSt, int))
    requires Shape(st)
    ensures Shape(p.0) && p.0.cfg == st.cfg && (p.1 == SYSERR || InRegion(st.cfg, r, p.1))
    ensures p.1 == SYSERR ==> p.0 == st
  {
    var (st1, g) := GetFree(st, r);
    if g == SYSERR then (st1, g) else (Take(st1, g, pid, pte).0, g)
  }

  /** Once the limit covers every region, popping and taking a frame keeps the bookkeeping
      exact, the frame comes from the top of the stack and joins the end of the list. */
  lemma AllocKeeps(st: FrameSt, r: Region, pid: int, pte: PtePtr)
    requires InvF(st) && HasFree(st, r)
    ensures var g := st.free[r][0]; InRegion(st.cfg, r, g) && !IsUsed(st, g)
    ensures var (st', g) := Alloc(st, r, pid, pte);
      g == st.free[r][0] &&
      (g < st.cfg.limit ==>
        && InvF(st') && st'.cfg == st.cfg
        && st'.ent == st.ent[g := Ent(pid, true, pte)]
        && st'.free == st.free[r := st.free[r][1..]]
        && st'.fifo == if r == E1 then st.fifo + [g] else st.fifo)
  {
    hide AllIn;
    var s := st.free[r];
    var g := s[0];
    assert Lists(st, s, r, false);
    var st' := Alloc(st, r, pid, pte).0;
    if g < st.cfg.limit {
      forall q: Region ensures Lists(st', st'.free[q], q, false) {
        assert Lists(st, st.free[q], q, false);
        if q == r { TailMembers(s); }
      }
      assert Lists(st', st'.fifo, E1, true) by { assert g !in st.fifo; }
    }
  }

  /** When the popped frame reaches the limit, invtakeframe refuses it and the frame is on no
      stack and in no use: the bookkeeping is broken. */
  lemma AllocLosesFrame(st: FrameSt, r: Region, pid: int, pte: PtePtr)
    requires InvF(st) && HasFree(st, r) && st.free[r][0] >= st.cfg.limit
    ensures var (st', g) := Alloc(st, r, pid, pte);
      g == st.free[r][0] && !IsUsed(st', g) && g !in st'.free[r] && InRegion(st.cfg, r, g) && !InvF(st')
  {
    var s := st.free[r];
    assert Lists(st, s, r, false);
    TailMembers(s);
    var st' := Alloc(st, r, pid, pte).0;
    assert !Lists(st', st'.free[r], r, false);
  }

  /** Freeing never meets a full stack, and gives exactly that frame back. */
  lemma FreeKeeps(st: FrameSt, g: int)
    requires InvF(st) && InTable(st.cfg, g)
    ensures var (st', ok) := Free(st, g);
      && ok && InvF(st') && st'.cfg == st.cfg
      && st'.ent == st.ent[g := st.ent[g].(used := false)]
      && (IsUsed(st, g) ==> var r := RegionOf(st.cfg, g);
            st'.free == st.free[r := [g] + st.free[r]] &&
            st'.fifo == if r == E1 then Without(st.fifo, g) else st.fifo)
      && (!IsUsed(st, g) ==> st' == st)
  {
    hide Without, AllIn;
    var r := RegionOf(st.cfg, g);
    var (st', ok) := Free(st, g);
    if IsUsed(st, g) {
      var s := st.free[r];
      assert Lists(st, s, r, false);
      PigeonholeMissing(s, Lo(st.cfg, r), Hi(st.cfg, r), g);
      WithoutMembers(st.fifo, g);
      var w := Without(st.fifo, g);
      forall i | 0 <= i < |w| ensures w[i] in st.fifo && w[i] != g { assert w[i] in w; }
      forall q: Region ensures Lists(st', st'.free[q], q, false) {
        assert Lists(st, st.free[q], q, false);
        assert forall x :: x in s ==> x in [g] + s;
      }
      assert Lists(st', st'.fifo, E1, true);
    } else {
      assert st.ent == st.ent[g := st.ent[g].(used := false)];
    }
  }

  /** The number of free frames of region r. */
  ghost function NFree(st: FrameSt, r: Region): nat requires Shape(st) { |st.free[r]| }

  lemma FifoHead(st: FrameSt)
    requires InvF(st) && st.fifo != []
    ensures InRegion(st.cfg, E1, st.fifo[0]) && IsUsed(st, st.fifo[0])
  {
    assert Lists(st, st.fifo, E1, true);
  }

  /** An exhausted E1 has a frame to evict. */
  lemma FullHasVictim(st: FrameSt)
    requires InvF(st) && !HasFree(st, E1)
    ensures st.fifo != []
  {
    assert Lists(st, st.free[E1], E1, false);
    assert InRegion(st.cfg, E1, st.cfg.e1);
  }

  /** init_invpt: every frame free, each stack in ascending order. */
  ghost function Boot(c: Cfg): FrameSt {
    FrameSt(c, map g | c.d0 <= g < c.f && InTable(c, g) :: Ent(0, false, Unused),
            map[D := Ascending(c.d0, c.e1), E1 := Ascending(c.e1, c.e2), E2 := Ascending(c.e2, c.f)], [])
  }

  ghost function Ascending(lo: int, hi: int): seq<int> { if lo < hi then seq(hi - lo, i => lo + i) else [] }

  // ---- the bound of invtakeframe ----

  /** Frames of D and E1 are below the bound, as they are with the shipped one. */
  predicate Low(c: Cfg) { c.e2 <= c.limit }

  /** The frames that the bound excludes have never been taken: they are at the bottom of the E2
      stack, in the order in which init_invpt put them there. */
  ghost predicate BottomOk(c: Cfg, s: seq<int>) {
    c.limit < c.f ==> |s| >= c.f - c.limit && s[|s| - (c.f - c.limit)..] == Ascending(c.limit, c.f)
  }

  /** What holds of the frames under any bound that covers D and E1. */
  ghost predicate Reach(st: FrameSt)
    requires Shape(st)
  {
    Low(st.cfg) && (forall g :: IsUsed(st, g) ==> g < st.cfg.limit) && BottomOk(st.cfg, st.free[E2])
  }

  /** A fault that would evict finds an E2 frame that invtakeframe accepts. */
  ghost predicate EvictFits(st: FrameSt)
    requires Shape(st)
  {
    !HasFree(st, E1) && HasFree(st, E2) ==> st.free[E2][0] < st.cfg.limit
  }

  lemma BottomPop(c: Cfg, s: seq<int>)
    requires BottomOk(c, s) && s != [] && s[0] < c.limit && c.e2 <= c.limit
    ensures BottomOk(c, s[1..])
  {
    if c.limit < c.f {
      var k := |s| - (c.f - c.limit);
      assert s[0..] == s;
      if k > 0 { assert s[1..][k - 1..] == s[k..]; }
    }
  }

  lemma BottomPush(c: Cfg, s: seq<int>, g: int)
    requires BottomOk(c, s)
    ensures BottomOk(c, [g] + s)
  {
    if c.limit < c.f {
      var k := |s| - (c.f - c.limit);
      assert ([g] + s)[k + 1..] == s[k..];
    }
  }

  /** A frame below the bound may be popped and taken. */
  lemma ReachAlloc(st: FrameSt, r: Region, pid: int, pte: PtePtr)
    requires Shape(st) && Reach(st) && (r == E2 && HasFree(st, E2) ==> st.free[E2][0] < st.cfg.limit)
    ensures Reach(Alloc(st, r, pid, pte).0)
  {
    var (st', g) := Alloc(st, r, pid, pte);
    if HasFree(st, r) {
      assert AllIn(st.cfg, r, st.free[r]) && InRegion(st.cfg, r, st.free[r][0]);
      assert g < st.cfg.limit;
      if r == E2 { BottomPop(st.cfg, st.free[E2]); }
      assert BottomOk(st.cfg, st'.free[E2]);
      forall x | IsUsed(st', x) ensures x < st.cfg.limit { assert x == g || IsUsed(st, x); }
    }
  }

  lemma ReachFree(st: FrameSt, g: int)
    requires Shape(st) && Reach(st) && InTable(st.cfg, g)
    ensures Reach(Free(st, g).0)
  {
    BottomPush(st.cfg, st.free[E2], g);
    var st' := Free(st, g).0;
    assert BottomOk(st.cfg, st'.free[E2]);
    forall x | IsUsed(st', x) ensures x < st.cfg.limit { assert IsUsed(st, x); }
  }

  /** In use: the frames of a region that are not on its stack. */
  ghost function NUsed(st: FrameSt, r: Region): int requires Shape(st) { Hi(st.cfg, r) - Lo(st.cfg, r) - NFree(st, r) }

  /** The next E2 frame is below the bound exactly while fewer E2 frames are in use than the bound
      leaves. */
  lemma TopBelow(st: FrameSt)
    requires InvF(st) && Reach(st) && HasFree(st, E2)
    ensures st.free[E2][0] < st.cfg.limit <==> st.cfg.limit >= st.cfg.f || NUsed(st, E2) < st.cfg.limit - st.cfg.e2
  {
    var (c, s) := (st.cfg, st.free[E2]);
    assert Lists(st, s, E2, false);
    if c.limit < c.f {
      var k := |s| - (c.f - c.limit);
      assert k == 0 ==> s[k..] == s;
      assert forall i :: 0 <= i < c.f - c.limit ==> s[k + i] == s[k..][i] == c.limit + i;
      assert s[0] >= c.limit ==> s[k + (s[0] - c.limit)] == s[0];
    }
  }

  // ---- a frame that is lost ----

  /** On no stack and not in use. */
  ghost predicate Lost(st: FrameSt, g: int)
    requires Shape(st)
  {
    InRegion(st.cfg, E2, g) && !IsUsed(st, g) && g !in st.free[E2]
  }

  /** Nothing but the frame's own allocation finds it again. */
  lemma LostStays(st: FrameSt, g: int, x: int, pid: int, pte: PtePtr)
    requires Shape(st) && Lost(st, g)
    ensures Lost(Alloc(st, E1, pid, pte).0, g) && (InTable(st.cfg, x) ==> Lost(Free(st, x).0, g)) && !InvF(st)
  {
    assert AllIn(st.cfg, E1, st.free[E1]);
    assert !Lists(st, st.free[E2], E2, false);
  }

  lemma AscendingHas(lo: int, hi: int, x: int)
    requires lo <= x < hi
    ensures x in Ascending(lo, hi)
  {
    assert Ascending(lo, hi)[x - lo] == x;
  }
}
