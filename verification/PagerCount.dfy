/** The reference counts of page tables. pgfhandler counts a page when it gets its first frame, vmhfreemem
    takes it off; nothing is ever deleted for it. A process that is killed leaves its count behind in the
    frame of its table, and newpt does not reset it. */
module PagerCount {
  import opened Bytes
  import opened Frames
  import opened Pager
  import opened PagerInv
  import opened PagerSteps
  import opened PagerMachine
  import opened PagerRuns

  type Seen = map<(int, int), seq<byte>>

  /** How many of the n pages from a on have a frame. */
  ghost function Cnt(h: Seen, pid: int, a: int, n: nat): nat
    decreases n
  {
    if n == 0 then 0 else (if (pid, a) in h then 1 else 0) + Cnt(h, pid, a + 1, n - 1)
  }

  /** The pages of a process that have a frame. */
  ghost function Pages(m: M, pid: int): nat requires WF(m.pg) {
    Cnt(Heap(m.pg), pid, 0, m.pg.fr.cfg.heap)
  }

  /** Frame b is the page table of pid. */
  ghost predicate TableOf(s: Pg, pid: int, b: int) requires WF(s) { HasPt(s, pid, 0) && PdeOf(s, pid, 0).base == b }

  /** The pages that are reached through table b. */
  ghost function Through(m: M, b: int): nat
    requires WF(m.pg)
  {
    if exists pid :: TableOf(m.pg, pid, b) then var pid :| TableOf(m.pg, pid, b); Pages(m, pid) else 0
  }

  /** fr_refcnt of the frames of region D. */
  type Refs = map<int, int>

  function Add(rc: Refs, b: int, n: int): Refs { if b in rc then rc[b := rc[b] + n] else rc }

  /** What a step does to the counts. */
  ghost function Counts(rc: Refs, m: M, t: Step): Refs
    requires WF(m.pg) && Possible(m, t) && WF(Next(m, t).pg)
  {
    match t
    case Fault(pid, v) =>
      if m.pg.procs[pid].alloc[v] && !Mapped(m.pg, pid, v) && HasRoom(m.pg) && HasPt(Next(m, t).pg, pid, v)
      then Add(rc, PdeOf(Next(m, t).pg, pid, v).base, 1) else rc
    case Resume(pid) => if HasRoom(m.pg) then Add(rc, PdeOf(m.pg, pid, m.addr).base, 1) else rc
    case Release(pid, v, n, skip) =>
      assert HasPt(m.pg, pid, v);
      Add(rc, PdeOf(m.pg, pid, v).base,
        0 - Cnt(Heap(m.pg), pid, if skip then v + 1 else v, if skip then n - 1 else n))
    case _ => rc
  }

  // The same along the branches of the handler.

  ghost function LoopCounts(rc: Refs, m: M, pid: int): Refs
    requires WF(m.pg) && HasPt(m.pg, pid, m.addr)
  {
    if HasRoom(m.pg) then Add(rc, PdeOf(m.pg, pid, m.addr).base, 1) else rc
  }

  ghost function ScenarioCounts(rc: Refs, m: M, pid: int): Refs
    requires WF(m.pg) && HasPt(m.pg, pid, m.addr)
  {
    if PteOf(m.pg, pid, m.addr).swap then rc else LoopCounts(rc, m, pid)
  }

  ghost function HandleCounts(rc: Refs, m: M, pid: int, v: int): Refs
    requires WF(m.pg) && pid in m.pg.procs && InHeap(m.pg.fr.cfg, v)
  {
    if !m.pg.procs[pid].alloc[v] || !EnsurePt(m.pg, pid, v).1 then rc
    else ScenarioCounts(rc, m.(addr := v, pg := EnsurePt(m.pg, pid, v).0), pid)
  }

  /** That is what Counts says. */
  lemma HandleCountsIs(rc: Refs, m: M, pid: int, v: int)
    requires MInv(m) && Possible(m, Fault(pid, v))
    ensures WF(Next(m, Fault(pid, v)).pg) && Counts(rc, m, Fault(pid, v)) == HandleCounts(rc, m, pid, v)
  {
    hide FrameOk, TablesOk, PageOk, Lists, Reach, FetchPage, FreshPage, Reap, Heap, TakeD, Shape;
    if m.pg.procs[pid].alloc[v] {
      EnsureStep(m, pid, v);
      var s1 := EnsurePt(m.pg, pid, v).0;
      ScenarioBase(m.(addr := v, pg := s1), pid);
    }
  }

  lemma ScenarioBase(m: M, pid: int)
    requires WF(m.pg) && HasPt(m.pg, pid, m.addr)
    ensures var s' := Scenarios(m, pid).pg;
      WF(s') && HasPt(s', pid, m.addr) && PdeOf(s', pid, m.addr) == PdeOf(m.pg, pid, m.addr)
  {
    hide FetchPage, FreshPage, HasRoom;
    var s' := Scenarios(m, pid).pg;
    assert s'.procs == m.pg.procs && s'.pd == m.pg.pd && s'.fr.cfg == m.pg.fr.cfg;
  }

  /** What the processes killed so far have left in the counts. */
  ghost function Left(lost: Refs, m: M, t: Step): Refs
    requires WF(m.pg) && Possible(m, t)
  {
    match t
    case Fault(pid, v) => if m.pg.procs[pid].alloc[v] then lost else LeftBy(lost, m, pid)
    case Kill(pid) => LeftBy(lost, m, pid)
    case _ => lost
  }

  ghost function LeftBy(lost: Refs, m: M, pid: int): Refs
    requires WF(m.pg)
  {
    if HasPt(m.pg, pid, 0) then Add(lost, PdeOf(m.pg, pid, 0).base, Pages(m, pid)) else lost
  }

  /** The count of every frame is the pages that are reached through it, if it is a page table, and what
      killed processes have left there. */
  ghost predicate Counted(m: M, rc: Refs, lost: Refs)
    requires WF(m.pg)
  {
    forall b :: InRegion(m.pg.fr.cfg, D, b) ==> b in rc && b in lost && rc[b] == lost[b] + Through(m, b)
  }

  // ---- counting ----

  lemma {:induction false} CntSame(h: Seen, h': Seen, pid: int, a: int,
    n: nat)
    requires forall w :: a <= w < a + n ==> ((pid, w) in h <==> (pid, w) in h')
    ensures Cnt(h, pid, a, n) == Cnt(h', pid, a, n)
    decreases n
  {
    if n > 0 { CntSame(h, h', pid, a + 1, n - 1); }
  }

  lemma {:induction false} CntOne(h: Seen, h': Seen, pid: int, a: int, n: nat,
    v: int)
    requires a <= v < a + n && (pid, v) !in h && (pid, v) in h'
    requires forall w :: a <= w < a + n && w != v ==> ((pid, w) in h <==> (pid, w) in h')
    ensures Cnt(h', pid, a, n) == Cnt(h, pid, a, n) + 1
    decreases n
  {
    if v == a { CntSame(h, h', pid, a + 1, n - 1); } else { CntOne(h, h', pid, a + 1, n - 1, v); }
  }

  lemma {:induction false} CntNone(h: Seen, pid: int, a: int, n: nat)
    requires forall w :: a <= w < a + n ==> (pid, w) !in h
    ensures Cnt(h, pid, a, n) == 0
    decreases n
  {
    if n > 0 { CntNone(h, pid, a + 1, n - 1); }
  }

  lemma {:induction false} CntSplit(h: Seen, pid: int, a: int, k: nat, n: nat)
    requires k <= n
    ensures Cnt(h, pid, a, n) == Cnt(h, pid, a, k) + Cnt(h, pid, a + k, n - k)
    decreases k
  {
    if k > 0 { CntSplit(h, pid, a + 1, k - 1, n - 1); }
  }

  lemma CntParts(h: Seen, pid: int, n: nat, v: int, k: nat)
    requires 0 <= v && v + k <= n
    ensures Cnt(h, pid, 0, n) == Cnt(h, pid, 0, v) + Cnt(h, pid, v, k) + Cnt(h, pid, v + k, n - v - k)
  {
    hide Cnt;
    CntSplit(h, pid, 0, v, n);
    CntSplit(h, pid, v, k, n - v);
  }

  /** The pages from v on, k of them, have gone. */
  lemma CntGone(h: Seen, h': Seen, pid: int, n: nat, v: int, k: nat)
    requires 0 <= v && v + k <= n
    requires forall w :: v <= w < v + k ==> (pid, w) !in h'
    requires forall w :: !(v <= w < v + k) ==> ((pid, w) in h <==> (pid, w) in h')
    ensures Cnt(h', pid, 0, n) == Cnt(h, pid, 0, n) - Cnt(h, pid, v, k)
  {
    hide Cnt;
    CntParts(h, pid, n, v, k);
    CntParts(h', pid, n, v, k);
    CntSame(h, h', pid, 0, v);
    CntNone(h', pid, v, k);
    CntSame(h, h', pid, v + k, n - v - k);
  }

  // ---- tables ----

  lemma TableIn(s: Pg, pid: int, b: int)
    requires Inv(s) && TableOf(s, pid, b)
    ensures InRegion(s.fr.cfg, D, b) && s.fr.ent[b].pid == pid && IsUsed(s.fr, b)
  {
    assert TablesOk(s, pid);
  }

  lemma ThroughIs(m: M, pid: int, b: int)
    requires Inv(m.pg) && TableOf(m.pg, pid, b)
    ensures Through(m, b) == Pages(m, pid)
  {
    hide FrameOk, TablesOk, PageOk, Lists, Pages;
    forall q | TableOf(m.pg, q, b) ensures q == pid {
      TableIn(m.pg, q, b);
      TableIn(m.pg, pid, b);
    }
  }

  lemma ThroughNone(m: M, b: int)
    requires WF(m.pg) && forall q :: !TableOf(m.pg, q, b)
    ensures Through(m, b) == 0
  {}

  /** Frame b is the table of the same process, and as many of its pages have a frame; or of nobody. */
  lemma ThroughSame(m: M, m': M, b: int)
    requires Inv(m.pg) && Inv(m'.pg)
    requires forall q :: TableOf(m.pg, q, b) <==> TableOf(m'.pg, q, b)
    requires forall q :: TableOf(m.pg, q, b) ==> Pages(m', q) == Pages(m, q)
    ensures Through(m', b) == Through(m, b)
  {
    hide FrameOk, TablesOk, PageOk, Lists, Pages, TableOf;
    if exists q :: TableOf(m.pg, q, b) {
      var q :| TableOf(m.pg, q, b);
      ThroughIs(m, q, b);
      ThroughIs(m', q, b);
    } else {
      ThroughNone(m, b);
      ThroughNone(m', b);
    }
  }

  /** Every process that is still there has the table it had; a new table belongs to a process that faults and
      had none. */
  ghost predicate SameTables(s: Pg, s': Pg, pid: int)
    requires WF(s) && WF(s')
  {
    && (forall q, b :: TableOf(s, q, b) && q in s'.procs ==> TableOf(s', q, b))
    && (forall q, b :: TableOf(s', q, b) && !HasPt(s, q, 0) ==> q == pid)
    && s'.fr.cfg == s.fr.cfg
  }

  lemma DirsTables(s: Pg, s': Pg, pid: int)
    requires WF(s) && WF(s') && s'.fr.cfg == s.fr.cfg && SameDirs(s, s') && s'.procs.Keys <= s.procs.Keys
    ensures SameTables(s, s', pid)
  {}

  lemma EnsureTables(s: Pg, pid: int, v: int)
    requires Inv(s) && pid in s.procs && InHeap(s.fr.cfg, v)
    ensures SameTables(s, EnsurePt(s, pid, v).0, pid) && EnsurePt(s, pid, v).0.procs == s.procs
  {
    hide InvF, FrameOk, PageOk, TakeD;
    forall q | q in s.procs ensures TablesOk(s, q) {}
    var s' := EnsurePt(s, pid, v).0;
    forall q, b | TableOf(s, q, b) && q in s'.procs ensures TableOf(s', q, b) {
      assert TablesOk(s, q) && TablesOk(s, pid);
    }
    forall q, b | TableOf(s', q, b) && !HasPt(s, q, 0) ensures q == pid { assert TablesOk(s, q) && TablesOk(s, pid); }
  }

  lemma SpawnTables2(s: Pg, pid: int)
    requires Inv(s) && pid !in s.procs && HasFree(s.fr, D) && Low(s.fr.cfg)
    ensures SameTables(s, Spawn(s, pid).0, pid) && forall b :: !TableOf(Spawn(s, pid).0, pid, b)
  {
    hide InvF, FrameOk, PageOk, Spawn;
    SpawnShape(s, pid);
    var s' := Spawn(s, pid).0;
    forall q, b | TableOf(s, q, b) && q in s'.procs ensures TableOf(s', q, b) { assert TablesOk(s, q); }
    forall q, b | TableOf(s', q, b) && !HasPt(s, q, 0) ensures q == pid { assert TablesOk(s, q); }
  }

  // ---- a step ----

  /** Nobody's pages change in number, and no table but one of a process without pages. */
  lemma KeptCount(m: M, m': M, pid: int, rc: Refs, lost: Refs)
    requires Inv(m.pg) && Inv(m'.pg) && Counted(m, rc, lost) && SameTables(m.pg, m'.pg, pid)
    requires m'.pg.procs.Keys >= m.pg.procs.Keys
    requires forall p: (int, int) :: p in Heap(m'.pg) <==> p in Heap(m.pg)
    ensures Counted(m', rc, lost)
  {
    hide FrameOk, TablesOk, PageOk, Lists, Heap, Cnt, TableOf, Through;
    forall b | InRegion(m'.pg.fr.cfg, D, b) ensures b in rc && b in lost && rc[b] == lost[b] + Through(m', b) {
      KeptThrough(m, m', pid, b);
    }
  }

  lemma KeptThrough(m: M, m': M, pid: int, b: int)
    requires Inv(m.pg) && Inv(m'.pg) && SameTables(m.pg, m'.pg, pid) && m'.pg.procs.Keys >= m.pg.procs.Keys
    requires forall p: (int, int) :: p in Heap(m'.pg) <==> p in Heap(m.pg)
    ensures Through(m', b) == Through(m, b)
  {
    hide FrameOk, TablesOk, PageOk, Lists, Heap;
    forall q ensures Pages(m', q) == Pages(m, q) { CntSame(Heap(m.pg), Heap(m'.pg), q, 0, m.pg.fr.cfg.heap); }
    if q :| TableOf(m'.pg, q, b) && !HasPt(m.pg, q, 0) {
      NewTable(m, m', pid, q, b);
    } else {
      OldTables(m.pg, m'.pg, pid, b);
      ThroughSame(m, m', b);
    }
  }

  /** A new table: nobody had it, and its process had no page. */
  lemma NewTable(m: M, m': M, pid: int, q: int, b: int)
    requires Inv(m.pg) && Inv(m'.pg) && SameTables(m.pg, m'.pg, pid) && m'.pg.procs.Keys >= m.pg.procs.Keys
    requires TableOf(m'.pg, q, b) && !HasPt(m.pg, q, 0) && Pages(m', q) == Pages(m, q)
    ensures Through(m, b) == 0 && Through(m', b) == 0
  {
    hide FrameOk, TablesOk, PageOk, Lists, Pages, TableOf;
    forall r ensures TableOf(m.pg, r, b) ==> r == q { OneOwner(m.pg, m'.pg, q, r, b); }
    NoTable(m.pg, q, b);
    ThroughNone(m, b);
    ThroughIs(m', q, b);
    NoPages(m, q);
  }

  lemma OneOwner(s: Pg, s': Pg, q: int, r: int, b: int)
    requires Inv(s') && WF(s) && TableOf(s', q, b)
    requires forall x, y :: TableOf(s, x, y) && x in s'.procs ==> TableOf(s', x, y)
    requires s'.procs.Keys >= s.procs.Keys
    ensures TableOf(s, r, b) ==> r == q
  {
    hide FrameOk, TablesOk, PageOk, Lists;
    if TableOf(s, r, b) {
      assert r in s.procs.Keys;
      TableIn(s', q, b);
      TableIn(s', r, b);
    }
  }

  lemma NoTable(s: Pg, q: int, b: int)
    requires WF(s) && !HasPt(s, q, 0)
    ensures !TableOf(s, q, b)
  {}

  lemma NoPages(m: M, q: int)
    requires WF(m.pg) && !HasPt(m.pg, q, 0)
    ensures Pages(m, q) == 0
  {
    forall w | 0 <= w < m.pg.fr.cfg.heap ensures (q, w) !in Heap(m.pg) { HeapAt(m.pg, q, w); }
    CntNone(Heap(m.pg), q, 0, m.pg.fr.cfg.heap);
  }

  lemma OldTables(s: Pg, s': Pg, pid: int, b: int)
    requires WF(s) && WF(s') && SameTables(s, s', pid) && s'.procs.Keys >= s.procs.Keys
    requires forall q :: TableOf(s', q, b) ==> HasPt(s, q, 0)
    ensures forall q :: TableOf(s, q, b) <==> TableOf(s', q, b)
  {
    forall q ensures TableOf(s, q, b) <==> TableOf(s', q, b) {
      if TableOf(s, q, b) { assert q in s.procs.Keys; }
      if TableOf(s', q, b) {
        assert q in s.procs.Keys && TableOf(s, q, PdeOf(s, q, 0).base);
        assert TableOf(s', q, PdeOf(s, q, 0).base);
      }
    }
  }

  /** Page v of pid has got a frame, whose count goes up. */
  lemma MoreCount(m: M, m': M, pid: int, v: int, rc: Refs, lost: Refs)
    requires Inv(m.pg) && Inv(m'.pg) && Counted(m, rc, lost) && SameTables(m.pg, m'.pg, pid)
    requires m'.pg.procs.Keys >= m.pg.procs.Keys && HasPt(m'.pg, pid, v)
    requires (pid, v) !in Heap(m.pg) && (pid, v) in Heap(m'.pg)
    requires forall p: (int, int) :: p != (pid, v) ==> (p in Heap(m'.pg) <==> p in Heap(m.pg))
    ensures Counted(m', Add(rc, PdeOf(m'.pg, pid, v).base, 1), lost)
  {
    hide FrameOk, TablesOk, PageOk, Lists, Heap, Cnt, Through;
    var b0 := PdeOf(m'.pg, pid, v).base;
    OnePt(m'.pg, pid, v);
    assert TableOf(m'.pg, pid, b0);
    TableIn(m'.pg, pid, b0);
    var c := m.pg.fr.cfg;
    forall b | InRegion(c, D, b) ensures Through(m', b) == Through(m, b) + if b == b0 then 1 else 0 {
      MoreThrough(m, m', pid, v, b0, b);
    }
  }

  lemma MoreThrough(m: M, m': M, pid: int, v: int, b0: int, b: int)
    requires Inv(m.pg) && Inv(m'.pg) && SameTables(m.pg, m'.pg, pid) && m'.pg.procs.Keys >= m.pg.procs.Keys
    requires TableOf(m'.pg, pid, b0) && InHeap(m.pg.fr.cfg, v)
    requires (pid, v) !in Heap(m.pg) && (pid, v) in Heap(m'.pg)
    requires forall p: (int, int) :: p != (pid, v) ==> (p in Heap(m'.pg) <==> p in Heap(m.pg))
    ensures Through(m', b) == Through(m, b) + if b == b0 then 1 else 0
  {
    hide FrameOk, TablesOk, PageOk, Lists, Heap;
    forall q | q != pid ensures Pages(m', q) == Pages(m, q) {
      CntSame(Heap(m.pg), Heap(m'.pg), q, 0, m.pg.fr.cfg.heap);
    }
    CntOne(Heap(m.pg), Heap(m'.pg), pid, 0, m.pg.fr.cfg.heap, v);
    if b == b0 {
      ThroughIs(m', pid, b);
      if HasPt(m.pg, pid, 0) { ItsTable(m, m', pid, b); } else { FirstTable(m, m', pid, b); }
    } else {
      NotNew(m.pg, m'.pg, pid, b0, b);
      OldTables(m.pg, m'.pg, pid, b);
      ThroughSame(m, m', b);
    }
  }

  lemma ItsTable(m: M, m': M, pid: int, b: int)
    requires Inv(m.pg) && WF(m'.pg) && SameTables(m.pg, m'.pg, pid) && m'.pg.procs.Keys >= m.pg.procs.Keys
    requires TableOf(m'.pg, pid, b) && HasPt(m.pg, pid, 0)
    ensures Through(m, b) == Pages(m, pid)
  {
    hide FrameOk, TablesOk, PageOk, Lists, Pages;
    assert TableOf(m.pg, pid, PdeOf(m.pg, pid, 0).base);
    assert pid in m.pg.procs.Keys;
    assert TableOf(m'.pg, pid, PdeOf(m.pg, pid, 0).base);
    ThroughIs(m, pid, b);
  }

  lemma FirstTable(m: M, m': M, pid: int, b: int)
    requires Inv(m.pg) && Inv(m'.pg) && SameTables(m.pg, m'.pg, pid) && m'.pg.procs.Keys >= m.pg.procs.Keys
    requires TableOf(m'.pg, pid, b) && !HasPt(m.pg, pid, 0)
    ensures Through(m, b) == 0 && Pages(m, pid) == 0
  {
    hide FrameOk, TablesOk, PageOk, Lists, Pages, TableOf;
    forall r ensures TableOf(m.pg, r, b) ==> r == pid { OneOwner(m.pg, m'.pg, pid, r, b); }
    NoTable(m.pg, pid, b);
    ThroughNone(m, b);
    NoPages(m, pid);
  }

  lemma NotNew(s: Pg, s': Pg, pid: int, b0: int, b: int)
    requires WF(s) && WF(s') && SameTables(s, s', pid) && TableOf(s', pid, b0) && b != b0
    ensures forall q :: TableOf(s', q, b) ==> HasPt(s, q, 0)
    ensures !TableOf(s', pid, b)
  {}

  /** k pages of pid from a on have gone, and their count is taken off. */
  lemma LessCount(m: M, m': M, pid: int, a: int, k: nat, rc: Refs, lost: Refs)
    requires Inv(m.pg) && Inv(m'.pg) && Counted(m, rc, lost) && SameTables(m.pg, m'.pg, pid)
    requires m'.pg.procs.Keys == m.pg.procs.Keys && HasPt(m.pg, pid, 0) && 0 <= a && a + k <= m.pg.fr.cfg.heap
    requires forall p: (int, int) ::
      if p.0 == pid && a <= p.1 < a + k then p !in Heap(m'.pg) else (p in Heap(m'.pg) <==> p in Heap(m.pg))
    ensures Counted(m', Add(rc, PdeOf(m.pg, pid, 0).base, 0 - Cnt(Heap(m.pg), pid, a, k)), lost)
  {
    hide FrameOk, TablesOk, PageOk, Lists, Heap, Cnt, Through;
    var b0 := PdeOf(m.pg, pid, 0).base;
    assert TableOf(m.pg, pid, b0);
    TableIn(m.pg, pid, b0);
    var c := m.pg.fr.cfg;
    forall b | InRegion(c, D, b) ensures Through(m', b) == Through(m, b) - if b == b0 then Cnt(Heap(m.pg), pid, a, k)
    else 0 {
      LessThrough(m, m', pid, a, k, b0, b);
    }
  }

  lemma LessThrough(m: M, m': M, pid: int, a: int, k: nat, b0: int, b: int)
    requires Inv(m.pg) && Inv(m'.pg) && SameTables(m.pg, m'.pg, pid)
    requires m'.pg.procs.Keys == m.pg.procs.Keys && TableOf(m.pg, pid, b0) && 0 <= a && a + k <= m.pg.fr.cfg.heap
    requires forall p: (int, int) ::
      if p.0 == pid && a <= p.1 < a + k then p !in Heap(m'.pg) else (p in Heap(m'.pg) <==> p in Heap(m.pg))
    ensures Through(m', b) == Through(m, b) - if b == b0 then Cnt(Heap(m.pg), pid, a, k) else 0
  {
    hide FrameOk, TablesOk, PageOk, Lists, Heap;
    var (h, h', n) := (Heap(m.pg), Heap(m'.pg), m.pg.fr.cfg.heap);
    forall w ensures if a <= w < a + k then (pid, w) !in h' else ((pid, w) in h' <==> (pid, w) in h) {
      assert if (pid, w).0 == pid && a <= (pid, w).1 < a + k then (pid, w) !in h'
      else ((pid, w) in h' <==> (pid, w) in h);
    }
    CntGone(h, h', pid, n, a, k);
    assert pid in m.pg.procs.Keys;
    if b == b0 {
      ThroughIs(m, pid, b);
      ThroughIs(m', pid, b);
    } else {
      forall q | q != pid ensures Pages(m', q) == Pages(m, q) { CntSame(h, h', q, 0, n); }
      OtherTables(m.pg, m'.pg, pid, b0, b);
      ThroughSame(m, m', b);
    }
  }

  lemma OtherTables(s: Pg, s': Pg, pid: int, b0: int, b: int)
    requires WF(s) && WF(s') && SameTables(s, s', pid) && s'.procs.Keys == s.procs.Keys && TableOf(s, pid, b0)
      && b != b0
    ensures forall q :: TableOf(s, q, b) <==> TableOf(s', q, b)
    ensures !TableOf(s, pid, b)
  {
    assert pid in s.procs.Keys;
    forall q, x | TableOf(s', q, x) ensures HasPt(s, q, 0) { assert HasPt(s, q, 0) || q == pid; }
    OldTables(s, s', pid, b);
  }

  /** Process pid has gone, and its count stays. */
  lemma GoneCount(m: M, m': M, pid: int, rc: Refs, lost: Refs)
    requires Inv(m.pg) && Inv(m'.pg) && Counted(m, rc, lost) && SameTables(m.pg, m'.pg, pid)
    requires m'.pg.procs.Keys == m.pg.procs.Keys - {pid}
    requires forall p: (int, int) :: p.0 != pid ==> (p in Heap(m'.pg) <==> p in Heap(m.pg))
    ensures Counted(m', rc, LeftBy(lost, m, pid))
  {
    hide FrameOk, TablesOk, PageOk, Lists, Heap, Cnt, Through, Pages;
    var c := m.pg.fr.cfg;
    if HasPt(m.pg, pid, 0) { TableIn(m.pg, pid, PdeOf(m.pg, pid, 0).base); }
    forall b | InRegion(c, D, b) ensures Through(m, b) == Through(m', b)
      + if HasPt(m.pg, pid, 0) && PdeOf(m.pg, pid, 0).base == b then Pages(m, pid) else 0 {
      GoneThrough(m, m', pid, b);
    }
  }

  lemma GoneThrough(m: M, m': M, pid: int, b: int)
    requires Inv(m.pg) && Inv(m'.pg) && SameTables(m.pg, m'.pg, pid)
    requires m'.pg.procs.Keys == m.pg.procs.Keys - {pid}
    requires forall p: (int, int) :: p.0 != pid ==> (p in Heap(m'.pg) <==> p in Heap(m.pg))
    ensures Through(m, b) == Through(m', b) + if TableOf(m.pg, pid, b) then Pages(m, pid) else 0
  {
    hide FrameOk, TablesOk, PageOk, Lists, Heap;
    forall q | q != pid ensures Pages(m', q) == Pages(m, q) {
      CntSame(Heap(m.pg), Heap(m'.pg), q, 0, m.pg.fr.cfg.heap);
    }
    GoneTables(m.pg, m'.pg, pid, b);
    if TableOf(m.pg, pid, b) {
      ThroughIs(m, pid, b);
      ThroughNone(m', b);
    } else {
      ThroughSame(m, m', b);
    }
  }

  lemma GoneTables(s: Pg, s': Pg, pid: int, b: int)
    requires Inv(s) && WF(s') && SameTables(s, s', pid) && s'.procs.Keys == s.procs.Keys - {pid}
    ensures forall q :: TableOf(s', q, b) <==> TableOf(s, q, b) && q != pid
    ensures TableOf(s, pid, b) ==> forall q :: !TableOf(s', q, b)
  {
    hide FrameOk, TablesOk, PageOk, Lists;
    forall q ensures TableOf(s', q, b) <==> TableOf(s, q, b) && q != pid {
      assert q in s'.procs <==> q in s'.procs.Keys;
      if TableOf(s', q, b) {
        assert HasPt(s, q, 0) && TableOf(s, q, PdeOf(s, q, 0).base);
        assert TableOf(s', q, PdeOf(s, q, 0).base);
      }
    }
    if TableOf(s, pid, b) {
      TableIn(s, pid, b);
      forall q | TableOf(s, q, b) ensures q == pid { TableIn(s, q, b); }
    }
  }

  /** The processes after a step. */
  ghost predicate StepKeys(m: M, t: Step, m': M) {
    match t
    case Kill(pid) => m'.pg.procs.Keys == m.pg.procs.Keys - {pid}
    case Create(pid) => m'.pg.procs.Keys == m.pg.procs.Keys + {pid}
    case _ => m'.pg.procs.Keys == m.pg.procs.Keys
  }

  lemma HandleTables(m: M, pid: int, v: int)
    requires Inv(m.pg) && pid in m.pg.procs && InHeap(m.pg.fr.cfg, v) && m.pg.procs[pid].alloc[v]
    ensures WF(Handle(m, pid, v).pg) && SameTables(m.pg, Handle(m, pid, v).pg, pid)
    ensures Handle(m, pid, v).pg.procs.Keys == m.pg.procs.Keys
  {
    EnsureTables(m.pg, pid, v);
    hide Core, EnsurePt, Scenarios, TableOf, HasRoom, KillProc, PdeOf;
    var (s1, ok) := EnsurePt(m.pg, pid, v);
    if ok { ScenariosTables(m.(addr := v, pg := s1), pid); }
  }

  lemma ScenariosTables(m: M, pid: int)
    requires WF(m.pg) && HasPt(m.pg, pid, m.addr)
    ensures var s' := Scenarios(m, pid).pg;
      WF(s') && s'.procs == m.pg.procs && s'.fr.cfg == m.pg.fr.cfg
        && forall q, b :: TableOf(s', q, b) <==> TableOf(m.pg, q, b)
  {
    hide WF, FetchPage, FreshPage, TableOf, HasRoom, PteOf;
    SameDirTables(m.pg, Scenarios(m, pid).pg);
  }

  lemma SameDirTables(s: Pg, s': Pg)
    requires WF(s) && WF(s') && s'.procs == s.procs && s'.pd == s.pd && s'.fr.cfg == s.fr.cfg
    ensures forall q, b :: TableOf(s', q, b) <==> TableOf(s, q, b)
  {}

  lemma StepTables(m: M, t: Step)
    requires MInv(m) && Possible(m, t) && !(t.Fault? && !m.pg.procs[t.pid].alloc[t.v])
    ensures WF(Next(m, t).pg) && SameTables(m.pg, Next(m, t).pg, t.pid) && StepKeys(m, t, Next(m, t))
  {
    hide FrameOk, TablesOk, PageOk, Lists, Reach, Handle, FreshPage, ReleasePages, GrantPages, FreeOwned, Spawn,
      TableOf, SameTables, PteOf, PdeOf, HasRoom, Shape, WF;
    match t
    case Fault(pid, v) => HandleTables(m, pid, v);
    case Resume(pid) => DirsTables(m.pg, Next(m, t).pg, pid);
    case Write(pid, v, off, b) => DirsTables(m.pg, Next(m, t).pg, pid);
    case Grant(pid, v, n) => DirsTables(m.pg, Next(m, t).pg, pid);
    case Release(pid, v, n, skip) => DirsTables(m.pg, Next(m, t).pg, pid);
    case Kill(pid) => ReapTables(m.pg, pid);
    case Create(pid) =>
      ReachLow(m.pg.fr);
      SpawnTables2(m.pg, pid);
      SpawnKeeps(m.pg, pid);
  }

  lemma ReapTables(s: Pg, pid: int)
    requires WF(s)
    ensures SameTables(s, Reap(s, pid), pid) && Reap(s, pid).procs.Keys == s.procs.Keys - {pid}
  {
    hide FreeOwned;
    DirsTables(s, Reap(s, pid), pid);
  }

  lemma PdeSame(s: Pg, pid: int, v: int)
    requires WF(s) && pid in s.procs && InHeap(s.fr.cfg, v)
    ensures InHeap(s.fr.cfg, 0) && PdeOf(s, pid, v) == PdeOf(s, pid, 0)
  {}

  /** In every step the counts follow. */
  lemma CountStep(m: M, t: Step, rc: Refs, lost: Refs)
    requires MInv(m) && Enabled(m, t) && Counted(m, rc, lost)
    ensures WF(Next(m, t).pg) && Counted(Next(m, t), Counts(rc, m, t), Left(lost, m, t))
  {
    hide FrameOk, TablesOk, PageOk, Lists, Reach, Next, Heap, Counted, Cnt, SameTables, Harmless, HasRoom, PdeOf,
      LeftBy,
      Mapping;
    StepSafe(m, t);
    match t
    case Fault(pid, v) =>
      if m.pg.procs[pid].alloc[v] {
        StepTables(m, t);
        FaultCount(m, pid, v, rc, lost);
      } else {
        SegvCount(m, pid, v, rc, lost);
      }
    case Resume(pid) => StepTables(m, t); ResumeCount(m, pid, rc, lost);
    case Write(pid, v, off, b) => StepTables(m, t); KeptCount(m, Next(m, t), pid, rc, lost);
    case Grant(pid, v, n) => StepTables(m, t); KeptCount(m, Next(m, t), pid, rc, lost);
    case Release(pid, v, n, skip) => StepTables(m, t); ReleaseCount(m, pid, v, n, skip, rc, lost);
    case Kill(pid) => StepTables(m, t); LostCount(m, Next(m, t), pid, rc, lost);
    case Create(pid) => StepTables(m, t); KeptCount(m, Next(m, t), pid, rc, lost);
  }

  lemma FaultCount(m: M, pid: int, v: int, rc: Refs, lost: Refs)
    requires MInv(m) && Enabled(m, Fault(pid, v)) && Counted(m, rc, lost) && m.pg.procs[pid].alloc[v]
    requires var m' := Next(m, Fault(pid, v));
      && MInv(m') && Effect(m, Fault(pid, v), m') && SameTables(m.pg, m'.pg, pid) && StepKeys(m, Fault(pid, v), m')
    ensures Counted(Next(m, Fault(pid, v)), Counts(rc, m, Fault(pid, v)), lost)
  {
    hide FrameOk, TablesOk, PageOk, Lists, Reach, Next, Heap, Counted, Cnt, SameTables, Harmless, HasRoom, PdeOf,
      Handle;
    var m' := Next(m, Fault(pid, v));
    HeapAt(m.pg, pid, v);
    HeapAt(m'.pg, pid, v);
    if (pid, v) in Heap(m.pg) || !HasRoom(m.pg) {
      KeptCount(m, m', pid, rc, lost);
    } else {
      MappedKeys(m, m', pid, v);
      MoreCount(m, m', pid, v, rc, lost);
    }
  }

  lemma MappedKeys(m: M, m': M, pid: int, v: int)
    requires WF(m.pg) && WF(m'.pg) && Mapping(m, m', pid, v) && HasRoom(m.pg)
    ensures HasPt(m'.pg, pid, v) && (pid, v) in Heap(m'.pg)
    ensures forall p: (int, int) :: p != (pid, v) ==> (p in Heap(m'.pg) <==> p in Heap(m.pg))
  {
    hide Heap, HasRoom;
    HeapAt(m'.pg, pid, v);
    forall p: (int, int) | p != (pid, v) ensures p in Heap(m'.pg) <==> p in Heap(m.pg) {
      assert SameAt(Heap(m.pg), Heap(m'.pg), p);
    }
  }

  lemma ResumeCount(m: M, pid: int, rc: Refs, lost: Refs)
    requires MInv(m) && Enabled(m, Resume(pid)) && Counted(m, rc, lost)
    requires var m' := Next(m, Resume(pid));
      && MInv(m') && Effect(m, Resume(pid), m') && SameTables(m.pg, m'.pg, pid) && StepKeys(m, Resume(pid), m')
    ensures Counted(Next(m, Resume(pid)), Counts(rc, m, Resume(pid)), lost)
  {
    hide FrameOk, TablesOk, PageOk, Lists, Reach, Next, Heap, Counted, Cnt, HasRoom, PdeOf, EvictFits;
    var m' := Next(m, Resume(pid));
    if !HasRoom(m.pg) {
      KeptCount(m, m', pid, rc, lost);
    } else {
      HeapAt(m.pg, pid, m.addr);
      MappedKeys(m, m', pid, m.addr);
      MoreCount(m, m', pid, m.addr, rc, lost);
      PdeSame(m.pg, pid, m.addr);
      PdeSame(m'.pg, pid, m.addr);
      assert TableOf(m.pg, pid, PdeOf(m.pg, pid, 0).base) by { OnePt(m.pg, pid, m.addr); }
      assert TableOf(m'.pg, pid, PdeOf(m.pg, pid, 0).base);
    }
  }

  lemma ReleaseCount(m: M, pid: int, v: int, n: nat, skip: bool, rc: Refs, lost: Refs)
    requires MInv(m) && Enabled(m, Release(pid, v, n, skip)) && Counted(m, rc, lost)
    requires var (t, m') := (Release(pid, v, n, skip), Next(m, Release(pid, v, n, skip)));
      MInv(m') && Effect(m, t, m') && SameTables(m.pg, m'.pg, pid) && StepKeys(m, t, m')
    ensures Counted(Next(m, Release(pid, v, n, skip)), Counts(rc, m, Release(pid, v, n, skip)), lost)
  {
    hide FrameOk, TablesOk, PageOk, Lists, Reach, Next, Heap, Counted, Cnt, HasRoom, PdeOf, EvictFits, SameTables;
    var m' := Next(m, Release(pid, v, n, skip));
    var (a, k: nat) := (if skip then v + 1 else v, if skip then n - 1 else n);
    assert HasPt(m.pg, pid, v) && HasPt(m.pg, pid, v + n - 1);
    OnePt(m.pg, pid, v);
    PdeSame(m.pg, pid, v);
    forall p: (int, int)
      ensures if p.0 == pid && a <= p.1 < a + k then p !in Heap(m'.pg) else (p in Heap(m'.pg) <==> p in Heap(m.pg)) {}
    LessCount(m, m', pid, a, k, rc, lost);
  }

  lemma LostCount(m: M, m': M, pid: int, rc: Refs, lost: Refs)
    requires Inv(m.pg) && Inv(m'.pg) && Counted(m, rc, lost) && SameTables(m.pg, m'.pg, pid)
    requires m'.pg.procs.Keys == m.pg.procs.Keys - {pid} && OnlyLosesProc(Heap(m.pg), Heap(m'.pg), pid)
    ensures Counted(m', rc, LeftBy(lost, m, pid))
  {
    hide FrameOk, TablesOk, PageOk, Lists, Heap, Counted, Cnt, SameTables, LeftBy;
    forall p: (int, int) | p.0 != pid ensures p in Heap(m'.pg) <==> p in Heap(m.pg) {
      assert SameAt(Heap(m.pg), Heap(m'.pg), p);
    }
    GoneCount(m, m', pid, rc, lost);
  }

  lemma SegvCount(m: M, pid: int, v: int, rc: Refs, lost: Refs)
    requires MInv(m) && Enabled(m, Fault(pid, v)) && Counted(m, rc, lost) && !m.pg.procs[pid].alloc[v]
    requires MInv(Next(m, Fault(pid, v))) && Effect(m, Fault(pid, v), Next(m, Fault(pid, v)))
    ensures var t := Fault(pid, v); Counted(Next(m, t), Counts(rc, m, t), Left(lost, m, t))
  {
    hide FrameOk, TablesOk, PageOk, Lists, Reach, Heap, Counted, Cnt, SameTables, HasRoom, PdeOf, Reap, OnlyLosesProc,
      LeftBy;
    ReapTables(m.pg, pid);
    LostCount(m, Next(m, Fault(pid, v)), pid, rc, lost);
  }

  // ---- the pages of one process, one after the other ----

  /** The pages from v on, up to e, are as they were. */
  ghost predicate SameRest(s: Pg, s': Pg, pid: int, v: int, e: int)
    requires WF(s) && WF(s')
  {
    && s'.fr.cfg == s.fr.cfg && s'.pd == s.pd && pid in s.procs && pid in s'.procs
    && s'.procs[pid].pd == s.procs[pid].pd && forall w :: v <= w < e ==> (Mapped(s', pid, w) <==> Mapped(s, pid, w))
  }

  lemma RestStart(s: Pg, pid: int, v: int, e: int)
    requires WF(s) && HasPt(s, pid, v)
    ensures SameRest(s, s, pid, v, e)
  {}

  lemma RestLess(s: Pg, s': Pg, pid: int, v: int, e: int)
    requires WF(s) && WF(s') && SameRest(s, s', pid, v, e)
    ensures SameRest(s, s', pid, v + 1, e)
  {}

  lemma RestUnmapped(s: Pg, s': Pg, pid: int, v: int, e: int)
    requires WF(s) && WF(s') && SameRest(s, s', pid, v, e) && HasPt(s', pid, v)
    ensures SameRest(s, UnmapPage(s', pid, v), pid, v + 1, e)
  {
    hide Free;
    forall w | v + 1 <= w < e ensures Mapped(UnmapPage(s', pid, v), pid, w) <==> Mapped(s, pid, w) {
      assert Mapped(s', pid, w) <==> Mapped(s, pid, w);
    }
  }

  lemma SameBase(s: Pg, s': Pg, pid: int, v: int, w: int)
    requires WF(s) && WF(s') && HasPt(s, pid, v) && HasPt(s', pid, w)
    requires s'.fr.cfg == s.fr.cfg && s'.pd == s.pd && s'.procs[pid].pd == s.procs[pid].pd
    ensures PdeOf(s', pid, w) == PdeOf(s, pid, v)
  {}

  lemma UnmapNone(s: Pg, pid: int, v: int)
    requires WF(s)
    ensures UnmapPages(s, pid, v, 0) == s
  {
    hide WF;
  }

  /** The counts when the pages of pid from a on, k of them, have been taken off; v is any page of its. */
  ghost function TakenOff(rc: Refs, s: Pg, pid: int, v: int, a: int, k: nat): Refs
    requires WF(s) && HasPt(s, pid, v)
  {
    Add(rc, PdeOf(s, pid, v).base, 0 - Cnt(Heap(s), pid, a, k))
  }

  lemma TakenNone(rc: Refs, s: Pg, pid: int, v: int, a: int)
    requires WF(s) && HasPt(s, pid, v)
    ensures TakenOff(rc, s, pid, v, a, 0) == rc
  {
    hide PdeOf, Heap, WF;
  }

  /** One page more. */
  lemma CountMore(s: Pg, s': Pg, pid: int, v: int, a: int, k: nat, e: int, rc: Refs)
    requires WF(s) && WF(s') && SameRest(s, s', pid, a + k, e) && a + k < e && HasPt(s, pid, v) && HasPt(s', pid, a + k)
    ensures TakenOff(rc, s, pid, v, a, k + 1)
      == if Mapped(s', pid, a + k) then Add(TakenOff(rc, s, pid, v, a, k), PdeOf(s', pid, a + k).base, -1)
         else TakenOff(rc, s, pid, v, a, k)
  {
    hide Heap, Mapped, WF, PdeOf, HasPt, Cnt;
    SameBase(s, s', pid, v, a + k);
    CntLast(Heap(s), pid, a, k);
    HeapAt(s, pid, a + k);
    assert Mapped(s', pid, a + k) <==> Mapped(s, pid, a + k);
  }

  lemma CntLast(h: Seen, pid: int, a: int, k: nat)
    ensures Cnt(h, pid, a, k + 1) == Cnt(h, pid, a, k) + if (pid, a + k) in h then 1 else 0
  {
    CntSplit(h, pid, a, k, k + 1);
  }

  /** Halfway through the loop of __set_pages_deallocated that started from s and rc: the pages from a on, up
      to w, have been unmapped and taken off, those up to e are left. */
  ghost predicate Turning(s: Pg, s': Pg, pid: int, v: int, a: int, w: int, e: int, target: Pg, rc: Refs, rc': Refs)
    requires WF(s) && WF(s')
  {
    && (forall x :: v <= x < e ==> HasPt(s', pid, x)) && HasPt(s, pid, v) && v <= a <= w <= e
    && SameRest(s, s', pid, w, e) && UnmapPages(s', pid, w, e - w) == target
    && rc' == TakenOff(rc, s, pid, v, a, w - a)
  }

  lemma TurnStart(s: Pg, pid: int, v: int, e: int, skip: bool, rc: Refs)
    requires WF(s) && v < e && forall w :: v <= w < e ==> HasPt(s, pid, w)
    ensures var a := if skip then v + 1 else v;
      Turning(s, s, pid, v, a, a, e, ReleasePages(s, pid, v, e - v, skip), rc, rc)
  {
    hide WF, HasPt, TakenOff, SameRest, UnmapPages;
    assert HasPt(s, pid, v);
    TakenNone(rc, s, pid, v, if skip then v + 1 else v);
    RestStart(s, pid, v, e);
    if skip { RestLess(s, s, pid, v, e); }
  }

  lemma TurnNext(s: Pg, s': Pg, pid: int, v: int, a: int, w: int, e: int, target: Pg, rc: Refs, rc': Refs)
    requires WF(s) && WF(s') && w < e && Turning(s, s', pid, v, a, w, e, target, rc, rc')
    ensures HasPt(s', pid, w)
    ensures Turning(s, UnmapPage(s', pid, w), pid, v, a, w + 1, e, target, rc,
      if Mapped(s', pid, w) then Add(rc', PdeOf(s', pid, w).base, -1) else rc')
  {
    hide WF, HasPt, TakenOff, SameRest, UnmapPage, PdeOf, Mapped, Add;
    assert HasPt(s', pid, w);
    CountMore(s, s', pid, v, a, w - a, e, rc);
    RestUnmapped(s, s', pid, w, e);
  }

  lemma TurnEnd(s: Pg, s': Pg, pid: int, v: int, a: int, e: int, target: Pg, rc: Refs, rc': Refs)
    requires WF(s) && WF(s') && Turning(s, s', pid, v, a, e, e, target, rc, rc')
    ensures s' == target && HasPt(s, pid, v) && rc' == TakenOff(rc, s, pid, v, a, e - a)
  {
    hide WF, HasPt, TakenOff, SameRest;
    UnmapNone(s', pid, e);
  }

  // ---- runs ----

  /** init_invpt: every count is zero. */
  function Zero(c: Cfg): Refs { map b | c.d0 <= b < c.e1 && InRegion(c, D, b) :: 0 }

  lemma StartCounted(m: M)
    requires WF(m.pg) && m.pg.procs == map[]
    ensures Counted(m, Zero(m.pg.fr.cfg), Zero(m.pg.fr.cfg))
  {
    forall b | InRegion(m.pg.fr.cfg, D, b) ensures Through(m, b) == 0 { ThroughNone(m, b); }
  }

  /** The counts along a run. */
  ghost predicate Along(ms: seq<M>, ts: seq<Step>, rcs: seq<Refs>, losts: seq<Refs>)
    requires IsRun(ms, ts)
  {
    && |rcs| == |losts| == |ms| && WF(ms[0].pg) && Counted(ms[0], rcs[0], losts[0])
    && forall i :: 0 <= i < |ts| ==> Follows(ms[i], ts[i], rcs[i], losts[i], rcs[i + 1], losts[i + 1])
  }

  ghost predicate Follows(m: M, t: Step, rc: Refs, lost: Refs, rc': Refs, lost': Refs) {
    WF(m.pg) && Possible(m, t) && WF(Next(m, t).pg) && rc' == Counts(rc, m, t) && lost' == Left(lost, m, t)
  }

  /** In every state of every run the count of a page table is the number of its process's pages that have
      a frame, and what the processes killed with this table had when they were killed. */
  lemma {:induction false} CountRun(ms: seq<M>, ts: seq<Step>, rcs: seq<Refs>, losts: seq<Refs>, k: nat)
    requires IsRun(ms, ts) && Along(ms, ts, rcs, losts) && k < |ms|
    ensures WF(ms[k].pg) && Counted(ms[k], rcs[k], losts[k])
  {
    hide MInv, Next, Enabled, Counted, Counts, Left, Possible;
    if k > 0 {
      CountRun(ms, ts, rcs, losts, k - 1);
      RunSafe(ms, ts, k - 1);
      assert StepsTo(ms[k - 1], ts[k - 1], ms[k]);
      assert Follows(ms[k - 1], ts[k - 1], rcs[k - 1], losts[k - 1], rcs[k], losts[k]);
      CountStep(ms[k - 1], ts[k - 1], rcs[k - 1], losts[k - 1]);
    }
  }

  /** So it is right exactly when nobody has left anything. */
  lemma CountExact(m: M, pid: int, b: int, rc: Refs, lost: Refs)
    requires Inv(m.pg) && Counted(m, rc, lost) && TableOf(m.pg, pid, b)
    ensures b in rc && b in lost && (rc[b] == Pages(m, pid) <==> lost[b] == 0)
  {
    hide FrameOk, TablesOk, PageOk, Lists, Pages, Through;
    TableIn(m.pg, pid, b);
    ThroughIs(m, pid, b);
  }

  /** kill leaves it: the table's frame is free again, its count is what it was, and a table that newpt makes of
      this frame starts with it. */
  lemma KillLeaves(m: M, pid: int, b: int, rc: Refs, lost: Refs)
    requires MInv(m) && Enabled(m, Kill(pid)) && Counted(m, rc, lost) && TableOf(m.pg, pid, b)
    ensures var m' := Next(m, Kill(pid));
      && WF(m'.pg) && b in m'.pg.fr.free[D] && b in rc && b in lost
      && Counts(rc, m, Kill(pid)) == rc && rc[b] == lost[b] + Pages(m, pid)
  {
    hide FrameOk, TablesOk, PageOk, Lists, Reach, Pages, Through, HasRoom, Heap, FreeOwned;
    TableIn(m.pg, pid, b);
    ThroughIs(m, pid, b);
    StepSafe(m, Kill(pid));
    ReapFrees(m.pg, pid);
    FreeIsListed(Reap(m.pg, pid).fr, D, b);
  }
}
