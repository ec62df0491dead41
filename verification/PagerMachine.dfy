/** The pager as a state machine over whole runs: page faults, blocking on frames, stores,
    grants and releases of heap pages, kill and process creation, one atomic step each. */
module PagerMachine {
  import opened Bytes
  import opened Frames
  import opened Pager
  import opened PagerInv
  import opened PagerReach
  import opened PagerSteps
  import opened BlockQueues

  /** addr is the page of the latest fault, the global pgfaddr. pend maps each process inside the
      blocking loop of pgfhandler to its own page, which the program does not keep. Of these, those in
      state PR_FRAME are blocked. waitq is the ring of frameblock: who is killed stays in it. */
  datatype M = M(pg: Pg, pend: map<int, int>, blocked: set<int>, waitq: seq<int>, nproc: int, addr: int)

  datatype Step =
    | Fault(pid: int, v: int)
    | Resume(pid: int)
    | Write(pid: int, v: int, off: int, b: byte)
    | Grant(pid: int, v: int, n: nat)
    | Release(pid: int, v: int, n: nat, skip: bool)
    | Kill(pid: int)
    | Create(pid: int)

  ghost predicate Running(m: M, pid: int) { pid in m.pg.procs && pid !in m.pend }

  ghost predicate Present(s: Pg, pid: int, v: int) requires WF(s) { HasPt(s, pid, v) && PteOf(s, pid, v).pres }

  /** When a step can happen: a fault on a page that is not present, with a page table or a D frame for
      one; a process coming back into the loop once it has been woken; a release of pages whose page
      table exists; a kill of any process but the null process; a creation under any free number. */
  ghost predicate Possible(m: M, t: Step)
    requires WF(m.pg)
  {
    var c := m.pg.fr.cfg;
    match t
    case Fault(pid, v) =>
      && Running(m, pid) && InHeap(c, v) && !Present(m.pg, pid, v)
      && (if m.pg.procs[pid].alloc[v] then PdeOf(m.pg, pid, v).pres || HasFree(m.pg.fr, D) else pid != 0)
    case Resume(pid) => pid in m.pend && pid !in m.blocked && HasPt(m.pg, pid, m.addr)
    case Write(pid, v, off, b) => Running(m, pid) && Present(m.pg, pid, v) && 0 <= off < NBPG
    case Grant(pid, v, n) => Running(m, pid) && 0 <= v && v + n <= c.heap
    case Release(pid, v, n, skip) => Running(m, pid) && n > 0 && forall w :: v <= w < v + n ==> HasPt(m.pg, pid, w)
    case Kill(pid) => pid in m.pg.procs && pid != 0
    case Create(pid) => pid !in m.pg.procs && 0 <= pid < m.nproc && HasFree(m.pg.fr, D)
  }

  /** When it also keeps the invariant, which can be looked up beforehand (PagerExact.StepExact): an
      eviction finds an E2 frame below the bound of invtakeframe; a process that blocks finds a slot in
      the ring, or nobody there whom it could drop; a process that goes on finds, at the address of the
      latest fault, a page of its own that is allocated and has no frame. */
  ghost predicate Harmless(m: M, t: Step)
    requires WF(m.pg)
  {
    match t
    case Fault(pid, v) =>
      pid in m.pg.procs && InHeap(m.pg.fr.cfg, v) && m.pg.procs[pid].alloc[v] ==>
        EvictFits(m.pg.fr) && (!HasRoom(m.pg) && !Mapped(m.pg, pid, v) ==> RingFits(m))
    case Resume(pid) =>
      if HasRoom(m.pg) then EvictFits(m.pg.fr) && AddrFits(m.pg, pid, m.addr) else RingFits(m)
    case _ => true
  }

  ghost predicate RingFits(m: M) { |m.waitq| < m.nproc || forall q :: q !in m.blocked }

  ghost predicate AddrFits(s: Pg, pid: int, v: int)
    requires WF(s)
  {
    HasPt(s, pid, v) && s.procs[pid].alloc[v] && !Mapped(s, pid, v)
  }

  ghost predicate Enabled(m: M, t: Step) requires WF(m.pg) { Possible(m, t) && Harmless(m, t) }

  ghost predicate HasRoom(s: Pg) requires WF(s) { HasFree(s.fr, E1) || HasFree(s.fr, E2) }

  /** framewakeup: everybody in the ring is made ready as soon as there is a free frame. */
  ghost function Wake(m: M): M requires WF(m.pg) {
    if HasRoom(m.pg) then m.(waitq := [], blocked := m.blocked - set q | q in m.waitq) else m
  }

  /** frameblock */
  ghost function Park(m: M, pid: int): M {
    m.(pend := if pid in m.pend then m.pend else m.pend[pid := m.addr], blocked := m.blocked + {pid},
       waitq := Put(m.waitq, m.nproc, pid))
  }

  /** The body of the loop for a page without a frame: block, or map a frame at the address of the
      latest fault and leave. */
  ghost function Loop(m: M, pid: int): M
    requires WF(m.pg) && HasPt(m.pg, pid, m.addr)
  {
    if !HasRoom(m.pg) then Park(m, pid)
    else m.(pg := FreshPage(m.pg, pid, m.addr).0, pend := m.pend - {pid})
  }

  /** kill as far as frames go. */
  ghost function KillProc(m: M, pid: int): M requires WF(m.pg) {
    Wake(m.(pg := Reap(m.pg, pid), pend := m.pend - {pid}, blocked := m.blocked - {pid}))
  }

  /** pgfdisp and pgfhandler */
  ghost function Handle(m: M, pid: int, v: int): M
    requires WF(m.pg) && pid in m.pg.procs && InHeap(m.pg.fr.cfg, v)
  {
    var m0 := m.(addr := v);
    if !m.pg.procs[pid].alloc[v] then KillProc(m0, pid)
    else
      var (s1, ok) := EnsurePt(m.pg, pid, v);
      if !ok then m0 else Scenarios(m0.(pg := s1), pid)
  }

  /** The scenarios of pgfhandler, once the page table is there. */
  ghost function Scenarios(m: M, pid: int): M
    requires WF(m.pg) && HasPt(m.pg, pid, m.addr)
  {
    if !PteOf(m.pg, pid, m.addr).swap then Loop(m, pid)
    else if InTable(m.pg.fr.cfg, PteOf(m.pg, pid, m.addr).base) then m.(pg := FetchPage(m.pg, pid, m.addr).0)
    else m
  }

  /** __set_pages_allocated */
  ghost function GrantPages(s: Pg, pid: int, v: int, n: nat): (s': Pg)
    requires WF(s) && pid in s.procs && 0 <= v && v + n <= s.fr.cfg.heap
    ensures WF(s') && s'.fr.cfg == s.fr.cfg && s'.procs.Keys == s.procs.Keys && SameDirs(s, s')
    decreases n
  {
    if n == 0 then s else GrantPages(SetAlloc(s, pid, v, true), pid, v + 1, n - 1)
  }

  ghost function Next(m: M, t: Step): M
    requires WF(m.pg) && Possible(m, t)
  {
    match t
    case Fault(pid, v) => Handle(m, pid, v)
    case Resume(pid) => Loop(m, pid)
    case Write(pid, v, off, b) =>
      if 0 <= PteOf(m.pg, pid, v).base < m.pg.fr.cfg.f then m.(pg := Store(m.pg, pid, v, off, b)) else m
    case Grant(pid, v, n) => m.(pg := GrantPages(m.pg, pid, v, n))
    case Release(pid, v, n, skip) => Wake(m.(pg := ReleasePages(m.pg, pid, v, n, skip)))
    case Kill(pid) => KillProc(m, pid)
    case Create(pid) => m.(pg := Spawn(m.pg, pid).0)
  }

  /** The frames that the bound excludes have never been in use; a process inside the loop waits for
      a page of its own that is allocated, has its page table and has no frame. */
  ghost predicate MInv(m: M) {
    && Inv(m.pg) && Reach(m.pg.fr)
    && (forall q :: q in m.pg.procs ==> 0 <= q < m.nproc)
    && (forall q :: q in m.pend ==> PendOk(m, q)) && (m.pend != map[] ==> InHeap(m.pg.fr.cfg, m.addr))
    && RingOk(m)
  }

  /** Everybody who is blocked is in the ring, and nobody is while E1 or E2 has a free frame. */
  ghost predicate RingOk(m: M)
    requires WF(m.pg)
  {
    && m.blocked <= m.pend.Keys && |m.waitq| <= m.nproc
    && (forall i :: 0 <= i < |m.waitq| ==> 0 <= m.waitq[i] < m.nproc)
    && (forall q :: q in m.blocked ==> q in m.waitq)
    && (m.waitq != [] ==> !HasRoom(m.pg))
  }

  ghost predicate PendOk(m: M, q: int) {
    q in m.pend && WF(m.pg) && HasPt(m.pg, q, m.pend[q]) && !Mapped(m.pg, q, m.pend[q])
    && m.pg.procs[q].alloc[m.pend[q]]
  }

  /** Everything the processes can see: the bytes of every page that has a frame. */
  ghost function Heap(s: Pg): map<(int, int), seq<byte>>
    requires WF(s)
  {
    map q, w | q in s.procs && 0 <= w < s.fr.cfg.heap && Mapped(s, q, w) :: (q, w) := PageBytes(s, q, w)
  }

  /** What a step does to the pages, in terms of the pages alone. */
  ghost predicate Effect(m: M, t: Step, m': M)
    requires WF(m.pg) && WF(m'.pg) && Possible(m, t)
  {
    var (h, h') := (Heap(m.pg), Heap(m'.pg));
    match t
    case Fault(pid, v) =>
      if !m.pg.procs[pid].alloc[v] then OnlyLosesProc(h, h', pid)
      else if (pid, v) in h then h' == h && Present(m'.pg, pid, v)
      else Mapping(m, m', pid, v)
    case Resume(pid) => Mapping(m, m', pid, m.addr)
    case Write(pid, v, off, b) =>
      && (pid, v) in h && |h[(pid, v)]| == NBPG && h' == h[(pid, v) := h[(pid, v)][off := b]]
    case Grant(_, _, _) => h' == h
    case Release(pid, v, n, skip) =>
      forall p: (int, int) ::
        if p.0 == pid && v <= p.1 < v + n && !(skip && p.1 == v) then p !in h' else SameAt(h, h', p)
    case Kill(pid) => OnlyLosesProc(h, h', pid)
    case Create(_) => h' == h
  }

  ghost predicate SameAt(h: map<(int, int), seq<byte>>, h': map<(int, int), seq<byte>>, p: (int, int)) {
    (p in h <==> p in h') && (p in h ==> h'[p] == h[p])
  }

  ghost predicate OnlyLosesProc(h: map<(int, int), seq<byte>>, h': map<(int, int), seq<byte>>, pid: int) {
    forall p: (int, int) :: if p.0 == pid then p !in h' else SameAt(h, h', p)
  }

  /** A page without a frame: the process waits exactly when there is no room in E1 and E2;
      otherwise the page is present and no other page has changed. */
  ghost predicate Mapping(m: M, m': M, pid: int, v: int)
    requires WF(m.pg) && WF(m'.pg)
  {
    if !HasRoom(m.pg) then Heap(m'.pg) == Heap(m.pg) && pid in m'.blocked && m'.waitq == Put(m.waitq, m.nproc, pid)
    else
      && Present(m'.pg, pid, v) && pid !in m'.pend
      && forall p: (int, int) :: p != (pid, v) ==> SameAt(Heap(m.pg), Heap(m'.pg), p)
  }

  lemma MapExt(h: map<(int, int), seq<byte>>, h': map<(int, int), seq<byte>>)
    requires forall p: (int, int) :: SameAt(h, h', p)
    ensures h == h'
  {
    forall p: (int, int) ensures p in h <==> p in h' { assert SameAt(h, h', p); }
    forall p | p in h ensures h[p] == h'[p] { assert SameAt(h, h', p); }
  }

  lemma HeapAt(s: Pg, q: int, w: int)
    requires WF(s)
    ensures (q, w) in Heap(s) <==> Mapped(s, q, w)
    ensures Mapped(s, q, w) ==> Heap(s)[(q, w)] == PageBytes(s, q, w)
  {}

  lemma HeapSameAt(s: Pg, s': Pg, q: int, w: int)
    requires WF(s) && WF(s') && SamePage(s, s', q, w)
    ensures SameAt(Heap(s), Heap(s'), (q, w))
  {
    HeapAt(s, q, w);
    HeapAt(s', q, w);
  }

  lemma HeapSame(s: Pg, s': Pg)
    requires WF(s) && WF(s') && forall q, w :: SamePage(s, s', q, w)
    ensures Heap(s) == Heap(s')
  {
    var (h, h') := (Heap(s), Heap(s'));
    forall p: (int, int) ensures SameAt(h, h', p) { HeapSameAt(s, s', p.0, p.1); }
    MapExt(h, h');
  }

  lemma HeapSameExcept(s: Pg, s': Pg, pid: int, v: int)
    requires WF(s) && WF(s') && SameExcept(s, s', pid, v)
    ensures forall p: (int, int) :: p != (pid, v) ==> SameAt(Heap(s), Heap(s'), p)
  {
    forall p: (int, int) | p != (pid, v) ensures SameAt(Heap(s), Heap(s'), p) {
      assert SamePage(s, s', p.0, p.1);
      HeapSameAt(s, s', p.0, p.1);
    }
  }

  /** Processes inside the loop stay as they were when their pages and marks do. */
  lemma PendCarry(m: M, m': M)
    requires MInv(m) && WF(m'.pg)
    requires forall q :: q in m'.pend ==> q in m.pend && m'.pend[q] == m.pend[q]
    requires forall q :: q in m'.pend ==>
      q in m.pg.procs && q in m'.pg.procs && m'.pg.procs[q].alloc == m.pg.procs[q].alloc
    requires forall q, w :: q in m'.pend ==> SamePage(m.pg, m'.pg, q, w) || w != m.pend[q]
    ensures forall q :: q in m'.pend ==> PendOk(m', q)
  {
    hide Inv, Lists;
    forall q | q in m'.pend ensures PendOk(m', q) {
      assert PendOk(m, q) && SamePage(m.pg, m'.pg, q, m.pend[q]);
    }
  }

  // ---- one lemma for each kind of step: the invariant is kept and the step has its effect ----

  lemma LoopStep(m: M, pid: int)
    requires MInv(m) && pid !in m.blocked && HasPt(m.pg, pid, m.addr)
    requires if HasRoom(m.pg) then EvictFits(m.pg.fr) && AddrFits(m.pg, pid, m.addr) else RingFits(m)
    requires pid !in m.pend ==> AddrFits(m.pg, pid, m.addr)
    ensures MInv(Loop(m, pid)) && Mapping(m, Loop(m, pid), pid, m.addr)
  {
    hide FrameOk, TablesOk, Lists, PageOk, FreshPage, Reach, EvictFits;
    var m' := Loop(m, pid);
    if HasRoom(m.pg) {
      ReachLow(m.pg.fr);
      ReachFresh(m.pg, pid, m.addr);
      FreshKeeps(m.pg, pid, m.addr);
      HeapSameExcept(m.pg, m'.pg, pid, m.addr);
      forall q | q in m'.pend ensures PendOk(m', q) {
        assert PendOk(m, q);
        assert SamePage(m.pg, m'.pg, q, m.pend[q]);
      }
    } else {
      ParkKeeps(m, pid);
    }
  }

  lemma ParkKeeps(m: M, pid: int)
    requires MInv(m) && pid in m.pg.procs && !HasRoom(m.pg) && RingFits(m) && InHeap(m.pg.fr.cfg, m.addr)
    requires pid !in m.pend ==> AddrFits(m.pg, pid, m.addr)
    ensures MInv(Park(m, pid))
  {
    hide FrameOk, TablesOk, Lists, PageOk, Reach;
    var m' := Park(m, pid);
    forall q | q in m'.pend ensures PendOk(m', q) { if q in m.pend { assert PendOk(m, q); } }
    forall q | q in m'.blocked ensures q in m'.waitq { assert q == pid || q in m.waitq; }
  }

  /** The page table for the faulting page is there, and nothing else has changed. */
  lemma EnsureStep(m: M, pid: int, v: int)
    requires MInv(m) && Possible(m, Fault(pid, v)) && m.pg.procs[pid].alloc[v]
    ensures EnsurePt(m.pg, pid, v).1
    ensures var m1 := m.(addr := v, pg := EnsurePt(m.pg, pid, v).0);
      && MInv(m1) && Heap(m1.pg) == Heap(m.pg) && !Present(m1.pg, pid, v) && HasPt(m1.pg, pid, v)
      && (Mapped(m1.pg, pid, v) <==> Mapped(m.pg, pid, v))
      && m1.pg.procs == m.pg.procs && (HasRoom(m1.pg) <==> HasRoom(m.pg))
      && (EvictFits(m1.pg.fr) <==> EvictFits(m.pg.fr))
  {
    hide FrameOk, TablesOk, Lists, PageOk, Reach, EnsurePt, Shape, PdeOf, Heap, WF;
    ReachLow(m.pg.fr);
    ReachEnsure(m.pg, pid, v);
    EnsurePtKeeps(m.pg, pid, v);
    HeapSame(m.pg, EnsurePt(m.pg, pid, v).0);
    assert SamePage(m.pg, EnsurePt(m.pg, pid, v).0, pid, v);
    PendCarry(m, m.(addr := v, pg := EnsurePt(m.pg, pid, v).0));
  }

  lemma HandleStep(m: M, pid: int, v: int)
    requires MInv(m) && Enabled(m, Fault(pid, v)) && m.pg.procs[pid].alloc[v]
    ensures MInv(Handle(m, pid, v)) && Effect(m, Fault(pid, v), Handle(m, pid, v))
  {
    hide FrameOk, TablesOk, Lists, EnsurePt, FetchPage, Loop, Reach, EvictFits;
    EnsureStep(m, pid, v);
    var m1 := m.(addr := v, pg := EnsurePt(m.pg, pid, v).0);
    HeapAt(m1.pg, pid, v);
    assert PageOk(m1.pg, pid, v);
    if PteOf(m1.pg, pid, v).swap {
      FetchStep(m1, pid, v);
    } else {
      LoopStep(m1, pid);
    }
  }

  lemma ReachLow(st: FrameSt)
    requires Shape(st) && Reach(st)
    ensures Low(st.cfg)
  {}

  lemma SwappedFrame(s: Pg, pid: int, v: int)
    requires Inv(s) && Mapped(s, pid, v) && PteOf(s, pid, v).swap
    ensures InRegion(s.fr.cfg, E2, PteOf(s, pid, v).base) && IsUsed(s.fr, PteOf(s, pid, v).base)
  {
    assert PageOk(s, pid, v);
  }

  lemma FetchStep(m: M, pid: int, v: int)
    requires MInv(m) && Mapped(m.pg, pid, v) && PteOf(m.pg, pid, v).swap && EvictFits(m.pg.fr)
    ensures InTable(m.pg.fr.cfg, PteOf(m.pg, pid, v).base)
    ensures var m' := m.(pg := FetchPage(m.pg, pid, v).0);
      MInv(m') && Heap(m'.pg) == Heap(m.pg) && Present(m'.pg, pid, v)
  {
    hide FrameOk, TablesOk, Lists, PageOk, FetchPage, Reach, EvictFits, Heap, Shape;
    SwappedFrame(m.pg, pid, v);
    ReachFetch(m.pg, pid, v);
    FetchKeeps(m.pg, pid, v);
    HeapSame(m.pg, FetchPage(m.pg, pid, v).0);
    PendCarry(m, m.(pg := FetchPage(m.pg, pid, v).0));
  }

  lemma KillStep(m: M, pid: int)
    requires MInv(m)
    ensures MInv(KillProc(m, pid)) && OnlyLosesProc(Heap(m.pg), Heap(KillProc(m, pid).pg), pid)
  {
    hide FrameOk, TablesOk, Lists, PageOk, Reach, FreeOwned, WF, Heap;
    ReapKeeps(m.pg, pid);
    ReachOwned(m.pg.fr, pid, m.pg.fr.cfg.d0);
    var m' := KillProc(m, pid);
    forall p: (int, int) ensures if p.0 == pid then p !in Heap(m'.pg) else SameAt(Heap(m.pg), Heap(m'.pg), p) {
      HeapAt(m'.pg, p.0, p.1);
      if p.0 != pid { HeapSameAt(m.pg, m'.pg, p.0, p.1); }
    }
    forall q | q in m'.pend ensures PendOk(m', q) {
      assert PendOk(m, q) && SamePage(m.pg, m'.pg, q, m.pend[q]);
    }
  }

  lemma ReleaseStep(m: M, pid: int, a: int, k: nat)
    requires MInv(m) && Running(m, pid) && forall w :: a <= w < a + k ==> HasPt(m.pg, pid, w)
    ensures var m' := Wake(m.(pg := UnmapPages(m.pg, pid, a, k)));
      && MInv(m')
      && forall p: (int, int) ::
          if p.0 == pid && a <= p.1 < a + k then p !in Heap(m'.pg) else SameAt(Heap(m.pg), Heap(m'.pg), p)
  {
    hide FrameOk, TablesOk, Lists, PageOk, UnmapPages, Reach, Heap, PteAt, WF, AllIn;
    ReachUnmapAll(m.pg, pid, a, k);
    UnmapAllKeeps(m.pg, pid, a, k);
    var s' := UnmapPages(m.pg, pid, a, k);
    var (h, h') := (Heap(m.pg), Heap(s'));
    forall p: (int, int)
      ensures if p.0 == pid && a <= p.1 < a + k then p !in h' else SameAt(h, h', p) {
      HeapAt(s', p.0, p.1);
      if !(p.0 == pid && a <= p.1 < a + k) { HeapSameAt(m.pg, s', p.0, p.1); }
    }
    PendCarry(m, m.(pg := s'));
  }

  lemma WriteHeap(s: Pg, s': Pg, pid: int, v: int, b: seq<byte>)
    requires WF(s) && WF(s') && SameExcept(s, s', pid, v) && Mapped(s', pid, v) && PageBytes(s', pid, v) == b
    ensures Heap(s') == Heap(s)[(pid, v) := b]
  {
    HeapAt(s', pid, v);
    HeapSameExcept(s, s', pid, v);
    var h1 := Heap(s)[(pid, v) := b];
    forall p: (int, int) ensures SameAt(h1, Heap(s'), p) {
      assert p == (pid, v) || SameAt(Heap(s), Heap(s'), p);
    }
    MapExt(h1, Heap(s'));
  }

  lemma WriteStep(m: M, pid: int, v: int, off: int, b: byte)
    requires MInv(m) && Enabled(m, Write(pid, v, off, b))
    ensures var t := Write(pid, v, off, b); MInv(Next(m, t)) && Effect(m, t, Next(m, t))
  {
    hide FrameOk, TablesOk, Lists, PageOk, Store, Reach, Heap, PageBytes;
    StoreKeeps(m.pg, pid, v, off, b);
    HeapAt(m.pg, pid, v);
    var s' := Store(m.pg, pid, v, off, b);
    WriteHeap(m.pg, s', pid, v, PageBytes(m.pg, pid, v)[off := b]);
    PendCarry(m, m.(pg := s'));
  }

  lemma SetAllocKeeps(s: Pg, pid: int, v: int)
    requires Inv(s) && pid in s.procs && InHeap(s.fr.cfg, v)
    ensures Inv(SetAlloc(s, pid, v, true)) && forall q, w :: SamePage(s, SetAlloc(s, pid, v, true), q, w)
  {
    var s' := SetAlloc(s, pid, v, true);
    forall q, w ensures PageOk(s', q, w) && SamePage(s, s', q, w) { assert PageOk(s, q, w); }
    forall x ensures FrameOk(s', x) { assert FrameOk(s, x); }
    TablesCarry(s, s');
  }

  lemma {:induction false} GrantKeeps(s: Pg, pid: int, v: int, n: nat)
    requires Inv(s) && pid in s.procs && 0 <= v && v + n <= s.fr.cfg.heap
    ensures var s' := GrantPages(s, pid, v, n);
      && Inv(s') && s'.fr == s.fr && (forall q, w :: SamePage(s, s', q, w) && (HasPt(s', q, w) <==> HasPt(s, q, w)))
      && (forall w :: InHeap(s.fr.cfg, w) ==>
            s'.procs[pid].alloc[w] == (s.procs[pid].alloc[w] || v <= w < v + n))
      && (forall q :: q in s.procs && q != pid ==> s'.procs[q] == s.procs[q])
    decreases n
  {
    hide Mapped, Shape, PageOk, Lists;
    if n > 0 {
      var s1 := SetAlloc(s, pid, v, true);
      SetAllocKeeps(s, pid, v);
      GrantKeeps(s1, pid, v + 1, n - 1);
      hide SetAlloc, PageOk, FrameOk, TablesOk, InvF;
      var s' := GrantPages(s1, pid, v + 1, n - 1);
      forall q, w ensures SamePage(s, s', q, w) {
        assert SamePage(s, s1, q, w) && SamePage(s1, s', q, w);
      }
    }
  }

  lemma GrantStep(m: M, pid: int, v: int, n: nat)
    requires MInv(m) && Enabled(m, Grant(pid, v, n))
    ensures var m' := m.(pg := GrantPages(m.pg, pid, v, n)); MInv(m') && Heap(m'.pg) == Heap(m.pg)
  {
    hide FrameOk, TablesOk, Lists, PageOk, GrantPages, Reach;
    GrantKeeps(m.pg, pid, v, n);
    HeapSame(m.pg, GrantPages(m.pg, pid, v, n));
    PendCarry(m, m.(pg := GrantPages(m.pg, pid, v, n)));
  }

  lemma CreateStep(m: M, pid: int)
    requires MInv(m) && Enabled(m, Create(pid))
    ensures var m' := m.(pg := Spawn(m.pg, pid).0); MInv(m') && Heap(m'.pg) == Heap(m.pg)
  {
    hide FrameOk, TablesOk, Lists, PageOk, Spawn, Reach, Heap, WF, InRegion, IsUsed, Shape, FrameBytes, PteOf;
    ReachLow(m.pg.fr);
    ReachSpawn(m.pg, pid);
    SpawnKeeps(m.pg, pid);
    HeapSame(m.pg, Spawn(m.pg, pid).0);
    assert forall q :: q in m.pend ==> PendOk(m, q);
    PendCarry(m, m.(pg := Spawn(m.pg, pid).0));
  }

  /** Every step keeps the invariant and has exactly its effect on the pages. */
  lemma StepSafe(m: M, t: Step)
    requires MInv(m) && Enabled(m, t)
    ensures MInv(Next(m, t)) && Effect(m, t, Next(m, t))
  {
    hide FrameOk, TablesOk, Lists, PageOk, Core, Reach, EvictFits, Handle, KillProc, Loop, HasRoom, OnlyLosesProc,
      SameAt, Store, UnmapPages, GrantPages,
      Spawn;
    match t
    case Fault(pid, v) =>
      FaultStep(m, pid, v);
    case Resume(pid) => LoopStep(m, pid);
    case Write(pid, v, off, b) => WriteStep(m, pid, v, off, b);
    case Grant(pid, v, n) => GrantStep(m, pid, v, n);
    case Release(pid, v, n, skip) =>
      if skip { ReleaseStep(m, pid, v + 1, n - 1); } else { ReleaseStep(m, pid, v, n); }
    case Kill(pid) => KillStep(m, pid);
    case Create(pid) => CreateStep(m, pid);
  }

  lemma FaultStep(m: M, pid: int, v: int)
    requires MInv(m) && Enabled(m, Fault(pid, v))
    ensures MInv(Handle(m, pid, v)) && Effect(m, Fault(pid, v), Handle(m, pid, v))
  {
    if m.pg.procs[pid].alloc[v] { HandleStep(m, pid, v); } else { SegvStep(m, pid, v); }
  }

  lemma SegvStep(m: M, pid: int, v: int)
    requires MInv(m) && pid in m.pg.procs && InHeap(m.pg.fr.cfg, v) && !m.pg.procs[pid].alloc[v]
    ensures MInv(Handle(m, pid, v)) && OnlyLosesProc(Heap(m.pg), Heap(Handle(m, pid, v).pg), pid)
  {
    hide Inv, Reach, KillProc, OnlyLosesProc, Heap;
    var m0 := m.(addr := v);
    assert MInv(m0) by { assert forall q :: q in m.pend ==> PendOk(m, q) && PendOk(m0, q); }
    KillStep(m0, pid);
  }

  // ---- whole runs ----

  ghost predicate IsRun(ms: seq<M>, ts: seq<Step>) {
    && |ms| == |ts| + 1 && MInv(ms[0])
    && forall i :: 0 <= i < |ts| ==> StepsTo(ms[i], ts[i], ms[i + 1])
  }

  ghost predicate StepsTo(m: M, t: Step, m': M) { WF(m.pg) && Enabled(m, t) && m' == Next(m, t) }

  lemma {:induction false} RunSafe(ms: seq<M>, ts: seq<Step>, k: nat)
    requires IsRun(ms, ts) && k < |ms|
    ensures MInv(ms[k])
  {
    hide MInv, Next, Enabled;
    if k > 0 {
      RunSafe(ms, ts, k - 1);
      assert StepsTo(ms[k - 1], ts[k - 1], ms[k]);
      StepSafe(ms[k - 1], ts[k - 1]);
    }
  }

  /** The steps that may change or take away page v of pid: its own stores and releases, its own
      faults outside the allocated pages, and being killed. */
  ghost predicate Concerns(m: M, t: Step, pid: int, v: int)
    requires WF(m.pg)
  {
    match t
    case Fault(q, w) => q == pid && q in m.pg.procs && !(0 <= w < |m.pg.procs[q].alloc| && m.pg.procs[q].alloc[w])
    case Write(q, w, _, _) => (q, w) == (pid, v)
    case Release(q, w, n, _) => q == pid && w <= v < w + n
    case Kill(q) => q == pid
    case _ => false
  }

  lemma StepKeepsPage(m: M, t: Step, pid: int, v: int)
    requires MInv(m) && Enabled(m, t) && !Concerns(m, t, pid, v) && (pid, v) in Heap(m.pg)
    ensures WF(Next(m, t).pg) && (pid, v) in Heap(Next(m, t).pg)
    ensures Heap(Next(m, t).pg)[(pid, v)] == Heap(m.pg)[(pid, v)]
  {
    if t.Resume? && HasRoom(m.pg) { ResumeOther(m, t.pid, pid, v); }
    StepSafe(m, t);
    EffectKeepsPage(m, t, Next(m, t), pid, v);
  }

  lemma EffectKeepsPage(m: M, t: Step, m': M, pid: int, v: int)
    requires WF(m.pg) && WF(m'.pg) && Enabled(m, t) && Effect(m, t, m') && !Concerns(m, t, pid, v)
    requires (pid, v) in Heap(m.pg) && (t.Resume? && HasRoom(m.pg) ==> (pid, v) != (t.pid, m.addr))
    ensures SameAt(Heap(m.pg), Heap(m'.pg), (pid, v))
  {
    hide Heap, HasRoom;
  }

  /** A process that leaves the loop gets a frame for a page that had none. */
  lemma ResumeOther(m: M, q: int, pid: int, v: int)
    requires WF(m.pg) && Harmless(m, Resume(q)) && HasRoom(m.pg) && (pid, v) in Heap(m.pg)
    ensures (pid, v) != (q, m.addr)
  {
    HeapAt(m.pg, q, m.addr);
  }

  /** No page's bytes are ever lost: over any run, whatever is evicted, swapped, restored, mapped,
      released or killed meanwhile, a page holds the same bytes for its process until a step that
      concerns that page. */
  lemma {:induction false} BytesSurvive(ms: seq<M>, ts: seq<Step>, i: nat, j: nat, pid: int, v: int)
    requires IsRun(ms, ts) && i <= j < |ms| && WF(ms[i].pg) && (pid, v) in Heap(ms[i].pg)
    requires forall k :: i <= k < j ==> WF(ms[k].pg) && !Concerns(ms[k], ts[k], pid, v)
    ensures WF(ms[j].pg) && (pid, v) in Heap(ms[j].pg) && Heap(ms[j].pg)[(pid, v)] == Heap(ms[i].pg)[(pid, v)]
  {
    hide MInv, Next, Enabled, Concerns, Heap, WF;
    if i < j {
      BytesSurvive(ms, ts, i, j - 1, pid, v);
      RunSafe(ms, ts, j - 1);
      assert StepsTo(ms[j - 1], ts[j - 1], ms[j]);
      StepKeepsPage(ms[j - 1], ts[j - 1], pid, v);
    }
  }

  /** The two tables are inverse to each other in every reachable state: every used frame outside
      D backs exactly one page, and no two pages share a frame. */
  lemma TablesInverse(s: Pg, g: int)
    requires Inv(s) && InTable(s.fr.cfg, g) && !InRegion(s.fr.cfg, D, g)
    ensures IsUsed(s.fr, g) <==> exists pid, v :: Mapped(s, pid, v) && PteOf(s, pid, v).base == g
    ensures forall pid, v, q, w ::
      Mapped(s, pid, v) && Mapped(s, q, w) && PteOf(s, pid, v).base == g == PteOf(s, q, w).base ==> (pid, v) == (q, w)
  {
    assert FrameOk(s, g);
    if IsUsed(s.fr, g) {
      assert Mapped(s, s.fr.ent[g].pid, s.fr.ent[g].pte.idx);
    }
    if exists pid, v :: Mapped(s, pid, v) && PteOf(s, pid, v).base == g {
      var pid, v :| Mapped(s, pid, v) && PteOf(s, pid, v).base == g;
      assert PageOk(s, pid, v);
    }
    forall pid, v, q, w | Mapped(s, pid, v) && Mapped(s, q, w) && PteOf(s, pid, v).base == g == PteOf(s, q, w).base
      ensures (pid, v) == (q, w) {
      assert PageOk(s, pid, v) && PageOk(s, q, w) && TablesOk(s, pid) && TablesOk(s, q);
      if (pid, v) != (q, w) { BasesDiffer(s, pid, v, q, w); }
    }
  }

  /** No wake-up is lost: whoever is blocked is in the ring, where framewakeup finds it, nobody is in
      the ring while E1 or E2 has a free frame, and the ring has no more entries than slots. */
  lemma NoLostWakeup(ms: seq<M>, ts: seq<Step>, k: nat)
    requires IsRun(ms, ts) && k < |ms|
    ensures WF(ms[k].pg) && (ms[k].waitq != [] ==> !HasRoom(ms[k].pg)) && |ms[k].waitq| <= ms[k].nproc
    ensures forall q :: q in ms[k].blocked ==> q in ms[k].waitq
  {
    hide FrameOk, TablesOk, Lists, PageOk, Reach;
    RunSafe(ms, ts, k);
  }

  // ---- the start ----

  /** Every frame free, no process; the address of the latest fault is 0, which is outside the heaps. */
  ghost function Start(c: Cfg, mem: seq<byte>, nproc: nat): M {
    M(Pg(Boot(c), mem, map[], map[], map[]), map[], {}, [], nproc, -c.f)
  }

  /** The machine starts inside the invariant. */
  lemma BootSafe(c: Cfg, mem: seq<byte>, nproc: nat)
    requires ValidCfg(c) && Low(c) && |mem| == c.f * NBPG
    ensures MInv(Start(c, mem, nproc))
  {
    hide Boot, InvF, Reach;
    BootFrames(c);
  }

  lemma BootFrames(c: Cfg)
    requires ValidCfg(c) && Low(c)
    ensures InvF(Boot(c)) && Shape(Boot(c)) && Reach(Boot(c)) && Boot(c).cfg == c && Boot(c).fifo == []
    ensures forall g :: !IsUsed(Boot(c), g)
  {
    hide AllIn, Lists, Ascending, BottomOk;
    var fr := Boot(c);
    forall r: Region ensures r in fr.free && AllIn(c, r, fr.free[r]) { BootIn(c, r); }
    NoneIn(c);
    forall r: Region ensures Lists(fr, fr.free[r], r, false) { BootList(c, r); }
    BootEmpty(c);
    BootBottom(c);
  }

  lemma BootIn(c: Cfg, r: Region)
    requires ValidCfg(c)
    ensures r in Boot(c).free && Boot(c).free[r] == Ascending(Lo(c, r), Hi(c, r)) && AllIn(c, r, Boot(c).free[r])
  {
    match r case D => case E1 => case E2 =>
  }

  lemma BootList(c: Cfg, r: Region)
    requires ValidCfg(c) && Shape(Boot(c)) && r in Boot(c).free
    ensures Lists(Boot(c), Boot(c).free[r], r, false)
  {
    BootIn(c, r);
    forall g | InRegion(c, r, g) ensures g in Boot(c).free[r] { AscendingHas(Lo(c, r), Hi(c, r), g); }
  }

  lemma NoneIn(c: Cfg)
    ensures AllIn(c, E1, [])
  {}

  lemma BootEmpty(c: Cfg)
    requires ValidCfg(c) && Shape(Boot(c))
    ensures Lists(Boot(c), [], E1, true)
  {}

  lemma BootBottom(c: Cfg)
    requires ValidCfg(c) && Low(c)
    ensures BottomOk(c, Ascending(c.e2, c.f))
  {}
}
