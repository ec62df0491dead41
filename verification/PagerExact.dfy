/** Which steps of the pager keep its invariant: exactly those that PagerMachine calls harmless. The
    others are an eviction to a frame at or above the bound of invtakeframe, a frame for the wrong page
    after blocking, and a process that blocks while the ring is full. */
module PagerExact {
  import opened Bytes
  import opened Frames
  import opened Pager
  import opened PagerInv
  import opened PagerMachine

  // ---- an eviction ----

  /** The lost frame: not in use, on no stack, and still named by the victim's entry. */
  lemma EvictLoses(s: Pg)
    requires Inv(s) && s.fr.fifo != [] && HasFree(s.fr, E2) && s.fr.free[E2][0] >= s.fr.cfg.limit
    ensures var (s', dest) := (Evict(s).0, s.fr.free[E2][0]);
      && Lost(s'.fr, dest) && !InvF(s'.fr)
      && s.fr.fifo[0] in s.fr.ent && var p := s.fr.ent[s.fr.fifo[0]].pte;
         Points(s', p) && PteAt(s', p) == Pte(false, false, true, dest)
  {
    hide PageOk, TablesOk, InRegion, WF, Block, Alloc;
    FifoHead(s.fr);
    var victim := s.fr.fifo[0];
    VictimPoints(s, victim);
    var e := s.fr.ent[victim];
    AllocLosesFrame(s.fr, E2, e.pid, e.pte);
    var s' := Evict(s).0;
    var dest := s.fr.free[E2][0];
    assert !IsUsed(s'.fr, dest) && dest !in s'.fr.free[E2];
    assert !Lists(s'.fr, s'.fr.free[E2], E2, false);
  }

  /** The entry of a used E1 frame points to an entry of a page table. */
  lemma VictimPoints(s: Pg, g: int)
    requires Inv(s) && InRegion(s.fr.cfg, E1, g) && IsUsed(s.fr, g)
    ensures Points(s, s.fr.ent[g].pte)
  {
    assert FrameOk(s, g);
  }

  /** What is lost stays lost while the page that is brought in gets its frame. */
  lemma MapLost(s: Pg, pid: int, v: int, g: int)
    requires WF(s) && HasPt(s, pid, v) && Lost(s.fr, g)
    ensures Lost(MapFree(s, pid, v).0.fr, g)
  {
    hide Alloc, Lost;
    LostStays(s.fr, g, g, pid, PteRef(s, pid, v));
  }

  lemma RestoreLost(s: Pg, pid: int, v: int, g: int)
    requires WF(s) && HasPt(s, pid, v) && Lost(s.fr, g) && InTable(s.fr.cfg, PteOf(s, pid, v).base)
    ensures Lost(Restore(s, pid, v).0.fr, g)
  {
    hide MapFree, Free, Lost;
    MapLost(s, pid, v, g);
    LostStays(MapFree(s, pid, v).0.fr, g, PteOf(s, pid, v).base, pid, Unused);
  }

  /** Every scenario that evicts while the next E2 frame is at or above the bound. */
  lemma ScenariosLose(m: M, pid: int)
    requires Inv(m.pg) && HasPt(m.pg, pid, m.addr) && !PteOf(m.pg, pid, m.addr).pres && !EvictFits(m.pg.fr)
    ensures !Inv(Scenarios(m, pid).pg)
  {
    hide FrameOk, TablesOk, Lists, Evict, Restore, MapFree, Lost, Alloc, Free;
    FullHasVictim(m.pg.fr);
    EvictLoses(m.pg);
    var (s1, dest) := (Evict(m.pg).0, m.pg.fr.free[E2][0]);
    var fr := Scenarios(m, pid).pg.fr;
    if PteOf(m.pg, pid, m.addr).swap {
      SwappedFrame(m.pg, pid, m.addr);
      if InTable(m.pg.fr.cfg, PteOf(s1, pid, m.addr).base) { RestoreLost(s1, pid, m.addr, dest); }
    } else {
      MapLost(s1, pid, m.addr, dest);
    }
    LostStays(fr, dest, dest, pid, Unused);
  }

  // ---- a frame for the wrong page ----

  /** mapfreeframe does not look at the entry it overwrites. */
  lemma MapWrong(s: Pg, pid: int, v: int)
    requires Inv(s) && HasPt(s, pid, v) && HasFree(s.fr, E1) && Low(s.fr.cfg) && !AddrFits(s, pid, v)
    ensures !Inv(MapFree(s, pid, v).0)
  {
    hide Lists, Alloc;
    assert AllIn(s.fr.cfg, E1, s.fr.free[E1]);
    MapShape(s, pid, v);
    var s' := MapFree(s, pid, v).0;
    if s.procs[pid].alloc[v] {
      assert PageOk(s, pid, v);
      assert !FrameOk(s', PteOf(s, pid, v).base);
    } else {
      assert !PageOk(s', pid, v);
    }
  }

  lemma FreshWrong(s: Pg, pid: int, v: int)
    requires Inv(s) && HasPt(s, pid, v) && Low(s.fr.cfg) && EvictFits(s.fr) && !AddrFits(s, pid, v)
    requires HasFree(s.fr, E1) || HasFree(s.fr, E2)
    ensures !Inv(FreshPage(s, pid, v).0)
  {
    hide FrameOk, TablesOk, PageOk, Lists, MapFree, Evict;
    if HasFree(s.fr, E1) {
      MapWrong(s, pid, v);
    } else {
      FullHasVictim(s.fr);
      EvictKept(s);
      var s1 := Evict(s).0;
      assert SamePage(s, s1, pid, v);
      MapWrong(s1, pid, v);
    }
  }

  /** The page that the address names, when it is one of the process's own pages and has a frame, loses
      it: the frame stays in use with the page's bytes, and no page has it any more. */
  lemma MapDrops(s: Pg, pid: int, v: int)
    requires Inv(s) && Mapped(s, pid, v) && HasFree(s.fr, E1) && Low(s.fr.cfg)
    ensures var (s', g) := (MapFree(s, pid, v).0, PteOf(s, pid, v).base);
      && InTable(s.fr.cfg, g) && IsUsed(s'.fr, g) && FrameBytes(s', g) == PageBytes(s, pid, v)
      && (forall q, w :: Mapped(s', q, w) ==> PteOf(s', q, w).base != g)
      && SameExcept(s, s', pid, v)
  {
    hide Lists, Alloc, MapFree;
    assert PageOk(s, pid, v) && AllIn(s.fr.cfg, E1, s.fr.free[E1]);
    MapKeeps(s, pid, v, {});
    MapShape(s, pid, v);
    OldFrameIsOrphan(s, MapFree(s, pid, v).0, pid, v, PteOf(s, pid, v).base);
  }

  /** The same with the eviction that may come before it. */
  lemma FreshDrops(s: Pg, pid: int, v: int) returns (g: int)
    requires Inv(s) && Mapped(s, pid, v) && Low(s.fr.cfg) && EvictFits(s.fr)
    requires HasFree(s.fr, E1) || HasFree(s.fr, E2)
    ensures InTable(s.fr.cfg, g) && Forgotten(s, FreshPage(s, pid, v).0, pid, v, g)
    ensures SameExcept(s, FreshPage(s, pid, v).0, pid, v)
  {
    hide FrameOk, TablesOk, PageOk, Lists, MapFree, Evict;
    if HasFree(s.fr, E1) {
      MapDrops(s, pid, v);
      g := PteOf(s, pid, v).base;
    } else {
      FullHasVictim(s.fr);
      EvictKept(s);
      var s1 := Evict(s).0;
      assert SamePage(s, s1, pid, v);
      MapDrops(s1, pid, v);
      g := PteOf(s1, pid, v).base;
      SameTrans(s, s1, FreshPage(s, pid, v).0, pid, v);
    }
  }

  /** Frame g is in use and has the bytes that page v of pid had in s, and it is nobody's page. */
  ghost predicate Forgotten(s: Pg, s': Pg, pid: int, v: int, g: int)
    requires WF(s) && WF(s') && Mapped(s, pid, v)
  {
    && IsUsed(s'.fr, g) && FrameBytes(s', g) == PageBytes(s, pid, v)
    && forall q, w :: Mapped(s', q, w) ==> PteOf(s', q, w).base != g
  }

  // ---- blocking ----

  /** Nobody who is blocked is dropped exactly when there is a slot or nobody is blocked. */
  lemma ParkExact(m: M, pid: int)
    requires MInv(m) && pid in m.pg.procs && pid !in m.blocked && !HasRoom(m.pg) && InHeap(m.pg.fr.cfg, m.addr)
    requires pid !in m.pend ==> AddrFits(m.pg, pid, m.addr)
    ensures MInv(Park(m, pid)) <==> RingFits(m)
  {
    hide FrameOk, TablesOk, PageOk, Lists, Reach;
    if RingFits(m) {
      ParkKeeps(m, pid);
    } else {
      var q :| q in m.blocked;
      assert q in Park(m, pid).blocked && q !in Park(m, pid).waitq;
    }
  }

  /** A process inside the loop always finds a page table at the address of the latest fault. */
  lemma AddrHasPt(m: M, pid: int)
    requires MInv(m) && pid in m.pend
    ensures HasPt(m.pg, pid, m.addr)
  {
    assert PendOk(m, pid);
  }

  /** While there has been no fault since its own, the address is right. */
  lemma OwnPageFits(m: M, pid: int)
    requires MInv(m) && pid in m.pend && m.addr == m.pend[pid]
    ensures AddrFits(m.pg, pid, m.addr)
  {
    assert PendOk(m, pid);
  }

  // ---- a process that goes on in the loop, a fault, and every step ----

  /** A process that comes back into the loop keeps the invariant if and only if it has to wait again
      and finds a slot, or it goes on and the address of the latest fault is a page of its own that is
      allocated and has no frame, and an eviction finds a frame below the bound. */
  lemma ResumeExact(m: M, pid: int)
    requires MInv(m) && pid in m.pend && pid !in m.blocked
    ensures HasPt(m.pg, pid, m.addr)
    ensures MInv(Loop(m, pid)) <==>
      if HasRoom(m.pg) then EvictFits(m.pg.fr) && AddrFits(m.pg, pid, m.addr) else RingFits(m)
  {
    hide FrameOk, TablesOk, Lists, PageOk, FreshPage, Reach, EvictFits, AddrFits, RingFits, Park;
    AddrHasPt(m, pid);
    if !HasRoom(m.pg) {
      ParkExact(m, pid);
    } else if !EvictFits(m.pg.fr) {
      FreshLoses(m, pid);
    } else if !AddrFits(m.pg, pid, m.addr) {
      ReachLow(m.pg.fr);
      FreshWrong(m.pg, pid, m.addr);
    } else {
      LoopStep(m, pid);
    }
  }

  /** What is lost when the process goes on at another one's address: if that is a page of its own with a
      frame, the frame stays in use with the page's bytes and is no page's any more. */
  lemma ResumeLoses(m: M, pid: int) returns (g: int)
    requires MInv(m) && pid in m.pend && pid !in m.blocked && HasRoom(m.pg) && EvictFits(m.pg.fr)
    requires Mapped(m.pg, pid, m.addr)
    ensures m.addr != m.pend[pid] && InTable(m.pg.fr.cfg, g)
    ensures var s' := Loop(m, pid).pg; Forgotten(m.pg, s', pid, m.addr, g) && SameExcept(m.pg, s', pid, m.addr)
  {
    hide FrameOk, TablesOk, Lists, PageOk, FreshPage, EvictFits, Reach, Forgotten;
    assert PendOk(m, pid);
    ReachLow(m.pg.fr);
    g := FreshDrops(m.pg, pid, m.addr);
  }

  /** An eviction that does not fit, for a page without a frame or for the wrong one. */
  lemma FreshLoses(m: M, pid: int)
    requires Inv(m.pg) && HasPt(m.pg, pid, m.addr) && !EvictFits(m.pg.fr)
    ensures !Inv(FreshPage(m.pg, pid, m.addr).0)
  {
    hide FrameOk, TablesOk, Lists, Evict, MapFree, Lost;
    FullHasVictim(m.pg.fr);
    EvictLoses(m.pg);
    var (s1, dest) := (Evict(m.pg).0, m.pg.fr.free[E2][0]);
    MapLost(s1, pid, m.addr, dest);
    LostStays(MapFree(s1, pid, m.addr).0.fr, dest, dest, pid, Unused);
  }

  lemma FaultLoses(m: M, pid: int, v: int)
    requires MInv(m) && Possible(m, Fault(pid, v)) && m.pg.procs[pid].alloc[v] && !EvictFits(m.pg.fr)
    ensures !Inv(Handle(m, pid, v).pg)
  {
    hide FrameOk, TablesOk, Lists, PageOk, EnsurePt, FetchPage, FreshPage, Reach, EvictFits, Heap, Park;
    EnsureStep(m, pid, v);
    ScenariosLose(m.(addr := v, pg := EnsurePt(m.pg, pid, v).0), pid);
  }

  /** A fault on a page without a frame while E1 and E2 are full. */
  lemma BlockingFault(m: M, pid: int, v: int)
    requires MInv(m) && Possible(m, Fault(pid, v)) && m.pg.procs[pid].alloc[v]
    requires !HasRoom(m.pg) && !Mapped(m.pg, pid, v)
    ensures var m1 := m.(addr := v, pg := EnsurePt(m.pg, pid, v).0);
      && Handle(m, pid, v) == Park(m1, pid) && MInv(m1) && m1.pg.procs == m.pg.procs && Heap(m1.pg) == Heap(m.pg)
      && AddrFits(m1.pg, pid, v) && !HasRoom(m1.pg)
  {
    hide FrameOk, TablesOk, Lists, PageOk, EnsurePt, FetchPage, FreshPage, Reach, EvictFits, Heap, Park;
    EnsureStep(m, pid, v);
  }

  /** A fault on an allocated page keeps the invariant if and only if it does not evict or the next E2
      frame is below the bound, and it does not block or the ring has a slot. */
  lemma FaultExact(m: M, pid: int, v: int)
    requires MInv(m) && Possible(m, Fault(pid, v)) && m.pg.procs[pid].alloc[v]
    ensures MInv(Handle(m, pid, v)) <==>
      EvictFits(m.pg.fr) && (!HasRoom(m.pg) && !Mapped(m.pg, pid, v) ==> RingFits(m))
  {
    hide FrameOk, TablesOk, Lists, PageOk, EnsurePt, Handle, Reach, EvictFits, Heap, Park;
    if !EvictFits(m.pg.fr) {
      FaultLoses(m, pid, v);
    } else if !HasRoom(m.pg) && !Mapped(m.pg, pid, v) {
      BlockingFault(m, pid, v);
      ParkExact(m.(addr := v, pg := EnsurePt(m.pg, pid, v).0), pid);
    } else {
      FaultStep(m, pid, v);
    }
  }

  /** Over all states of the invariant and all steps that can happen there: the step keeps the
      invariant if and only if it is harmless. */
  lemma StepExact(m: M, t: Step)
    requires MInv(m) && Possible(m, t)
    ensures MInv(Next(m, t)) <==> Harmless(m, t)
  {
    hide FrameOk, TablesOk, Lists, PageOk, Reach, Next, Heap, Effect;
    if Harmless(m, t) {
      StepSafe(m, t);
    } else {
      UnfitStep(m, t);
    }
  }

  lemma UnfitStep(m: M, t: Step)
    requires MInv(m) && Possible(m, t) && !Harmless(m, t)
    ensures !MInv(Next(m, t))
  {
    hide FrameOk, TablesOk, Lists, PageOk, Reach, Handle, Loop, RingFits, EvictFits, AddrFits;
    match t
    case Fault(pid, v) => FaultExact(m, pid, v);
    case Resume(pid) => ResumeExact(m, pid);
    case _ =>
  }
}
