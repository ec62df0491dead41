/** kill in two halves. It gives back the victim's frames, then tells the parent, which may give up the
    processor, and only then wakes the waiters and frees the process. In between the victim's tables
    still name frames that are free, or by now somebody else's. This module shows that nobody else notices
    as long as the victim does not run, and what its first store does if it does. */
module PagerKill {
  import opened Bytes
  import opened Frames
  import opened Pager
  import opened PagerInv
  import opened PagerMachine
  import opened BlockQueues

  /** The machine without process v. */
  ghost function Without(s: Pg, v: int): (r: Pg)
    requires WF(s)
    ensures WF(r) && r.fr == s.fr
  {
    s.(procs := s.procs - {v})
  }

  // ---- what the others do does not depend on it ----

  lemma SamePt(s: Pg, v: int, pid: int, w: int)
    requires WF(s) && pid != v
    ensures HasPt(Without(s, v), pid, w) <==> HasPt(s, pid, w)
    ensures HasPt(s, pid, w) ==>
      PteRef(Without(s, v), pid, w) == PteRef(s, pid, w) && PteOf(Without(s, v), pid, w) == PteOf(s, pid, w)
    ensures Mapped(Without(s, v), pid, w) <==> Mapped(s, pid, w)
  {}

  lemma MapApart(s: Pg, v: int, pid: int, w: int)
    requires WF(s) && pid != v && HasPt(s, pid, w)
    ensures HasPt(Without(s, v), pid, w)
    ensures var (a, b) := (MapFree(s, pid, w), MapFree(Without(s, v), pid, w)); b == (Without(a.0, v), a.1)
  {
    hide WF, Alloc;
    SamePt(s, v, pid, w);
  }

  lemma EvictApart(s: Pg, v: int)
    requires WF(s)
    ensures Evict(Without(s, v)) == (Without(Evict(s).0, v), Evict(s).1)
  {
    hide WF, Alloc, Free;
  }

  lemma RestoreApart(s: Pg, v: int, pid: int, w: int)
    requires WF(s) && pid != v && HasPt(s, pid, w) && InTable(s.fr.cfg, PteOf(s, pid, w).base)
    ensures HasPt(Without(s, v), pid, w) && PteOf(Without(s, v), pid, w) == PteOf(s, pid, w)
    ensures Restore(Without(s, v), pid, w) == (Without(Restore(s, pid, w).0, v), Restore(s, pid, w).1)
  {
    hide WF, MapFree, Free;
    SamePt(s, v, pid, w);
    MapApart(s, v, pid, w);
  }

  lemma SwapApart(s: Pg, v: int, pid: int, w: int)
    requires WF(s) && pid != v && HasPt(s, pid, w) && InTable(s.fr.cfg, PteOf(s, pid, w).base)
    ensures HasPt(Without(s, v), pid, w) && PteOf(Without(s, v), pid, w) == PteOf(s, pid, w)
    ensures Swap(Without(s, v), pid, w) == (Without(Swap(s, pid, w).0, v), Swap(s, pid, w).1)
  {
    hide MapFree, Free, Evict;
    SamePt(s, v, pid, w);
    var s1 := SetFrames(s, Free(s.fr, PteOf(s, pid, w).base).0);
    EvictApart(s1, v);
    MapApart(Evict(s1).0, v, pid, w);
  }

  lemma FetchApart(s: Pg, v: int, pid: int, w: int)
    requires WF(s) && pid != v && HasPt(s, pid, w) && InTable(s.fr.cfg, PteOf(s, pid, w).base)
    ensures HasPt(Without(s, v), pid, w) && PteOf(Without(s, v), pid, w) == PteOf(s, pid, w)
    ensures FetchPage(Without(s, v), pid, w).0 == Without(FetchPage(s, pid, w).0, v)
  {
    hide WF, Restore, Swap, Evict;
    SamePt(s, v, pid, w);
    EvictApart(s, v);
    SamePt(Evict(s).0, v, pid, w);
    RestoreApart(s, v, pid, w);
    SwapApart(s, v, pid, w);
    if InTable(s.fr.cfg, PteOf(Evict(s).0, pid, w).base) { RestoreApart(Evict(s).0, v, pid, w); }
  }

  lemma FreshApart(s: Pg, v: int, pid: int, w: int)
    requires WF(s) && pid != v && HasPt(s, pid, w)
    ensures HasPt(Without(s, v), pid, w)
    ensures FreshPage(Without(s, v), pid, w).0 == Without(FreshPage(s, pid, w).0, v)
  {
    hide MapFree, Evict;
    SamePt(s, v, pid, w);
    EvictApart(s, v);
    MapApart(if HasFree(s.fr, E1) then s else Evict(s).0, v, pid, w);
  }

  lemma EnsureApart(s: Pg, v: int, pid: int, w: int)
    requires WF(s) && pid != v && pid in s.procs && InHeap(s.fr.cfg, w)
    ensures EnsurePt(Without(s, v), pid, w) == (Without(EnsurePt(s, pid, w).0, v), EnsurePt(s, pid, w).1)
  {
    hide WF, TakeD;
    SamePt(s, v, pid, w);
  }

  lemma UnmapApart(s: Pg, v: int, pid: int, w: int)
    requires WF(s) && pid != v && HasPt(s, pid, w)
    ensures HasPt(Without(s, v), pid, w) && UnmapPage(Without(s, v), pid, w) == Without(UnmapPage(s, pid, w), v)
  {
    hide WF, Free;
    SamePt(s, v, pid, w);
    assert UnmapPage(Without(s, v), pid, w).procs == UnmapPage(s, pid, w).procs - {v};
  }

  lemma {:induction false} UnmapAllApart(s: Pg, v: int, pid: int, w: int, n: nat)
    requires WF(s) && pid != v && forall x :: w <= x < w + n ==> HasPt(s, pid, x)
    ensures forall x :: w <= x < w + n ==> HasPt(Without(s, v), pid, x)
    ensures UnmapPages(Without(s, v), pid, w, n) == Without(UnmapPages(s, pid, w, n), v)
    decreases n
  {
    hide WF, UnmapPage, HasPt, Without;
    forall x | w <= x < w + n ensures HasPt(Without(s, v), pid, x) { SamePt(s, v, pid, x); }
    if n > 0 {
      UnmapApart(s, v, pid, w);
      UnmapAllApart(UnmapPage(s, pid, w), v, pid, w + 1, n - 1);
    }
  }

  lemma {:induction false} GrantApart(s: Pg, v: int, pid: int, w: int, n: nat)
    requires WF(s) && pid != v && pid in s.procs && 0 <= w && w + n <= s.fr.cfg.heap
    ensures pid in Without(s, v).procs && GrantPages(Without(s, v), pid, w, n) == Without(GrantPages(s, pid, w, n), v)
    decreases n
  {
    hide WF, SetAlloc, Without, GrantPages;
    ProcsWithout(s, v);
    GrantMore(s, pid, w, n);
    GrantMore(Without(s, v), pid, w, n);
    if n > 0 {
      AllocApart(s, v, pid, w);
      GrantApart(SetAlloc(s, pid, w, true), v, pid, w + 1, n - 1);
    }
  }

  lemma GrantMore(s: Pg, pid: int, w: int, n: nat)
    requires WF(s) && pid in s.procs && 0 <= w && w + n <= s.fr.cfg.heap
    ensures n == 0 ==> GrantPages(s, pid, w, n) == s
    ensures n > 0 ==> pid in SetAlloc(s, pid, w, true).procs && SetAlloc(s, pid, w, true).fr == s.fr
    ensures n > 0 ==> GrantPages(s, pid, w, n) == GrantPages(SetAlloc(s, pid, w, true), pid, w + 1, n - 1)
  {
    hide WF;
  }

  lemma AllocApart(s: Pg, v: int, pid: int, w: int)
    requires WF(s) && pid != v && pid in s.procs && InHeap(s.fr.cfg, w)
    ensures pid in Without(s, v).procs && SetAlloc(Without(s, v), pid, w, true) == Without(SetAlloc(s, pid, w, true), v)
  {
    hide WF;
    assert SetAlloc(Without(s, v), pid, w, true).procs == SetAlloc(s, pid, w, true).procs - {v};
  }

  lemma ReapApart(s: Pg, v: int, pid: int)
    requires WF(s)
    ensures Reap(Without(s, v), pid) == Without(Reap(s, pid), v)
  {
    hide WF, FreeOwned;
    assert s.procs - {v} - {pid} == s.procs - {pid} - {v};
  }

  lemma SpawnApart(s: Pg, v: int, pid: int)
    requires WF(s) && pid != v
    ensures Spawn(Without(s, v), pid).0 == Without(Spawn(s, pid).0, v)
  {
    hide WF, TakeD, NewDir;
    var (a, b) := (Spawn(s, pid).0, Spawn(Without(s, v), pid).0);
    assert b.procs == a.procs - {v};
  }

  lemma StoreApart(s: Pg, v: int, pid: int, w: int, off: int, b: byte)
    requires WF(s) && pid != v && HasPt(s, pid, w) && 0 <= off < NBPG && 0 <= PteOf(s, pid, w).base < s.fr.cfg.f
    ensures HasPt(Without(s, v), pid, w) && PteOf(Without(s, v), pid, w) == PteOf(s, pid, w)
    ensures Store(Without(s, v), pid, w, off, b) == Without(Store(s, pid, w, off, b), v)
  {
    hide WF;
    SamePt(s, v, pid, w);
  }

  // ---- the two halves ----

  /** The first half of kill, up to the message to the parent. */
  ghost function KillHalf(m: M, v: int): M
    requires WF(m.pg)
  {
    m.(pg := SetFrames(m.pg, FreeOwned(m.pg.fr, v, m.pg.fr.cfg.d0)))
  }

  /** What the machine is for everybody but v. */
  ghost function Gone(m: M, v: int): M
    requires WF(m.pg)
  {
    m.(pg := Without(m.pg, v), pend := m.pend - {v}, blocked := m.blocked - {v})
  }

  /** The second half. */
  ghost function KillRest(m: M, v: int): M requires WF(m.pg) { Wake(Gone(m, v)) }

  /** With nothing in between they are the one step of PagerMachine. */
  lemma KillAtOnce(m: M, v: int)
    requires WF(m.pg)
    ensures KillRest(KillHalf(m, v), v) == KillProc(m, v)
  {
    hide WF, FreeOwned;
  }

  /** The others take their steps as if v were gone. */
  lemma StepApart(m: M, t: Step, v: int)
    requires WF(m.pg) && Possible(m, t) && t.pid != v
    ensures Possible(Gone(m, v), t) && WF(Next(m, t).pg) && Gone(Next(m, t), v) == Next(Gone(m, v), t)
  {
    hide WF, FreshPage, FetchPage, EnsurePt, UnmapPages, GrantPages, Spawn, Reap, Store, Handle, Without, PdeOf,
      KillProc,
      Loop;
    NextWf(m, t);
    ProcsWithout(m.pg, v);
    match t
    case Fault(pid, w) => FaultApart(m, v, pid, w);
    case Resume(pid) =>
      SamePt(m.pg, v, pid, m.addr);
      LoopApart(m, v, pid);
    case Write(pid, w, off, b) =>
      SamePt(m.pg, v, pid, w);
      if 0 <= PteOf(m.pg, pid, w).base < m.pg.fr.cfg.f { StoreApart(m.pg, v, pid, w, off, b); }
    case Grant(pid, w, n) => GrantApart(m.pg, v, pid, w, n);
    case Release(pid, w, n, skip) => ReleaseApart(m, v, pid, w, n, skip);
    case Kill(pid) => KillApart(m, v, pid);
    case Create(pid) => SpawnApart(m.pg, v, pid);
  }

  lemma WakeApart(m: M, v: int)
    requires WF(m.pg)
    ensures Wake(Gone(m, v)) == Gone(Wake(m), v)
  {
    hide WF;
    assert m.blocked - {v} - (set q | q in m.waitq) == m.blocked - (set q | q in m.waitq) - {v};
  }

  lemma LoopApart(m: M, v: int, pid: int)
    requires WF(m.pg) && pid != v && HasPt(m.pg, pid, m.addr)
    ensures HasPt(Gone(m, v).pg, pid, m.addr) && Loop(Gone(m, v), pid) == Gone(Loop(m, pid), v)
  {
    hide WF, FreshPage, HasPt, Put;
    FreshApart(m.pg, v, pid, m.addr);
    var (a, b) := (Loop(m, pid), Loop(Gone(m, v), pid));
    assert b.pend == a.pend - {v} && b.blocked == a.blocked - {v};
  }

  lemma KillApart(m: M, v: int, pid: int)
    requires WF(m.pg) && pid != v
    ensures KillProc(Gone(m, v), pid) == Gone(KillProc(m, pid), v)
  {
    hide WF, Reap, Wake;
    ReapApart(m.pg, v, pid);
    var m1 := m.(pg := Reap(m.pg, pid), pend := m.pend - {pid}, blocked := m.blocked - {pid});
    assert m.pend - {v} - {pid} == m.pend - {pid} - {v} && m.blocked - {v} - {pid} == m.blocked - {pid} - {v};
    WakeApart(m1, v);
  }

  lemma ReleaseApart(m: M, v: int, pid: int, w: int, n: nat, skip: bool)
    requires WF(m.pg) && pid != v && n > 0 && forall x :: w <= x < w + n ==> HasPt(m.pg, pid, x)
    ensures forall x :: w <= x < w + n ==> HasPt(Gone(m, v).pg, pid, x)
    ensures Wake(Gone(m, v).(pg := ReleasePages(Gone(m, v).pg, pid, w, n, skip)))
      == Gone(Wake(m.(pg := ReleasePages(m.pg, pid, w, n, skip))), v)
  {
    hide WF, UnmapPages, Wake, HasPt;
    forall x | w <= x < w + n ensures HasPt(Without(m.pg, v), pid, x) { SamePt(m.pg, v, pid, x); }
    if skip { UnmapAllApart(m.pg, v, pid, w + 1, n - 1); } else { UnmapAllApart(m.pg, v, pid, w, n); }
    WakeApart(m.(pg := ReleasePages(m.pg, pid, w, n, skip)), v);
  }

  lemma FaultApart(m: M, v: int, pid: int, w: int)
    requires WF(m.pg) && Possible(m, Fault(pid, w)) && pid != v
    ensures Possible(Gone(m, v), Fault(pid, w)) && WF(Handle(m, pid, w).pg)
    ensures Handle(Gone(m, v), pid, w) == Gone(Handle(m, pid, w), v)
  {
    hide WF, Handle, PdeOf, Without;
    ProcsWithout(m.pg, v);
    SamePde(m.pg, v, pid, w);
    SamePt(m.pg, v, pid, w);
    HandleWf(m, pid, w);
    HandleApart(m, v, pid, w);
  }

  lemma SamePde(s: Pg, v: int, pid: int, w: int)
    requires WF(s) && pid in s.procs && pid != v && InHeap(s.fr.cfg, w)
    ensures PdeOf(Without(s, v), pid, w) == PdeOf(s, pid, w)
  {}

  lemma HandleApart(m: M, v: int, pid: int, w: int)
    requires WF(m.pg) && pid in m.pg.procs && InHeap(m.pg.fr.cfg, w) && pid != v
    ensures pid in Gone(m, v).pg.procs && WF(Handle(m, pid, w).pg)
    ensures Handle(Gone(m, v), pid, w) == Gone(Handle(m, pid, w), v)
  {
    hide PdeOf, EnsurePt, Scenarios, KillProc, Without, HasPt;
    ProcsWithout(m.pg, v);
    HandleWf(m, pid, w);
    EnsureApart(m.pg, v, pid, w);
    KillApart(m.(addr := w), v, pid);
    var (s1, ok) := EnsurePt(m.pg, pid, w);
    if ok { ScenariosApart(m.(addr := w, pg := s1), v, pid); }
  }

  lemma ProcsWithout(s: Pg, v: int)
    requires WF(s)
    ensures Without(s, v).procs == s.procs - {v} && Without(s, v).pd == s.pd
  {
    hide WF;
  }

  lemma HandleWf(m: M, pid: int, w: int)
    requires WF(m.pg) && pid in m.pg.procs && InHeap(m.pg.fr.cfg, w)
    ensures WF(Handle(m, pid, w).pg)
  {
    hide WF, EnsurePt, FetchPage, FreshPage, Reap;
  }

  lemma NextWf(m: M, t: Step)
    requires WF(m.pg) && Possible(m, t)
    ensures WF(Next(m, t).pg)
  {
    hide WF, Handle, FetchPage, FreshPage, Reap, Spawn, GrantPages, UnmapPages, Store;
    if t.Fault? { HandleWf(m, t.pid, t.v); }
  }

  lemma ScenariosApart(m: M, v: int, pid: int)
    requires WF(m.pg) && pid != v && HasPt(m.pg, pid, m.addr)
    ensures HasPt(Gone(m, v).pg, pid, m.addr) && Scenarios(Gone(m, v), pid) == Gone(Scenarios(m, pid), v)
  {
    hide WF, Loop, FetchPage;
    SamePt(m.pg, v, pid, m.addr);
    LoopApart(m, v, pid);
    if InTable(m.pg.fr.cfg, PteOf(m.pg, pid, m.addr).base) { FetchApart(m.pg, v, pid, m.addr); }
  }

  // ---- between the halves ----

  /** As if everybody in the ring had been woken. */
  function Calm(m: M): M { m.(waitq := [], blocked := {}) }

  ghost predicate RingPart(m: M) {
    && m.blocked <= m.pend.Keys && |m.waitq| <= m.nproc
    && (forall i :: 0 <= i < |m.waitq| ==> 0 <= m.waitq[i] < m.nproc) && (forall q :: q in m.blocked ==> q in m.waitq)
  }

  /** The victim is still there; without it, and but for the wake-up that is still to come, the machine is
      in order. */
  ghost predicate Between(m: M, v: int) {
    v in m.pg.procs && WF(m.pg) && MInv(Calm(Gone(m, v))) && RingPart(m)
  }

  lemma CalmKeeps(m: M)
    requires MInv(m)
    ensures MInv(Calm(m))
  {
    hide FrameOk, TablesOk, PageOk, Lists, Reach;
    forall q | q in m.pend ensures PendOk(Calm(m), q) { assert PendOk(m, q); }
  }

  /** The first half ends in such a state. */
  lemma HalfOk(m: M, v: int)
    requires MInv(m) && v in m.pg.procs
    ensures Between(KillHalf(m, v), v)
  {
    hide FrameOk, TablesOk, PageOk, Lists, Reach, FreeOwned, Wake;
    var m1 := KillHalf(m, v);
    KillAtOnce(m, v);
    KillStep(m, v);
    CalmKeeps(KillProc(m, v));
    assert Calm(Gone(m1, v)) == Calm(Wake(Gone(m1, v))) by { CalmWake(Gone(m1, v)); }
  }

  lemma CalmWake(m: M)
    requires WF(m.pg)
    ensures Calm(Wake(m)) == Calm(m)
  {
    hide WF;
  }

  /** The ring makes no difference to the rest. */
  lemma CalmStep(m: M, t: Step)
    requires WF(m.pg) && Possible(m, t)
    ensures Possible(Calm(m), t) && Calm(Next(m, t)) == Calm(Next(Calm(m), t))
  {
    hide WF, FreshPage, FetchPage, EnsurePt, ReleasePages, GrantPages, Spawn, Reap, Store, PdeOf, PteOf, HasPt, Put;
  }

  /** Others who take a harmless step. */
  lemma GapStep(m: M, t: Step, v: int)
    requires Between(m, v) && Possible(m, t) && Harmless(m, t) && t.pid != v
    ensures Between(Next(m, t), v)
  {
    hide MInv, Possible, Harmless, Next, WF, Gone;
    GapNext(m, t, v);
    RingKept(m, t, v);
    StaysThere(m, t, v);
  }

  lemma GapNext(m: M, t: Step, v: int)
    requires WF(m.pg) && MInv(Calm(Gone(m, v))) && Possible(m, t) && Harmless(m, t) && t.pid != v
    ensures var c := Calm(Gone(m, v));
      && WF(c.pg) && Enabled(c, t) && WF(Next(m, t).pg)
      && Calm(Gone(Next(m, t), v)) == Calm(Next(c, t)) && MInv(Calm(Gone(Next(m, t), v)))
  {
    hide MInv, Next, Gone, Possible, Harmless;
    StepApart(m, t, v);
    var g := Gone(m, v);
    assert WF(g.pg) by { GoneWf(m, v); }
    CalmStep(g, t);
    StillHarmless(m, t, v);
    StepSafe(Calm(g), t);
    CalmKeeps(Next(Calm(g), t));
  }

  lemma GoneWf(m: M, v: int)
    requires WF(m.pg)
    ensures WF(Gone(m, v).pg)
  {}

  lemma StillHarmless(m: M, t: Step, v: int)
    requires WF(m.pg) && MInv(Calm(Gone(m, v))) && Possible(m, t) && Harmless(m, t) && t.pid != v
    ensures Harmless(Calm(Gone(m, v)), t)
  {
    hide Inv, Reach, PdeOf, PteOf;
    if t.Fault? || t.Resume? { SamePt(m.pg, v, t.pid, if t.Fault? then t.v else m.addr); }
  }

  lemma StaysThere(m: M, t: Step, v: int)
    requires WF(m.pg) && Possible(m, t) && t.pid != v && v in m.pg.procs
    ensures v in Next(m, t).pg.procs
  {
    hide WF, FreshPage, FetchPage, EnsurePt, ReleasePages, GrantPages, PdeOf, PteOf, HasPt, HasRoom, FreeOwned, TakeD;
    assert t.Grant? ==> v in GrantPages(m.pg, t.pid, t.v, t.n).procs.Keys;
    assert t.Release? ==> v in ReleasePages(m.pg, t.pid, t.v, t.n, t.skip).procs.Keys;
  }

  lemma RingKept(m: M, t: Step, v: int)
    requires WF(m.pg) && Possible(m, t) && Harmless(m, t) && RingPart(m) && MInv(Calm(Gone(m, v))) && t.pid != v
    ensures RingPart(Next(m, t))
  {
    hide Shape, MInv;
    ActorIn(m, t, v);
    hide WF, MInv, Gone, Calm, Harmless, RingPart, Handle, Wake, Loop, KillProc, PdeOf, PteOf, HasPt, ReleasePages;
    match t
    case Fault(pid, w) => HandleRing(m, pid, w);
    case Resume(pid) => ResumeRing(m, pid);
    case Release(pid, w, n, skip) => ReleaseRing(m, pid, w, n, skip);
    case Kill(pid) => KillRing(m, pid);
    case Write(_, _, _, _) => SameRing(m, Next(m, t));
    case Grant(_, _, _) => SameRing(m, Next(m, t));
    case Create(_) => SameRing(m, Next(m, t));
  }

  lemma ResumeRing(m: M, pid: int)
    requires WF(m.pg) && Possible(m, Resume(pid)) && Harmless(m, Resume(pid)) && RingPart(m) && 0 <= pid < m.nproc
    ensures RingPart(Loop(m, pid))
  {
    hide WF, Loop, HasPt, HasRoom, EvictFits, AddrFits;
    LoopRing(m, pid);
  }

  lemma ReleaseRing(m: M, pid: int, w: int, n: nat, skip: bool)
    requires WF(m.pg) && RingPart(m) && n > 0 && forall x :: w <= x < w + n ==> HasPt(m.pg, pid, x)
    ensures RingPart(Wake(m.(pg := ReleasePages(m.pg, pid, w, n, skip))))
  {
    hide WF, HasPt, ReleasePages, Wake;
    var m1 := m.(pg := ReleasePages(m.pg, pid, w, n, skip));
    SameRing(m, m1);
    WakeRing(m1);
  }

  lemma SameRing(m: M, m': M)
    requires m'.waitq == m.waitq && m'.blocked == m.blocked && m'.pend == m.pend && m'.nproc == m.nproc
    ensures RingPart(m) ==> RingPart(m')
  {}

  lemma ActorIn(m: M, t: Step, v: int)
    requires WF(m.pg) && Possible(m, t) && MInv(Calm(Gone(m, v))) && t.pid != v
    ensures t.Fault? || t.Resume? ==> 0 <= t.pid < m.nproc
  {
    hide Inv, Reach, PdeOf;
    assert t.Fault? || t.Resume? ==> t.pid in Calm(Gone(m, v)).pg.procs;
  }

  lemma WakeRing(m: M)
    requires WF(m.pg) && RingPart(m)
    ensures RingPart(Wake(m))
  {
    hide WF;
  }

  lemma KillRing(m: M, pid: int)
    requires WF(m.pg) && RingPart(m)
    ensures RingPart(KillProc(m, pid))
  {
    hide WF, Reap, Wake;
    WakeRing(m.(pg := Reap(m.pg, pid), pend := m.pend - {pid}, blocked := m.blocked - {pid}));
  }

  lemma LoopRing(m: M, pid: int)
    requires WF(m.pg) && HasPt(m.pg, pid, m.addr) && RingPart(m) && 0 <= pid < m.nproc && pid !in m.blocked
    requires !HasRoom(m.pg) ==> RingFits(m)
    ensures RingPart(Loop(m, pid))
  {
    hide WF, HasRoom, HasPt, FreshPage;
    var m' := Loop(m, pid);
    forall q | q in m'.blocked ensures q in m'.waitq { assert q == pid || q in m.waitq; }
  }

  lemma HandleRing(m: M, pid: int, w: int)
    requires WF(m.pg) && Possible(m, Fault(pid, w)) && Harmless(m, Fault(pid, w)) && RingPart(m) && 0 <= pid < m.nproc
    ensures RingPart(Handle(m, pid, w))
  {
    hide WF, FetchPage, PdeOf, Loop, EnsurePt, EvictFits, KillProc;
    WfProc(m.pg, pid);
    var m0 := m.(addr := w);
    SameRing(m, m0);
    KillRing(m0, pid);
    var (s1, ok) := EnsurePt(m.pg, pid, w);
    if m.pg.procs[pid].alloc[w] && ok {
      var m1 := m0.(pg := s1);
      SameRing(m, m1);
      EnsureRoom(m.pg, pid, w);
      if !PteOf(s1, pid, w).swap { LoopRing(m1, pid); }
    }
  }

  /** Making a page table takes no frame of E1 or E2, and no page from E2. */
  lemma EnsureRoom(s: Pg, pid: int, w: int)
    requires WF(s) && pid in s.procs && InHeap(s.fr.cfg, w) && EnsurePt(s, pid, w).1 && !Present(s, pid, w)
    ensures HasRoom(EnsurePt(s, pid, w).0) <==> HasRoom(s)
    ensures !PteOf(EnsurePt(s, pid, w).0, pid, w).swap ==> !Mapped(s, pid, w)
  {}

  lemma GapPage(m: M, t: Step, v: int, q: int, w: int)
    requires WF(m.pg) && MInv(Calm(Gone(m, v))) && Possible(m, t) && Harmless(m, t) && t.pid != v
    requires q != v && (q, w) in Heap(m.pg) && !Concerns(m, t, q, w)
    ensures WF(Next(m, t).pg) && SameAt(Heap(m.pg), Heap(Next(m, t).pg), (q, w))
  {
    hide MInv, Next, Gone, Possible, Harmless, Heap, Concerns;
    var c := Calm(Gone(m, v));
    GapNext(m, t, v);
    GoneHeap(m, v, q, w);
    SameConcern(m, t, v, q, w);
    StepKeepsPage(c, t, q, w);
    GoneHeap(Next(m, t), v, q, w);
  }

  lemma GoneHeap(m: M, v: int, q: int, w: int)
    requires WF(m.pg) && q != v
    ensures WF(Calm(Gone(m, v)).pg) && SameAt(Heap(m.pg), Heap(Calm(Gone(m, v)).pg), (q, w))
  {
    hide Heap, PageBytes, Mapped;
    SameBytes(m.pg, v, q, w);
    HeapAt(m.pg, q, w);
    HeapAt(Without(m.pg, v), q, w);
  }

  lemma SameBytes(s: Pg, v: int, q: int, w: int)
    requires WF(s) && q != v
    ensures Mapped(Without(s, v), q, w) <==> Mapped(s, q, w)
    ensures Mapped(s, q, w) ==> PageBytes(Without(s, v), q, w) == PageBytes(s, q, w)
  {
    hide Block;
    SamePt(s, v, q, w);
  }

  lemma SameConcern(m: M, t: Step, v: int, q: int, w: int)
    requires WF(m.pg) && WF(Calm(Gone(m, v)).pg) && q != v
    ensures Concerns(Calm(Gone(m, v)), t, q, w) <==> Concerns(m, t, q, w)
  {
    hide WF;
  }

  /** The second half puts the machine in order again. */
  lemma RestOk(m: M, v: int)
    requires Between(m, v)
    ensures MInv(KillRest(m, v))
  {
    hide FrameOk, TablesOk, PageOk, Lists, Reach;
    var (c, r) := (Calm(Gone(m, v)), KillRest(m, v));
    forall q | q in r.pend ensures PendOk(r, q) { assert PendOk(c, q); }
  }

  /** Whatever others do in between: kill keeps the invariant as long as the victim takes no step. */
  lemma {:induction false} KillInTwo(m: M, v: int, ms: seq<M>, ts: seq<Step>)
    requires MInv(m) && v in m.pg.procs && |ms| == |ts| + 1 && ms[0] == KillHalf(m, v)
    requires forall i :: 0 <= i < |ts| ==> StepsTo(ms[i], ts[i], ms[i + 1]) && ts[i].pid != v
    ensures Between(ms[|ts|], v) && MInv(KillRest(ms[|ts|], v))
    decreases |ts|
  {
    hide MInv, Enabled, Next, Between, KillRest;
    if ts == [] {
      HalfOk(m, v);
    } else {
      var k := |ts| - 1;
      KillInTwo(m, v, ms[..k + 1], ts[..k]);
      assert ms[..k + 1][k] == ms[k] && StepsTo(ms[k], ts[k], ms[k + 1]);
      GapOne(ms[k], ts[k], ms[k + 1], v);
    }
    RestOk(ms[|ts|], v);
  }

  lemma GapOne(m: M, t: Step, m': M, v: int)
    requires Between(m, v) && StepsTo(m, t, m') && t.pid != v
    ensures Between(m', v)
  {
    hide MInv, Possible, Harmless, Next, Heap;
    GapStep(m, t, v);
  }

  /** Everybody else's pages keep their bytes meanwhile, as in any run. */
  lemma {:induction false} GapBytes(m: M, v: int, ms: seq<M>, ts: seq<Step>, q: int, w: int)
    requires MInv(m) && v in m.pg.procs && |ms| == |ts| + 1 && ms[0] == KillHalf(m, v)
    requires forall i :: 0 <= i < |ts| ==> StepsTo(ms[i], ts[i], ms[i + 1]) && ts[i].pid != v
    requires q != v && (q, w) in Heap(m.pg)
    requires forall i :: 0 <= i < |ts| ==> WF(ms[i].pg) && !Concerns(ms[i], ts[i], q, w)
    ensures WF(ms[|ts|].pg) && SameAt(Heap(m.pg), Heap(ms[|ts|].pg), (q, w))
    decreases |ts|
  {
    hide MInv, Enabled, Next, Between, KillRest, Heap, Concerns;
    if ts == [] {
      HalfHeap(m, v, q, w);
    } else {
      var k := |ts| - 1;
      GapBytes(m, v, ms[..k + 1], ts[..k], q, w);
      KillInTwo(m, v, ms[..k + 1], ts[..k]);
      assert ms[..k + 1][k] == ms[k] && StepsTo(ms[k], ts[k], ms[k + 1]);
      GapTwo(ms[k], ts[k], ms[k + 1], v, q, w);
    }
  }

  lemma HalfHeap(m: M, v: int, q: int, w: int)
    requires MInv(m)
    ensures WF(KillHalf(m, v).pg) && SameAt(Heap(m.pg), Heap(KillHalf(m, v).pg), (q, w))
  {
    hide FreeOwned;
    HeapAt(m.pg, q, w);
    HeapAt(KillHalf(m, v).pg, q, w);
  }

  lemma GapTwo(m: M, t: Step, m': M, v: int, q: int, w: int)
    requires Between(m, v) && StepsTo(m, t, m') && t.pid != v && q != v && (q, w) in Heap(m.pg)
      && !Concerns(m, t, q, w)
    ensures WF(m'.pg) && SameAt(Heap(m.pg), Heap(m'.pg), (q, w))
  {
    hide MInv, Possible, Harmless, Next, Heap, Concerns;
    GapPage(m, t, v, q, w);
  }

  // ---- the victim runs after all ----

  /** A store of the victim to a page that its table still names leaves everybody else's pages as they are
      if and only if the frame has not been given to anybody else, or the byte is the same. */
  lemma StrayStore(s: Pg, v: int, w: int, off: int, b: byte)
    requires WF(s) && Inv(Without(s, v)) && HasPt(s, v, w) && InRegion(s.fr.cfg, E1, PteOf(s, v, w).base)
    requires 0 <= off < NBPG
    ensures WF(Store(s, v, w, off, b))
    ensures var g := PteOf(s, v, w).base;
      && |FrameBytes(s, g)| == NBPG
      && ((forall q, u :: SamePage(Without(s, v), Without(Store(s, v, w, off, b), v), q, u))
          <==> !IsUsed(s.fr, g) || FrameBytes(s, g)[off] == b)
  {
    hide FrameOk, TablesOk, Lists, PageOk;
    var (r, g) := (Without(s, v), PteOf(s, v, w).base);
    var bytes := FrameBytes(s, g)[off := b];
    SetFrameKeeps(r, g, bytes, {}, {});
    var r' := SetFrame(r, g, bytes);
    assert Without(Store(s, v, w, off, b), v) == r';
    TablesInverse(r, g);
    if IsUsed(s.fr, g) {
      var q, u :| Mapped(r, q, u) && PteOf(r, q, u).base == g;
      assert Rewritten(r, r', g, bytes, q, u);
      assert FrameBytes(s, g)[off] != b ==> !SamePage(r, r', q, u);
    }
    if !IsUsed(s.fr, g) || FrameBytes(s, g)[off] == b {
      forall q, u ensures SamePage(r, r', q, u) { assert Rewritten(r, r', g, bytes, q, u); }
    }
  }
}
