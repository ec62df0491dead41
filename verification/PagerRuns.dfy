/** Runs of the pager that start from nothing: processes that get their whole heap granted and touch one
    page after the other. */
module PagerRuns {
  import opened Bytes
  import opened Frames
  import opened Pager
  import opened PagerInv
  import opened PagerSteps
  import opened PagerMachine

  /** Faults that the bound still leaves room for. */
  ghost function Spare(m: M): int
    requires WF(m.pg)
  {
    Room(m.pg) - (m.pg.fr.cfg.f - m.pg.fr.cfg.limit)
  }

  lemma SpareFits(m: M)
    requires MInv(m) && m.pg.fr.cfg.limit <= m.pg.fr.cfg.f && Spare(m) > 0
    ensures EvictFits(m.pg.fr) && HasRoom(m.pg)
  {
    hide FrameOk, TablesOk, Lists, PageOk;
    if !HasFree(m.pg.fr, E1) && HasFree(m.pg.fr, E2) { TopBelow(m.pg.fr); }
  }

  /** What a fresh page takes from the stacks. */
  lemma FreshCounts(s: Pg, pid: int, v: int)
    requires Inv(s) && HasPt(s, pid, v) && !Mapped(s, pid, v) && s.procs[pid].alloc[v]
    requires Low(s.fr.cfg) && EvictFits(s.fr) && (HasFree(s.fr, E1) || HasFree(s.fr, E2))
    ensures var (a, b) := (s.fr.free, FreshPage(s, pid, v).0.fr.free);
      && b[D] == a[D] && (a[E1] != [] ==> |b[E1]| == |a[E1]| - 1 && b[E2] == a[E2])
      && (a[E1] == [] ==> b[E1] == [] && b[E2] == a[E2][1..])
  {
    hide FrameOk, TablesOk, PageOk, Lists, MapFree, Evict;
    FreshKeeps(s, pid, v);
    var s1 := if HasFree(s.fr, E1) then s else Evict(s).0;
    if !HasFree(s.fr, E1) {
      FullHasVictim(s.fr);
      EvictShape(s, {});
      EvictKept(s);
    }
    assert AllIn(s1.fr.cfg, E1, s1.fr.free[E1]);
    MapShape(s1, pid, v);
  }

  /** A process whose pages from v on are granted and have no frame. */
  ghost predicate Fresh(m: M, pid: int, v: int) {
    && MInv(m) && Running(m, pid) && m.pg.fr.cfg.limit <= m.pg.fr.cfg.f
    && forall w :: v <= w < m.pg.fr.cfg.heap ==>
      InHeap(m.pg.fr.cfg, w) && m.pg.procs[pid].alloc[w] && !Mapped(m.pg, pid, w)
  }

  /** The state after one fault of such a process. */
  lemma FaultState(m: M, pid: int, v: int)
    requires Fresh(m, pid, v) && InHeap(m.pg.fr.cfg, v) && Spare(m) > 0 && HasFree(m.pg.fr, D)
    ensures Inv(m.pg) && WF(m.pg) && Enabled(m, Fault(pid, v)) && MInv(Handle(m, pid, v)) && WF(Handle(m, pid, v).pg)
    ensures var (m', s1) := (Handle(m, pid, v), EnsurePt(m.pg, pid, v).0);
      && HasPt(s1, pid, v) && m' == m.(addr := v, pg := FreshPage(s1, pid, v).0) && m'.pg.procs == m.pg.procs
      && m'.pg.fr.cfg == m.pg.fr.cfg && SameExcept(m.pg, m'.pg, pid, v) && HasPt(m'.pg, pid, v)
      && Room(m'.pg) == Room(m.pg) - 1 && Mapped(m'.pg, pid, v) && m'.pg.fr.free[D] == s1.fr.free[D]
  {
    hide FrameOk, TablesOk, InvF, PageOk, Reach, FreshPage, EnsurePt, EvictFits, SamePage, SameExcept, Mapped, Heap,
      Mapping, PendOk, Room, Shape, AllIn, HasPt, PdeOf, Alloc;
    SpareFits(m);
    NotMapped(m.pg, pid, v);
    FaultStep(m, pid, v);
    EnsureStep(m, pid, v);
    var s1 := EnsurePt(m.pg, pid, v).0;
    ReachLow(s1.fr);
    EnsurePtKeeps(m.pg, pid, v);
    StillUnmapped(m.pg, s1, pid, v);
    SameAll(m.pg, s1, pid, v);
    FreshKeeps(s1, pid, v);
    PresentMapped(FreshPage(s1, pid, v).0, pid, v);
    FreshCounts(s1, pid, v);
    SameTrans(m.pg, s1, FreshPage(s1, pid, v).0, pid, v);
    assert m.pend - {pid} == m.pend;
  }

  lemma SameAll(s: Pg, s1: Pg, pid: int, v: int)
    requires WF(s) && WF(s1) && forall q, w :: SamePage(s, s1, q, w)
    requires s1.fr.free[E1] == s.fr.free[E1] && s1.fr.free[E2] == s.fr.free[E2]
    ensures SameExcept(s, s1, pid, v) && Room(s1) == Room(s)
  {
    hide SamePage;
  }

  lemma StillUnmapped(s: Pg, s1: Pg, q: int, w: int)
    requires WF(s) && WF(s1) && SamePage(s, s1, q, w) && !Mapped(s, q, w)
    ensures !Mapped(s1, q, w) && (HasPt(s1, q, w) ==> !PteOf(s1, q, w).swap)
  {}

  lemma PresentMapped(s: Pg, pid: int, v: int)
    requires WF(s) && Present(s, pid, v)
    ensures Mapped(s, pid, v)
  {}

  lemma SameMapped(s: Pg, s1: Pg, q: int, w: int)
    requires WF(s) && WF(s1) && SamePage(s, s1, q, w)
    ensures Mapped(s1, q, w) <==> Mapped(s, q, w)
  {}

  /** One fault of such a process, with everything that the next ones need. */
  lemma FreshFault(m: M, pid: int, v: int) returns (m': M)
    requires Fresh(m, pid, v) && InHeap(m.pg.fr.cfg, v) && Spare(m) > 0 && HasFree(m.pg.fr, D)
    ensures StepsTo(m, Fault(pid, v), m') && Fresh(m', pid, v + 1) && m'.nproc == m.nproc && m'.pg.fr.cfg == m.pg.fr.cfg
    ensures Spare(m') == Spare(m) - 1 && |m'.pg.fr.free[D]| >= |m.pg.fr.free[D]| - if HasPt(m.pg, pid, v) then 0 else 1
    ensures forall w :: InHeap(m.pg.fr.cfg, w) ==> HasPt(m'.pg, pid, w)
    ensures m'.pend == m.pend && m'.blocked == m.blocked && m'.waitq == m.waitq && m'.pg.procs == m.pg.procs
    ensures Mapped(m'.pg, pid, v) && forall q, w :: Mapped(m.pg, q, w) ==> Mapped(m'.pg, q, w)
    ensures forall q, u :: q != pid && Fresh(m, q, u) ==> Fresh(m', q, u)
  {
    hide Inv, MInv, Reach, FreshPage, EnsurePt, EvictFits, SamePage, Handle, Mapped;
    FaultState(m, pid, v);
    m' := Handle(m, pid, v);
    EnsureCounts(m.pg, pid, v);
    OnePt(m'.pg, pid, v);
    forall q, w | (q, w) != (pid, v) ensures Mapped(m'.pg, q, w) <==> Mapped(m.pg, q, w) {
      assert SamePage(m.pg, m'.pg, q, w);
      SameMapped(m.pg, m'.pg, q, w);
    }
  }

  /** One page table serves the whole heap. */
  lemma OnePt(s: Pg, pid: int, v: int)
    requires WF(s) && HasPt(s, pid, v)
    ensures forall w :: InHeap(s.fr.cfg, w) ==> HasPt(s, pid, w)
  {}

  lemma NotMapped(s: Pg, pid: int, v: int)
    requires WF(s) && !Mapped(s, pid, v)
    ensures !Present(s, pid, v)
  {}

  lemma EnsureCounts(s: Pg, pid: int, v: int)
    requires Inv(s) && pid in s.procs && InHeap(s.fr.cfg, v) && HasFree(s.fr, D)
    ensures |EnsurePt(s, pid, v).0.fr.free[D]| >= |s.fr.free[D]| - if HasPt(s, pid, v) then 0 else 1
  {
    hide Core, Lists;
  }

  /** n faults one after the other. */
  lemma {:induction false} FillRun(m: M, pid: int, v: int, n: nat) returns (ms: seq<M>, ts: seq<Step>)
    requires Fresh(m, pid, v) && 0 <= v && v + n <= m.pg.fr.cfg.heap && n <= Spare(m)
    requires HasFree(m.pg.fr, D) && (n > 0 ==> HasPt(m.pg, pid, v) || |m.pg.fr.free[D]| > 1)
    ensures IsRun(ms, ts) && |ts| == n && ms[0] == m
    ensures Fresh(ms[n], pid, v + n) && Spare(ms[n]) == Spare(m) - n && ms[n].pg.fr.cfg == m.pg.fr.cfg
      && ms[n].nproc == m.nproc
    ensures ms[n].pend == m.pend && ms[n].blocked == m.blocked && ms[n].waitq == m.waitq
      && ms[n].pg.procs == m.pg.procs
    ensures forall w :: v <= w < v + n ==> Mapped(ms[n].pg, pid, w)
    ensures forall q, w :: Mapped(m.pg, q, w) ==> Mapped(ms[n].pg, q, w)
    ensures |ms[n].pg.fr.free[D]| >= |m.pg.fr.free[D]| - 1
    ensures forall w :: InHeap(m.pg.fr.cfg, w) && (n > 0 || HasPt(m.pg, pid, w)) ==> HasPt(ms[n].pg, pid, w)
    ensures (n > 0 && !HasPt(m.pg, pid, v)) || |ms[n].pg.fr.free[D]| >= |m.pg.fr.free[D]|
    ensures forall q, u :: q != pid && Fresh(m, q, u) ==> Fresh(ms[n], q, u)
    decreases n
  {
    hide MInv, Enabled, Next, Spare, Mapped, HasPt;
    if n == 0 {
      ms, ts := [m], [];
      FreshInv(m, pid, v);
    } else {
      FreshInv(m, pid, v);
      var m1 := FreshFault(m, pid, v);
      var ms1, ts1 := FillRun(m1, pid, v + 1, n - 1);
      ms, ts := [m] + ms1, [Fault(pid, v)] + ts1;
      RunCons(m, Fault(pid, v), ms1, ts1);
    }
  }

  lemma FreshInv(m: M, pid: int, v: int)
    requires Fresh(m, pid, v)
    ensures MInv(m)
  {}

  lemma RunCons(m: M, t: Step, ms: seq<M>, ts: seq<Step>)
    requires MInv(m) && IsRun(ms, ts) && StepsTo(m, t, ms[0])
    ensures IsRun([m] + ms, [t] + ts)
  {
    hide MInv, Enabled, Next;
    var (ns, us) := ([m] + ms, [t] + ts);
    forall i | 0 <= i < |us| ensures StepsTo(ns[i], us[i], ns[i + 1]) {
      if i > 0 { assert StepsTo(ms[i - 1], ts[i - 1], ms[i]); }
    }
  }

  /** create and vmhgetmem for a process that then has its whole heap granted and no frame for it. */
  lemma NewProcess(m: M, pid: int) returns (m1: M, m2: M)
    requires MInv(m) && m.pg.fr.cfg.limit <= m.pg.fr.cfg.f && pid !in m.pend && Enabled(m, Create(pid))
    ensures IsRun([m, m1, m2], [Create(pid), Grant(pid, 0, m.pg.fr.cfg.heap)])
    ensures Fresh(m2, pid, 0) && Spare(m2) == Spare(m) && |m2.pg.fr.free[D]| == |m.pg.fr.free[D]| - 1
    ensures m2.pg.fr.cfg == m.pg.fr.cfg && m2.nproc == m.nproc && m2.pend == m.pend && m2.waitq == m.waitq
      && m2.blocked == m.blocked
    ensures m2.pg.procs.Keys == m.pg.procs.Keys + {pid}
    ensures forall q, w :: Mapped(m.pg, q, w) <==> Mapped(m2.pg, q, w)
    ensures forall q, u :: q != pid && Fresh(m, q, u) ==> Fresh(m2, q, u)
  {
    hide MInv, Fresh, Spare, IsRun, Enabled;
    m1, m2 := NewSteps(m, pid);
    Created(m, pid, m1);
    Granted(m1, pid, m2);
    NowFresh(m, pid, m1, m2);
    forall q, u | q != pid && Fresh(m, q, u) ensures Fresh(m2, q, u) { StillFresh(m, m1, m2, pid, q, u); }
  }

  lemma NewSteps(m: M, pid: int) returns (m1: M, m2: M)
    requires MInv(m) && Enabled(m, Create(pid))
    ensures MInv(m1) && MInv(m2) && IsRun([m, m1, m2], [Create(pid), Grant(pid, 0, m.pg.fr.cfg.heap)])
    ensures pid !in m.pg.procs && WF(m.pg) && m1 == m.(pg := Spawn(m.pg, pid).0) && WF(m1.pg) && pid in m1.pg.procs
    ensures WF(m2.pg) && m1.pg.fr.cfg == m.pg.fr.cfg && m2 == m1.(pg := GrantPages(m1.pg, pid, 0, m.pg.fr.cfg.heap))
  {
    hide MInv, Next, Spawn, GrantPages;
    var n := m.pg.fr.cfg.heap;
    m1 := CreateOne(m, pid);
    m2 := GrantOne(m1, pid, n);
    var (ms, ts) := ([m, m1, m2], [Create(pid), Grant(pid, 0, n)]);
    assert StepsTo(ms[0], ts[0], ms[1]) && StepsTo(ms[1], ts[1], ms[2]);
  }

  lemma CreateOne(m: M, pid: int) returns (m1: M)
    requires MInv(m) && Enabled(m, Create(pid))
    ensures WF(m.pg) && pid !in m.pg.procs && StepsTo(m, Create(pid), m1) && m1 == m.(pg := Spawn(m.pg, pid).0)
    ensures MInv(m1) && WF(m1.pg) && m1.pg.fr.cfg == m.pg.fr.cfg && Running(m1, pid)
  {
    hide FrameOk, TablesOk, Lists, PageOk, Reach, Spawn;
    StepSafe(m, Create(pid));
    m1 := Next(m, Create(pid));
    SpawnKeeps0(m, pid);
  }

  lemma GrantOne(m: M, pid: int, n: nat) returns (m1: M)
    requires MInv(m) && Running(m, pid) && n <= m.pg.fr.cfg.heap
    ensures WF(m.pg) && WF(m1.pg) && StepsTo(m, Grant(pid, 0, n), m1) && m1 == m.(pg := GrantPages(m.pg, pid, 0, n))
    ensures MInv(m1)
  {
    hide FrameOk, TablesOk, Lists, PageOk, Reach, GrantPages;
    StepSafe(m, Grant(pid, 0, n));
    m1 := Next(m, Grant(pid, 0, n));
  }

  lemma NowFresh(m: M, pid: int, m1: M, m2: M)
    requires MInv(m) && WF(m.pg) && MInv(m2) && WF(m2.pg) && WF(m1.pg) && pid !in m.pg.procs && pid !in m.pend
      && m2.pend == m1.pend == m.pend
    requires m1.pg.fr.cfg == m.pg.fr.cfg && m2.pg.fr == m1.pg.fr && m.pg.fr.cfg.limit <= m.pg.fr.cfg.f
    requires Room(m1.pg) == Room(m.pg) && Room(m2.pg) == Room(m1.pg) && pid in m2.pg.procs
    requires forall w :: 0 <= w < m.pg.fr.cfg.heap ==> InHeap(m.pg.fr.cfg, w) && m2.pg.procs[pid].alloc[w]
    requires forall q, w :: Mapped(m1.pg, q, w) <==> Mapped(m.pg, q, w)
    requires forall q, w :: Mapped(m2.pg, q, w) <==> Mapped(m1.pg, q, w)
    ensures Fresh(m2, pid, 0) && Spare(m2) == Spare(m)
  {
    hide MInv, Mapped, Room;
    NoneMapped(m, pid);
  }

  lemma StillFresh(m: M, m1: M, m2: M, pid: int, q: int, u: int)
    requires Fresh(m, q, u) && q != pid && MInv(m2) && WF(m.pg) && WF(m2.pg) && WF(m1.pg)
      && m2.pend == m1.pend == m.pend
    requires m1.pg.fr.cfg == m.pg.fr.cfg && m2.pg.fr == m1.pg.fr && m1.pg.procs.Keys == m.pg.procs.Keys + {pid}
    requires forall p :: p in m.pg.procs ==> m1.pg.procs[p] == m.pg.procs[p]
    requires m2.pg.procs.Keys == m1.pg.procs.Keys
    requires forall p :: p in m1.pg.procs && p != pid ==> m2.pg.procs[p] == m1.pg.procs[p]
    requires forall q, w :: Mapped(m1.pg, q, w) <==> Mapped(m.pg, q, w)
    requires forall q, w :: Mapped(m2.pg, q, w) <==> Mapped(m1.pg, q, w)
    ensures Fresh(m2, q, u)
  {
    hide MInv, Mapped;
    assert q in m1.pg.procs.Keys && q in m2.pg.procs.Keys;
  }

  lemma NoneMapped(m: M, pid: int)
    requires WF(m.pg) && pid !in m.pg.procs
    ensures forall w :: !Mapped(m.pg, pid, w)
  {}

  /** The state after create. */
  lemma Created(m: M, pid: int, m1: M)
    requires MInv(m) && Enabled(m, Create(pid)) && m1 == m.(pg := Spawn(m.pg, pid).0) && WF(m1.pg)
    ensures m1.pend == m.pend && m1.waitq == m.waitq && m1.nproc == m.nproc && m1.pg.fr.cfg == m.pg.fr.cfg
    ensures Room(m1.pg) == Room(m.pg) && |m1.pg.fr.free[D]| == |m.pg.fr.free[D]| - 1
    ensures m1.pg.procs.Keys == m.pg.procs.Keys + {pid} && forall q :: q in m.pg.procs ==>
      m1.pg.procs[q] == m.pg.procs[q]
    ensures forall q, w :: Mapped(m1.pg, q, w) <==> Mapped(m.pg, q, w)
  {
    hide FrameOk, TablesOk, Lists, PageOk, Reach, Spawn, SamePage, Mapped, Room;
    SpawnKeeps0(m, pid);
    forall q, w ensures Mapped(m1.pg, q, w) <==> Mapped(m.pg, q, w) {
      assert SamePage(m.pg, m1.pg, q, w);
      SameMapped(m.pg, m1.pg, q, w);
    }
  }

  /** The state after vmhgetmem of the whole heap. */
  lemma Granted(m: M, pid: int, m1: M)
    requires MInv(m) && pid in m.pg.procs && WF(m1.pg) && m1 == m.(pg := GrantPages(m.pg, pid, 0, m.pg.fr.cfg.heap))
    ensures m1.pg.fr == m.pg.fr && Room(m1.pg) == Room(m.pg) && m1.pg.procs.Keys == m.pg.procs.Keys
    ensures forall w :: 0 <= w < m.pg.fr.cfg.heap ==> InHeap(m.pg.fr.cfg, w) && m1.pg.procs[pid].alloc[w]
    ensures forall q :: q in m.pg.procs && q != pid ==> m1.pg.procs[q] == m.pg.procs[q]
    ensures forall q, w :: Mapped(m1.pg, q, w) <==> Mapped(m.pg, q, w)
  {
    hide FrameOk, TablesOk, Lists, PageOk, Reach, GrantPages, SamePage, Mapped;
    GrantKeeps(m.pg, pid, 0, m.pg.fr.cfg.heap);
    forall q, w ensures Mapped(m1.pg, q, w) <==> Mapped(m.pg, q, w) {
      assert SamePage(m.pg, m1.pg, q, w);
      SameMapped(m.pg, m1.pg, q, w);
    }
  }

  lemma SpawnKeeps0(m: M, pid: int)
    requires MInv(m) && pid !in m.pg.procs && HasFree(m.pg.fr, D)
    ensures var s := Spawn(m.pg, pid).0;
      && Room(s) == Room(m.pg) && |s.fr.free[D]| == |m.pg.fr.free[D]| - 1
      && s.procs == m.pg.procs[pid := Proc(m.pg.fr.free[D][0], seq(m.pg.fr.cfg.heap, _ => false))]
      && forall q, w :: SamePage(m.pg, s, q, w)
  {
    hide FrameOk, TablesOk, Lists, PageOk, SamePage;
    SpawnKeeps(m.pg, pid);
  }

  lemma RunJoin(ms: seq<M>, ts: seq<Step>, ns: seq<M>, us: seq<Step>)
    requires IsRun(ms, ts) && IsRun(ns, us) && ms[|ts|] == ns[0]
    ensures IsRun(ms + ns[1..], ts + us) && (ms + ns[1..])[|ts| + |us|] == ns[|us|]
  {
    hide MInv, Enabled, Next;
    var (ps, vs) := (ms + ns[1..], ts + us);
    forall i | 0 <= i < |vs| ensures StepsTo(ps[i], vs[i], ps[i + 1]) {
      if i < |ts| { assert StepsTo(ms[i], ts[i], ms[i + 1]); }
      else { assert StepsTo(ns[i - |ts|], us[i - |ts|], ns[i - |ts| + 1]); }
    }
  }

  /** Two processes from the start on, each with its whole heap granted. */
  lemma TwoProcesses(c: Cfg, mem: seq<byte>, nproc: nat) returns (ms: seq<M>, ts: seq<Step>)
    requires ValidCfg(c) && Low(c) && c.limit <= c.f && |mem| == c.f * NBPG && c.e1 - c.d0 > 1 && nproc > 2
    ensures IsRun(ms, ts) && |ts| == 4 && ms[0] == Start(c, mem, nproc)
    ensures Fresh(ms[4], 1, 0) && Fresh(ms[4], 2, 0) && ms[4].pg.fr.cfg == c && ms[4].pg.procs.Keys == {1, 2}
    ensures Spare(ms[4]) == c.limit - c.e1 && |ms[4].pg.fr.free[D]| == c.e1 - c.d0 - 2
    ensures ms[4].nproc == nproc && ms[4].pend == map[] && ms[4].blocked == {} && ms[4].waitq == []
  {
    hide MInv, Enabled, Next, Spare, Fresh, Boot, IsRun;
    BootSafe(c, mem, nproc);
    var m0 := Start(c, mem, nproc);
    BootCounts(m0, c);
    MayCreate(m0, 1);
    var m1, m2 := NewProcess(m0, 1);
    FreshFacts(m2, 1, 0);
    MayCreate(m2, 2);
    var m3, m4 := NewProcess(m2, 2);
    RunJoin([m0, m1, m2], [Create(1), Grant(1, 0, c.heap)], [m2, m3, m4], [Create(2), Grant(2, 0, c.heap)]);
    ms, ts := [m0, m1, m2, m3, m4], [Create(1), Grant(1, 0, c.heap), Create(2), Grant(2, 0, c.heap)];
    assert [m2, m3, m4][1..] == [m3, m4];
    assert [m0, m1, m2] + [m3, m4] == ms && [Create(1), Grant(1, 0, c.heap)] + [Create(2), Grant(2, 0, c.heap)] == ts;
  }

  lemma MayCreate(m: M, pid: int)
    requires MInv(m) && 0 <= pid < m.nproc && pid !in m.pg.procs && HasFree(m.pg.fr, D)
    ensures Enabled(m, Create(pid))
  {}

  lemma RunLength(ms: seq<M>, ts: seq<Step>)
    requires IsRun(ms, ts)
    ensures |ms| == |ts| + 1
  {}

  lemma BootCounts(m: M, c: Cfg)
    requires m.pg.fr == Boot(c) && ValidCfg(c) && MInv(m)
    ensures m.pg.fr.cfg == c && |m.pg.fr.free[D]| == c.e1 - c.d0 && Spare(m) == c.limit - c.e1
  {
    hide Inv, Reach;
  }

  lemma FreshFacts(m: M, pid: int, v: int)
    requires Fresh(m, pid, v)
    ensures MInv(m) && WF(m.pg) && Running(m, pid)
  {}
}
