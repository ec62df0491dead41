/** Two ways in which blocking on frames goes wrong, each as a run from the start up to the step that
    PagerExact.StepExact finds harmful. The sizes are the shipped ones and the bound of invtakeframe is
    raised to the number of frames, since under the shipped bound the tables break before E2 is full. */
module PagerWait {
  import opened Seqs
  import opened Bytes
  import opened Frames
  import opened Pager
  import opened PagerInv
  import opened PagerSteps
  import opened PagerMachine
  import opened PagerExact
  import opened PagerRuns
  import opened BlockQueues

  const WIDE := SHIPPED.(limit := 4096)

  /** Under a bound that excludes frames, E1 and E2 are never both full: nobody ever blocks. */
  lemma NeverFull(m: M)
    requires MInv(m) && m.pg.fr.cfg.limit < m.pg.fr.cfg.f
    ensures HasRoom(m.pg) && m.blocked == {} && m.waitq == []
  {
    hide FrameOk, TablesOk, Lists, PageOk;
    assert forall q :: q in m.blocked ==> q in m.waitq;
  }

  lemma RoomIs(s: Pg)
    requires WF(s)
    ensures HasRoom(s) <==> Room(s) > 0
  {}

  // ---- a process that blocks ----

  lemma BlockStep(m: M, pid: int, v: int) returns (m': M)
    requires Fresh(m, pid, v) && InHeap(m.pg.fr.cfg, v) && !HasRoom(m.pg) && HasFree(m.pg.fr, D)
    ensures Possible(m, Fault(pid, v)) && m' == Next(m, Fault(pid, v)) && WF(m'.pg) && m'.pg.procs == m.pg.procs
    ensures m'.addr == v && m'.nproc == m.nproc && m'.pend == m.pend[pid := v] && m'.blocked == m.blocked + {pid}
      && m'.waitq == Put(m.waitq, m.nproc, pid)
    ensures Inv(m'.pg) && !HasRoom(m'.pg) && m'.pg.fr.cfg == m.pg.fr.cfg
      && |m'.pg.fr.free[D]| >= |m.pg.fr.free[D]| - 1
    ensures forall q, w :: Mapped(m'.pg, q, w) <==> Mapped(m.pg, q, w)
    ensures HasPt(m'.pg, pid, v)
  {
    hide FrameOk, TablesOk, Lists, PageOk, EnsurePt, Handle, Reach, EvictFits, Heap, Mapped, PendOk;
    assert InHeap(m.pg.fr.cfg, v) && m.pg.procs[pid].alloc[v] && !Mapped(m.pg, pid, v);
    NotMapped(m.pg, pid, v);
    BlockingFault(m, pid, v);
    m' := Handle(m, pid, v);
    var s1 := EnsurePt(m.pg, pid, v).0;
    EnsureCounts(m.pg, pid, v);
    forall q, w ensures Mapped(s1, q, w) <==> Mapped(m.pg, q, w) {
      HeapAt(m.pg, q, w);
      HeapAt(s1, q, w);
    }
  }

  /** The same where the ring has a slot. */
  lemma BlockOk(m: M, pid: int, v: int) returns (m': M)
    requires Fresh(m, pid, v) && InHeap(m.pg.fr.cfg, v) && !HasRoom(m.pg) && HasFree(m.pg.fr, D) && |m.waitq| < m.nproc
    ensures StepsTo(m, Fault(pid, v), m') && MInv(m') && m'.pg.procs == m.pg.procs
    ensures m'.addr == v && m'.nproc == m.nproc && m'.pend == m.pend[pid := v] && m'.blocked == m.blocked + {pid}
      && m'.waitq == m.waitq + [pid]
    ensures !HasRoom(m'.pg) && m'.pg.fr.cfg == m.pg.fr.cfg && |m'.pg.fr.free[D]| >= |m.pg.fr.free[D]| - 1
    ensures forall q, w :: Mapped(m'.pg, q, w) <==> Mapped(m.pg, q, w)
    ensures forall q, u :: q != pid && Fresh(m, q, u) ==> Fresh(m', q, u)
  {
    hide FrameOk, TablesOk, Lists, PageOk, Next, Heap, Effect, Reach, Mapped, PendOk, EvictFits;
    m' := BlockStep(m, pid, v);
    FullFits(m.pg.fr);
    StepSafe(m, Fault(pid, v));
  }

  lemma FullFits(st: FrameSt)
    requires Shape(st) && !HasFree(st, E2)
    ensures EvictFits(st)
  {}

  // ---- E1 and E2 full ----

  /** Three processes that together have touched as many pages as E1 and E2 have frames. */
  lemma FullRun(mem: seq<byte>, nproc: nat) returns (ms: seq<M>, ts: seq<Step>)
    requires |mem| == WIDE.f * NBPG && nproc > 3
    ensures IsRun(ms, ts) && |ts| == 6 + 2072 && ms[0] == Start(WIDE, mem, nproc) && Full(ms[|ts|], nproc)
  {
    hide MInv, IsRun, HasPt, Mapped, Spare, Full;
    var ms1, ts1 := TwoProcesses(WIDE, mem, nproc);
    RunLength(ms1, ts1);
    var m := ms1[4];
    FreshFacts(m, 1, 0);
    MayCreate(m, 3);
    var m1, m2 := NewProcess(m, 3);
    var (ms2, ts2) := ([m, m1, m2], [Create(3), Grant(3, 0, 1024)]);
    var ms3, ts3 := ThreeFill(m2);
    RunLength(ms3, ts3);
    RunJoin(ms1, ts1, ms2, ts2);
    RunJoin(ms1 + ms2[1..], ts1 + ts2, ms3, ts3);
    ms, ts := ms1 + ms2[1..] + ms3[1..], ts1 + ts2 + ts3;
  }

  ghost predicate Full(m: M, nproc: nat) {
    && Fresh(m, 1, 1023) && Fresh(m, 3, 25) && Running(m, 2) && !HasRoom(m.pg)
    && (forall w :: 0 <= w < 1023 ==> Mapped(m.pg, 1, w)) && (forall w :: 0 <= w < 1024 ==> Mapped(m.pg, 2, w))
    && m.pg.fr.cfg == WIDE && m.nproc == nproc && m.pg.procs.Keys == {1, 2, 3} && |m.pg.fr.free[D]| >= 994
    && m.pend == map[] && m.blocked == {} && m.waitq == []
  }

  lemma ThreeFill(m: M) returns (ms: seq<M>, ts: seq<Step>)
    requires Fresh(m, 1, 0) && Fresh(m, 2, 0) && Fresh(m, 3, 0) && m.pg.fr.cfg == WIDE && m.pg.procs.Keys == {1, 2, 3}
    requires Spare(m) == 2072 && |m.pg.fr.free[D]| == 997 && m.pend == map[] && m.blocked == {} && m.waitq == []
    ensures IsRun(ms, ts) && |ts| == 2072 && ms[0] == m && Full(ms[2072], m.nproc)
  {
    hide MInv, IsRun, HasPt, Mapped, Fresh, Spare, Full;
    FreshFacts(m, 1, 0);
    var ms1, ts1 := FillRun(m, 1, 0, 1023);
    RunLength(ms1, ts1);
    var ms2, ts2 := FillRun(ms1[1023], 2, 0, 1024);
    RunLength(ms2, ts2);
    var ms3, ts3 := FillRun(ms2[1024], 3, 0, 25);
    RunLength(ms3, ts3);
    IsFull(ms3[25], m.nproc);
    RunJoin(ms1, ts1, ms2, ts2);
    RunJoin(ms1 + ms2[1..], ts1 + ts2, ms3, ts3);
    ms, ts := ms1 + ms2[1..] + ms3[1..], ts1 + ts2 + ts3;
  }

  lemma IsFull(m: M, nproc: nat)
    requires Fresh(m, 1, 1023) && Fresh(m, 2, 1024) && Fresh(m, 3, 25) && Spare(m) == 0 && m.pg.fr.cfg == WIDE
    requires forall w :: 0 <= w < 1023 ==> Mapped(m.pg, 1, w)
    requires forall w :: 0 <= w < 1024 ==> Mapped(m.pg, 2, w)
    requires m.nproc == nproc && m.pg.procs.Keys == {1, 2, 3} && |m.pg.fr.free[D]| >= 994
    requires m.pend == map[] && m.blocked == {} && m.waitq == []
    ensures Full(m, nproc)
  {
    hide MInv, Mapped;
    FreshFacts(m, 1, 1023);
    RoomIs(m.pg);
  }

  // ---- the address of the latest fault ----

  /** One page of a process is released, and its frame is free again: everybody in the ring is woken. */
  lemma ReleaseOnePage(m: M, pid: int, v: int)
    requires Inv(m.pg) && Running(m, pid) && Mapped(m.pg, pid, v)
    ensures Possible(m, Release(pid, v, 1, false))
    ensures var m' := Next(m, Release(pid, v, 1, false));
      && WF(m'.pg) && HasRoom(m'.pg) && m'.waitq == [] && m'.blocked == (m.blocked - set q | q in m.waitq)
      && m'.pend == m.pend && m'.addr == m.addr && m'.pg.fr.cfg == m.pg.fr.cfg
      && forall q, w :: (q, w) != (pid, v) && Mapped(m.pg, q, w) ==> Mapped(m'.pg, q, w)
  {
    hide FrameOk, TablesOk, Lists, PageOk, UnmapPage;
    UnmapKeeps(m.pg, pid, v);
    var s := UnmapPages(m.pg, pid, v, 1);
    assert s == UnmapPage(m.pg, pid, v) by {
      assert UnmapPages(UnmapPage(m.pg, pid, v), pid, v + 1, 0) == UnmapPage(m.pg, pid, v);
    }
    RoomIs(s);
    forall q, w | (q, w) != (pid, v) && Mapped(m.pg, q, w) ensures Mapped(s, q, w) { assert SamePage(m.pg, s, q, w); }
  }

  /** Process 1 waits for a frame for its page 1023, process 3 for one for its page 25; process 2 gives
      a page back and both are woken. Process 1 goes on at page 25, the latest fault, which it has used
      before: its bytes stay behind in a frame that is no page's, though the step is no store, release
      or kill of that page. */
  lemma StrayRun(mem: seq<byte>) returns (ms: seq<M>, ts: seq<Step>, g: int)
    requires |mem| == WIDE.f * NBPG
    ensures IsRun(ms, ts) && ms[0] == Start(WIDE, mem, 8) && |ts| == 6 + 2072 + 3
    ensures var m := ms[|ts|];
      && MInv(m) && m.pend == map[1 := 1023, 3 := 25] && m.addr == 25 && m.blocked == {}
      && Possible(m, Resume(1)) && !Concerns(m, Resume(1), 1, 25) && (1, 25) in Heap(m.pg)
      && !MInv(Next(m, Resume(1)))
      && InTable(m.pg.fr.cfg, g) && Mapped(m.pg, 1, 25) && Forgotten(m.pg, Next(m, Resume(1)).pg, 1, 25, g)
  {
    hide FrameOk, TablesOk, Lists, PageOk, Reach, IsRun, Mapped, Heap, Spare, Forgotten, FreshPage, HasRoom, EvictFits;
    ms, ts := StrayPrefix(mem);
    RunLength(ms, ts);
    var m := ms[|ts|];
    AddrHasPt(m, 1);
    HeapAt(m.pg, 1, 25);
    ResumeExact(m, 1);
    g := ResumeLoses(m, 1);
  }

  lemma StrayPrefix(mem: seq<byte>) returns (ms: seq<M>, ts: seq<Step>)
    requires |mem| == WIDE.f * NBPG
    ensures IsRun(ms, ts) && ms[0] == Start(WIDE, mem, 8) && |ts| == 6 + 2072 + 3
    ensures var m := ms[|ts|];
      && MInv(m) && m.pend == map[1 := 1023, 3 := 25] && m.addr == 25 && m.blocked == {}
      && HasRoom(m.pg) && EvictFits(m.pg.fr) && Mapped(m.pg, 1, 25)
  {
    hide MInv, IsRun, Mapped, Heap, Spare, Next, HasPt, Possible, Harmless;
    var ms1, ts1 := FullRun(mem, 8);
    RunLength(ms1, ts1);
    var m0 := ms1[|ts1|];
    FreshFacts(m0, 1, 1023);
    var m1 := BlockOk(m0, 1, 1023);
    FreshFacts(m1, 3, 25);
    var m2 := BlockOk(m1, 3, 25);
    var m3 := LastRelease(m2);
    var (ms2, ts2) := ([m0, m1, m2, m3], [Fault(1, 1023), Fault(3, 25), Release(2, 0, 1, false)]);
    assert IsRun(ms2, ts2) by {
      ThreeSteps(m0, Fault(1, 1023), m1, Fault(3, 25), m2, Release(2, 0, 1, false), m3);
    }
    RunJoin(ms1, ts1, ms2, ts2);
    ms, ts := ms1 + ms2[1..], ts1 + ts2;
  }

  lemma ThreeSteps(m0: M, t0: Step, m1: M, t1: Step, m2: M, t2: Step, m3: M)
    requires MInv(m0) && StepsTo(m0, t0, m1) && StepsTo(m1, t1, m2) && StepsTo(m2, t2, m3)
    ensures IsRun([m0, m1, m2, m3], [t0, t1, t2])
  {
    hide MInv, StepsTo;
    var (ms, ts) := ([m0, m1, m2, m3], [t0, t1, t2]);
    forall i | 0 <= i < |ts| ensures StepsTo(ms[i], ts[i], ms[i + 1]) {
      assert i == 0 || i == 1 || i == 2;
    }
  }

  lemma LastRelease(m: M) returns (m': M)
    requires MInv(m) && m.pend == map[1 := 1023, 3 := 25] && m.blocked == {1, 3} && m.waitq == [1, 3]
    requires Running(m, 2) && Mapped(m.pg, 2, 0) && Mapped(m.pg, 1, 25) && m.addr == 25 && m.pg.fr.cfg == WIDE
    ensures StepsTo(m, Release(2, 0, 1, false), m') && MInv(m') && m'.pend == m.pend && m'.addr == 25
    ensures m'.blocked == {} && HasRoom(m'.pg) && EvictFits(m'.pg.fr) && Mapped(m'.pg, 1, 25)
  {
    hide FrameOk, TablesOk, Lists, PageOk, Reach, Mapped, Heap, Next, HasRoom;
    ReleaseOnePage(m, 2, 0);
    StepSafe(m, Release(2, 0, 1, false));
    m' := Next(m, Release(2, 0, 1, false));
    assert MInv(m');
    WideFits(m');
  }

  lemma WideFits(m: M)
    requires MInv(m) && m.pg.fr.cfg == WIDE
    ensures EvictFits(m.pg.fr)
  {
    assert AllIn(m.pg.fr.cfg, E2, m.pg.fr.free[E2]);
  }

  // ---- the ring ----

  lemma UsedMapped(s: Pg, g: int)
    requires Inv(s) && IsUsed(s.fr, g) && !InRegion(s.fr.cfg, D, g)
    ensures s.fr.ent[g].pte.At? && Mapped(s, s.fr.ent[g].pid, s.fr.ent[g].pte.idx)
  {
    assert FrameOk(s, g);
  }

  lemma TopUnused(st: FrameSt, r: Region)
    requires InvF(st) && HasFree(st, r)
    ensures InRegion(st.cfg, r, st.free[r][0]) && !IsUsed(st, st.free[r][0])
  {
    assert Lists(st, st.free[r], r, false);
  }

  lemma AllUsed(st: FrameSt, r: Region)
    requires InvF(st) && forall g :: InRegion(st.cfg, r, g) ==> IsUsed(st, g)
    ensures !HasFree(st, r)
  {
    hide Lists;
    if HasFree(st, r) { TopUnused(st, r); }
  }

  lemma NoneFree(st: FrameSt, r: Region, g: int)
    requires InvF(st) && !HasFree(st, r) && InRegion(st.cfg, r, g)
    ensures IsUsed(st, g)
  {
    assert Lists(st, st.free[r], r, false);
  }

  /** A process that blocks on its first page holds no frame of E1 or E2: killing it wakes nobody. */
  lemma KillWakesNobody(s: Pg, pid: int)
    requires Inv(s) && !HasRoom(s) && forall w :: !Mapped(s, pid, w)
    ensures !HasRoom(Reap(s, pid))
  {
    hide TablesOk, PageOk, FreeOwned, FrameOk, Lists, Mapped;
    FreeOwnedKeeps(s.fr, pid, s.fr.cfg.d0);
    var fr := FreeOwned(s.fr, pid, s.fr.cfg.d0);
    forall r: Region, g | r != D && InRegion(s.fr.cfg, r, g) ensures IsUsed(fr, g) {
      NoneFree(s.fr, r, g);
      UsedMapped(s, g);
    }
    AllUsed(fr, E1);
    AllUsed(fr, E2);
  }

  /** E1 and E2 are full, and number pid is free. */
  ghost predicate RoundOk(m: M, pid: int) {
    && MInv(m) && !HasRoom(m.pg) && m.pg.fr.cfg == WIDE && 0 < pid < m.nproc && pid !in m.pg.procs
  }

  /** A process is created, blocks on its first page and is killed: its number stays in the ring. */
  lemma Round(m: M, pid: int) returns (ms: seq<M>, ts: seq<Step>)
    requires RoundOk(m, pid) && |m.pg.fr.free[D]| > 1 && |m.waitq| < m.nproc
    ensures IsRun(ms, ts) && |ts| == 4 && ms[0] == m
    ensures After(m, ms[4]) && ms[4].waitq == m.waitq + [pid] && ms[4].blocked == m.blocked
      && |ms[4].pg.fr.free[D]| >= |m.pg.fr.free[D]| - 2
  {
    hide MInv, IsRun, Mapped, Heap, Next, Fresh, Possible, Harmless, KillProc, HasRoom;
    NotPending(m, pid);
    MayCreate(m, pid);
    var m1, m2 := NewProcess(m, pid);
    FreshFacts(m2, pid, 0);
    FreshRoom(m, m2, pid);
    var m3 := BlockOk(m2, pid, 0);
    var m4 := KillBlocked(m3, pid);
    NobodyNew(m, m2, pid);
    var (ms1, ts1) := ([m, m1, m2], [Create(pid), Grant(pid, 0, m.pg.fr.cfg.heap)]);
    var (ms2, ts2) := ([m2, m3, m4], [Fault(pid, 0), Kill(pid)]);
    assert IsRun(ms2, ts2) by { TwoSteps(m2, Fault(pid, 0), m3, Kill(pid), m4); }
    RunJoin(ms1, ts1, ms2, ts2);
    ms, ts := ms1 + ms2[1..], ts1 + ts2;
    assert m3.blocked - {pid} == m.blocked && m3.pend - {pid} == m.pend;
    assert m3.pg.procs.Keys - {pid} == m.pg.procs.Keys;
  }

  /** What a round leaves as it was. */
  ghost predicate After(m: M, m': M) {
    && MInv(m) && MInv(m') && !HasRoom(m'.pg) && m'.pg.fr.cfg == m.pg.fr.cfg && m'.nproc == m.nproc
    && m'.pend == m.pend && m'.pg.procs.Keys == m.pg.procs.Keys
    && forall q, w :: Mapped(m.pg, q, w) ==> Mapped(m'.pg, q, w)
  }

  lemma NotPending(m: M, pid: int)
    requires MInv(m) && pid !in m.pg.procs
    ensures pid !in m.pend && pid !in m.blocked && (forall w :: !Mapped(m.pg, pid, w))
  {
    hide FrameOk, TablesOk, Lists, PageOk, Reach;
    assert pid in m.pend ==> PendOk(m, pid);
  }

  lemma NobodyNew(m: M, m2: M, pid: int)
    requires MInv(m) && pid !in m.pg.procs && WF(m2.pg)
    requires forall q, w :: Mapped(m.pg, q, w) <==> Mapped(m2.pg, q, w)
    ensures forall w :: !Mapped(m2.pg, pid, w)
    ensures forall q, w :: Mapped(m.pg, q, w) ==> q != pid
  {
    hide MInv, Mapped;
    NotPending(m, pid);
  }

  lemma FreshRoom(m: M, m2: M, pid: int)
    requires MInv(m) && Fresh(m2, pid, 0) && Spare(m2) == Spare(m) && m2.pg.fr.cfg == m.pg.fr.cfg && !HasRoom(m.pg)
    ensures !HasRoom(m2.pg) && WF(m2.pg)
  {
    hide FrameOk, TablesOk, Lists, PageOk, Reach;
    RoomIs(m.pg);
    RoomIs(m2.pg);
  }

  lemma KillBlocked(m: M, pid: int) returns (m': M)
    requires MInv(m) && pid in m.pg.procs && pid != 0 && !HasRoom(m.pg) && forall w :: !Mapped(m.pg, pid, w)
    ensures StepsTo(m, Kill(pid), m') && MInv(m') && !HasRoom(m'.pg) && m'.waitq == m.waitq
    ensures m'.pend == m.pend - {pid} && m'.blocked == m.blocked - {pid} && m'.nproc == m.nproc
      && m'.pg.fr.cfg == m.pg.fr.cfg && m'.pg.procs == m.pg.procs - {pid}
      && |m'.pg.fr.free[D]| >= |m.pg.fr.free[D]|
    ensures forall q, w :: q != pid && Mapped(m.pg, q, w) ==> Mapped(m'.pg, q, w)
  {
    hide FrameOk, TablesOk, Lists, PageOk, Reach, Mapped, Heap, Effect, FreeOwned, HasRoom;
    KillWakesNobody(m.pg, pid);
    StepSafe(m, Kill(pid));
    ReapKeeps(m.pg, pid);
    FreeOwnedKeeps(m.pg.fr, pid, m.pg.fr.cfg.d0);
    m' := Next(m, Kill(pid));
    forall q, w | q != pid && Mapped(m.pg, q, w) ensures Mapped(m'.pg, q, w) {
      assert SamePage(m.pg, m'.pg, q, w);
      SameMapped(m.pg, m'.pg, q, w);
    }
  }

  lemma TwoSteps(m0: M, t0: Step, m1: M, t1: Step, m2: M)
    requires MInv(m0) && StepsTo(m0, t0, m1) && StepsTo(m1, t1, m2)
    ensures IsRun([m0, m1, m2], [t0, t1])
  {
    hide MInv, StepsTo;
    var (ms, ts) := ([m0, m1, m2], [t0, t1]);
    forall i | 0 <= i < |ts| ensures StepsTo(ms[i], ts[i], ms[i + 1]) { assert i == 0 || i == 1; }
  }

  /** One such round for each number of a list. */
  lemma {:induction false} Rounds(m: M, ps: seq<int>) returns (ms: seq<M>, ts: seq<Step>)
    requires MInv(m) && !HasRoom(m.pg) && forall i :: 0 <= i < |ps| ==> RoundOk(m, ps[i])
    requires |m.pg.fr.free[D]| > 2 * |ps| && |m.waitq| + |ps| <= m.nproc
    ensures IsRun(ms, ts) && |ts| == 4 * |ps| && ms[0] == m
    ensures After(m, ms[|ts|]) && ms[|ts|].waitq == m.waitq + ps && ms[|ts|].blocked == m.blocked
      && |ms[|ts|].pg.fr.free[D]| >= |m.pg.fr.free[D]| - 2 * |ps|
    decreases |ps|
  {
    hide MInv, IsRun, Mapped, HasRoom;
    if ps == [] {
      ms, ts := [m], [];
      assert IsRun(ms, ts) by { OneState(m); }
    } else {
      var ms1, ts1 := Round(m, ps[0]);
      RunLength(ms1, ts1);
      var m1 := ms1[4];
      forall i | 0 <= i < |ps[1..]| ensures RoundOk(m1, ps[1..][i]) { assert RoundOk(m, ps[i + 1]); }
      var ms2, ts2 := Rounds(m1, ps[1..]);
      RunJoin(ms1, ts1, ms2, ts2);
      RunLength(ms2, ts2);
      ms, ts := ms1 + ms2[1..], ts1 + ts2;
      assert m.waitq + [ps[0]] + ps[1..] == m.waitq + ps by { assert [ps[0]] + ps[1..] == ps; }
    }
  }

  lemma OneState(m: M)
    requires MInv(m)
    ensures IsRun([m], [])
  {
    hide MInv;
  }

  /** With the eight slots of the program. Process 1 waits for a frame. Seven processes are created, block
      on their first page and are killed, under the numbers that newpid gives out, 4 to 7 and again 4 to
      6: the ring is full. The eighth, number 7, blocks: it is alone in the ring, and process 1 is
      blocked and not in the ring. A page given back then wakes process 7 only. */
  lemma OverrunRun(mem: seq<byte>) returns (ms: seq<M>, ts: seq<Step>)
    requires |mem| == WIDE.f * NBPG
    ensures IsRun(ms, ts) && ms[0] == Start(WIDE, mem, 8) && |ts| == 6 + 2072 + 1 + 28 + 2
    ensures var m := ms[|ts|];
      && MInv(m) && m.waitq == [1, 4, 5, 6, 7, 4, 5, 6] && m.blocked == {1} && m.nproc == 8
      && Possible(m, Fault(7, 0))
      && var m1 := Next(m, Fault(7, 0));
         && !MInv(m1) && WF(m1.pg) && m1.waitq == [7] && m1.blocked == {1, 7}
         && Possible(m1, Release(2, 0, 1, false))
         && var m2 := Next(m1, Release(2, 0, 1, false)); WF(m2.pg) && HasRoom(m2.pg) && m2.blocked == {1}
  {
    hide FrameOk, TablesOk, Lists, PageOk, Reach, IsRun, Mapped, Next, HasRoom, Fresh, EvictFits, PendOk, Possible;
    ms, ts := OverrunPrefix(mem);
    RunLength(ms, ts);
    var m := ms[|ts|];
    FreshFacts(m, 7, 0);
    var m1 := BlockStep(m, 7, 0);
    assert !MInv(m1) by { assert 1 in m1.blocked && 1 !in m1.waitq; }
    assert Running(m1, 2) by { assert 2 in m1.pg.procs.Keys; }
    ReleaseOnePage(m1, 2, 0);
    assert m1.waitq == [7];
    assert (set q | q in [7]) == {7};
    assert m1.blocked == {1, 7};
    assert m1.blocked - {7} == {1};
  }

  lemma OverrunPrefix(mem: seq<byte>) returns (ms: seq<M>, ts: seq<Step>)
    requires |mem| == WIDE.f * NBPG
    ensures IsRun(ms, ts) && ms[0] == Start(WIDE, mem, 8) && |ts| == 6 + 2072 + 1 + 28 + 2
    ensures var m := ms[|ts|];
      && Fresh(m, 7, 0) && m.waitq == [1, 4, 5, 6, 7, 4, 5, 6] && m.blocked == {1} && m.nproc == 8
      && !HasRoom(m.pg) && HasFree(m.pg.fr, D) && m.pg.fr.cfg == WIDE && Running(m, 2) && Mapped(m.pg, 2, 0)
      && m.pend == map[1 := 1023]
  {
    hide MInv, IsRun, Mapped, Fresh, Spare, HasRoom, EvictFits, PendOk, Possible, Next;
    var ms1, ts1 := WaiterRun(mem);
    RunLength(ms1, ts1);
    var ms2, ts2 := SevenRounds(ms1[|ts1|]);
    RunLength(ms2, ts2);
    var m := ms2[28];
    MayCreate(m, 7);
    var m1, m2 := NewProcess(m, 7);
    FreshRoom(m, m2, 7);
    FreshFacts(m2, 7, 0);
    var (ms3, ts3) := ([m, m1, m2], [Create(7), Grant(7, 0, 1024)]);
    RunJoin(ms1, ts1, ms2, ts2);
    RunJoin(ms1 + ms2[1..], ts1 + ts2, ms3, ts3);
    ms, ts := ms1 + ms2[1..] + ms3[1..], ts1 + ts2 + ts3;
    assert 2 in m2.pg.procs.Keys;
  }

  /** Process 1 is alone in the ring. */
  lemma WaiterRun(mem: seq<byte>) returns (ms: seq<M>, ts: seq<Step>)
    requires |mem| == WIDE.f * NBPG
    ensures IsRun(ms, ts) && ms[0] == Start(WIDE, mem, 8) && |ts| == 6 + 2072 + 1
    ensures var m := ms[|ts|];
      && MInv(m) && !HasRoom(m.pg) && m.pg.fr.cfg == WIDE && m.nproc == 8 && m.pg.procs.Keys == {1, 2, 3}
      && |m.pg.fr.free[D]| > 20 && m.waitq == [1] && m.blocked == {1} && m.pend == map[1 := 1023]
      && Mapped(m.pg, 2, 0)
  {
    hide MInv, IsRun, Mapped, Fresh, Spare, HasRoom, EvictFits, PendOk, Possible, Next;
    var ms1, ts1 := FullRun(mem, 8);
    RunLength(ms1, ts1);
    var m0 := ms1[|ts1|];
    FreshFacts(m0, 1, 1023);
    var m1 := BlockOk(m0, 1, 1023);
    OneStep(m0, Fault(1, 1023), m1);
    RunJoin(ms1, ts1, [m0, m1], [Fault(1, 1023)]);
    ms, ts := ms1 + [m0, m1][1..], ts1 + [Fault(1, 1023)];
  }

  lemma OneStep(m0: M, t: Step, m1: M)
    requires MInv(m0) && StepsTo(m0, t, m1)
    ensures IsRun([m0, m1], [t])
  {
    hide MInv, StepsTo;
  }

  lemma SevenRounds(m: M) returns (ms: seq<M>, ts: seq<Step>)
    requires MInv(m) && !HasRoom(m.pg) && m.pg.fr.cfg == WIDE && m.nproc == 8 && m.pg.procs.Keys == {1, 2, 3}
    requires |m.pg.fr.free[D]| > 20 && m.waitq == [1]
    ensures IsRun(ms, ts) && |ts| == 28 && ms[0] == m && After(m, ms[28]) && ms[28].blocked == m.blocked
    ensures ms[28].waitq == [1, 4, 5, 6, 7, 4, 5, 6] && |ms[28].pg.fr.free[D]| > 2
  {
    hide MInv, IsRun, Mapped, HasRoom, After;
    var ps := [4, 5, 6, 7, 4, 5, 6];
    forall i | 0 <= i < |ps| ensures RoundOk(m, ps[i]) { assert ps[i] !in m.pg.procs.Keys; }
    ms, ts := Rounds(m, ps);
    RunLength(ms, ts);
  }

  // ---- numbers that are not given out again too early ----

  /** Everybody in the ring is there once, and is blocked or has been killed. */
  ghost predicate Clean(m: M) {
    NoDup(m.waitq) && forall i :: 0 <= i < |m.waitq| ==> m.waitq[i] in m.blocked || m.waitq[i] !in m.pg.procs
  }

  /** It is the reuse of a number in the ring, and nothing else, that ends this. */
  lemma CleanStep(m: M, t: Step)
    requires MInv(m) && Possible(m, t) && Clean(m) && (t.Create? ==> t.pid !in m.waitq)
    ensures Clean(Next(m, t))
  {
    hide FrameOk, TablesOk, Lists, PageOk, Reach, Next, PendOk, Mapped, EvictFits, HasRoom;
    StepProcs(m, t);
    StepRing(m, t);
    if t.Fault? || t.Resume? {
      NotInRing(m, t.pid);
      CleanFits(m, t.pid);
    }
    var m' := Next(m, t);
    forall i | 0 <= i < |m'.waitq| ensures m'.waitq[i] in m'.blocked || m'.waitq[i] !in m'.pg.procs {
      var q := m'.waitq[i];
      assert q in m.waitq || q == t.pid;
    }
  }

  /** The ring is as before, or empty, or the process has joined it. */
  lemma StepRing(m: M, t: Step)
    requires WF(m.pg) && Possible(m, t)
    ensures var m' := Next(m, t);
      || m'.waitq == []
      || (m'.waitq == m.waitq
          && forall q :: q in m.blocked && q !in m'.blocked ==> (t.Fault? && q == t.pid) || t == Kill(q))
      || (m'.waitq == Put(m.waitq, m.nproc, t.pid) && m'.blocked == m.blocked + {t.pid} && (t.Fault? || t.Resume?))
  {
    hide WF, Put, PdeOf, PteOf, HasPt, FreshPage, FetchPage, Reap, EnsurePt, UnmapPages, Spawn, GrantPages, Store;
  }

  /** Then there is a slot for whoever blocks. */
  lemma CleanFits(m: M, pid: int)
    requires MInv(m) && Clean(m) && pid in m.pg.procs && pid !in m.blocked
    ensures |m.waitq| < m.nproc
  {
    hide FrameOk, TablesOk, Lists, PageOk, Reach;
    NotInRing(m, pid);
    PigeonholeMissing(m.waitq, 0, m.nproc, pid);
  }

  lemma NotInRing(m: M, pid: int)
    requires Clean(m) && pid in m.pg.procs && pid !in m.blocked
    ensures pid !in m.waitq
  {}

  lemma StepProcs(m: M, t: Step)
    requires WF(m.pg) && Possible(m, t)
    ensures forall q :: q in Next(m, t).pg.procs ==> (q in m.pg.procs && t != Kill(q)) || t == Create(q)
  {
    hide WF, HasRoom, Put, PdeOf, PteOf, HasPt, FreshPage, FetchPage, EnsurePt, ReleasePages, TakeD, FreeOwned,
      GrantPages, Mapped;
    var m' := Next(m, t);
    match t
    case Fault(pid, v) => assert m'.pg.procs.Keys <= m.pg.procs.Keys;
    case Resume(pid) => assert m'.pg.procs == m.pg.procs;
    case Write(pid, v, off, b) => assert m'.pg.procs == m.pg.procs;
    case Grant(pid, v, n) => assert m'.pg.procs.Keys == m.pg.procs.Keys;
    case Release(pid, v, n, skip) => assert m'.pg.procs.Keys == m.pg.procs.Keys;
    case Kill(pid) => assert m'.pg.procs == m.pg.procs - {pid};
    case Create(pid) => assert m'.pg.procs.Keys <= m.pg.procs.Keys + {pid};
  }

  // ---- a process that has been dropped ----

  /** Blocked, and not in the ring. */
  ghost predicate Dropped(m: M, q: int) { q in m.pend && q in m.blocked && q !in m.waitq }

  /** Nothing but being killed ever changes that, harmless or not. */
  lemma DroppedStep(m: M, t: Step, q: int)
    requires WF(m.pg) && Possible(m, t) && Dropped(m, q) && t != Kill(q)
    ensures Dropped(Next(m, t), q)
  {
    hide WF, HasRoom, FreshPage, FetchPage, EnsurePt, GrantPages, Reap, ReleasePages, Spawn, Store, Put, PdeOf, PteOf;
  }

  /** A dropped process never runs again. */
  lemma {:induction false} DroppedForEver(ms: seq<M>, ts: seq<Step>, q: int)
    requires |ms| == |ts| + 1 && Dropped(ms[0], q)
    requires forall i :: 0 <= i < |ts| ==>
      WF(ms[i].pg) && Possible(ms[i], ts[i]) && ms[i + 1] == Next(ms[i], ts[i]) && ts[i] != Kill(q)
    ensures Dropped(ms[|ts|], q)
    decreases |ts|
  {
    hide Next, Possible, WF, Dropped;
    if ts != [] {
      var k := |ts| - 1;
      DroppedForEver(ms[..k + 1], ts[..k], q);
      DroppedStep(ms[k], ts[k], q);
    }
  }
}
