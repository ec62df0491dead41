/** The four fault primitives of pgfutil.c and the scenario selection of pgfhandler.c, as
    functions on the machine state: frame tables, physical memory, page tables, page
    directories and the process table. Frames that hold page tables and page directories are
    kept with their typed contents (pt, pd); every other frame is bytes (mem). */
module Pager {
  import opened Kernel
  import opened Bytes
  import opened Frames

  datatype Pte = Pte(pres: bool, write: bool, swap: bool, base: int)
  datatype Pde = Pde(pres: bool, write: bool, base: int)
  datatype Proc = Proc(pd: int, alloc: seq<bool>)

  const ABSENT_PTE := Pte(false, false, false, 0)
  const ABSENT_PDE := Pde(false, false, 0)

  datatype Pg = Pg(fr: FrameSt, mem: seq<byte>, pt: map<int, seq<Pte>>, pd: map<int, seq<Pde>>,
                   procs: map<int, Proc>)

  /** Page directory and page table index of heap page v, whose address is frame f + v. */
  function PdIdx(c: Cfg, v: int): (i: int)
    requires ValidCfg(c) && 0 <= v < c.heap
    ensures i == c.f / NENTRIES && 0 <= i < NENTRIES
  {
    (c.f + v) / NENTRIES
  }

  function PtIdx(c: Cfg, v: int): (i: int)
    requires ValidCfg(c) && 0 <= v < c.heap
    ensures i == v
  {
    (c.f + v) % NENTRIES
  }

  predicate InHeap(c: Cfg, v: int) { 0 <= v < c.heap }

  ghost predicate WF(s: Pg) {
    && Shape(s.fr) && |s.mem| == s.fr.cfg.f * NBPG
    && (forall t :: t in s.pt ==> |s.pt[t]| == NENTRIES)
    && (forall pid :: pid in s.procs ==>
          && s.procs[pid].pd in s.pd && |s.pd[s.procs[pid].pd]| == NENTRIES
          && |s.procs[pid].alloc| == s.fr.cfg.heap)
    && (forall pid, v :: pid in s.procs && InHeap(s.fr.cfg, v) && PdeOf(s, pid, v).pres ==>
          PdeOf(s, pid, v).base in s.pt)
  }

  lemma WfEmpty(s: Pg)
    requires Shape(s.fr) && |s.mem| == s.fr.cfg.f * NBPG && s.pt == map[] && s.procs == map[]
    ensures WF(s)
  {}

  lemma WfProc(s: Pg, pid: int)
    requires WF(s) && pid in s.procs
    ensures s.procs[pid].pd in s.pd && |s.pd[s.procs[pid].pd]| == NENTRIES && |s.procs[pid].alloc| == s.fr.cfg.heap
  {}

  /** getpde */
  ghost function PdeOf(s: Pg, pid: int, v: int): Pde
    requires Shape(s.fr) && pid in s.procs && InHeap(s.fr.cfg, v)
    requires s.procs[pid].pd in s.pd && |s.pd[s.procs[pid].pd]| == NENTRIES
  {
    s.pd[s.procs[pid].pd][PdIdx(s.fr.cfg, v)]
  }

  ghost predicate HasPt(s: Pg, pid: int, v: int)
    requires WF(s)
  {
    pid in s.procs && InHeap(s.fr.cfg, v) && PdeOf(s, pid, v).pres
  }

  /** getpte: a pointer into the page table that the directory entry names. */
  ghost function PteRef(s: Pg, pid: int, v: int): PtePtr
    requires WF(s) && HasPt(s, pid, v)
  {
    At(PdeOf(s, pid, v).base, PtIdx(s.fr.cfg, v))
  }

  ghost predicate Points(s: Pg, p: PtePtr) { p.At? && p.table in s.pt && 0 <= p.idx < |s.pt[p.table]| }

  ghost function PteAt(s: Pg, p: PtePtr): Pte
    requires Points(s, p)
  {
    s.pt[p.table][p.idx]
  }

  ghost function PteOf(s: Pg, pid: int, v: int): Pte
    requires WF(s) && HasPt(s, pid, v)
  {
    PteAt(s, PteRef(s, pid, v))
  }

  ghost function SetPte(s: Pg, p: PtePtr, e: Pte): (s': Pg)
    requires WF(s) && Points(s, p)
    ensures WF(s')
  {
    s.(pt := s.pt[p.table := s.pt[p.table][p.idx := e]])
  }

  ghost function FrameBytes(s: Pg, g: int): seq<byte> { Block(s.mem, NBPG, g) }

  ghost function SetFrame(s: Pg, g: int, b: seq<byte>): (s': Pg)
    requires WF(s) && 0 <= g < s.fr.cfg.f && |b| == NBPG
    ensures WF(s')
  {
    s.(mem := SetBlock(s.mem, NBPG, g, b))
  }

  ghost function SetFrames(s: Pg, fr: FrameSt): (s': Pg)
    requires WF(s) && Shape(fr) && fr.cfg == s.fr.cfg
    ensures WF(s')
  {
    s.(fr := fr)
  }

  /** mapfreeframe */
  ghost function MapFree(s: Pg, pid: int, v: int): (p: (Pg, int))
    requires WF(s) && HasPt(s, pid, v)
    ensures WF(p.0) && p.0.fr.cfg == s.fr.cfg && p.0.procs == s.procs && p.0.pd == s.pd && HasPt(p.0, pid, v)
    ensures p.1 == SYSERR || InRegion(s.fr.cfg, E1, p.1)
  {
    var ref := PteRef(s, pid, v);
    var (fr', g) := Alloc(s.fr, E1, pid, ref);
    if g == SYSERR then (s, g)
    else
      var s1 := SetFrames(s, fr');
      (SetPte(s1, ref, Pte(true, true, false, g)), g)
  }

  /** restoreframe */
  ghost function Restore(s: Pg, pid: int, v: int): (p: (Pg, bool))
    requires WF(s) && HasPt(s, pid, v) && InTable(s.fr.cfg, PteOf(s, pid, v).base)
    ensures WF(p.0) && p.0.fr.cfg == s.fr.cfg && p.0.procs == s.procs && p.0.pd == s.pd
  {
    var src := PteOf(s, pid, v).base;
    var (s1, dest) := MapFree(s, pid, v);
    if dest == SYSERR then (s1, false)
    else
      var s2 := SetFrame(s1, dest, FrameBytes(s1, src));
      (SetFrames(s2, Free(s2.fr, src).0), true)
  }

  /** evictframe; the result of invtakeframe is not looked at. */
  ghost function Evict(s: Pg): (p: (Pg, bool))
    requires WF(s)
    ensures WF(p.0) && p.0.fr.cfg == s.fr.cfg && p.0.procs == s.procs && p.0.pd == s.pd
      && (forall q, w :: HasPt(s, q, w) ==> HasPt(p.0, q, w))
  {
    var victim := GetUsedE1(s.fr);
    if victim == SYSERR then (s, false)
    else
      var e := s.fr.ent[victim];
      var (fr1, dest) := Alloc(s.fr, E2, e.pid, e.pte);
      if dest == SYSERR then (s, false)
      else
        var s1 := SetFrame(SetFrames(s, fr1), dest, FrameBytes(s, victim));
        var s2 := if Points(s1, e.pte) then SetPte(s1, e.pte, Pte(false, false, true, dest)) else s1;
        (SetFrames(s2, Free(s2.fr, victim).0), true)
  }

  /** swapframe; the result of evictframe is not looked at, and when mapfreeframe fails the
      code goes on to copy to frame number SYSERR, where this function stops with false. */
  ghost function Swap(s: Pg, pid: int, v: int): (p: (Pg, bool))
    requires WF(s) && HasPt(s, pid, v) && InTable(s.fr.cfg, PteOf(s, pid, v).base)
    ensures WF(p.0) && p.0.fr.cfg == s.fr.cfg && p.0.procs == s.procs && p.0.pd == s.pd
  {
    var src := PteOf(s, pid, v).base;
    SwapIn(Evict(SetFrames(s, Free(s.fr, src).0)).0, pid, v, FrameBytes(s, src))
  }

  /** The end of swapframe. */
  ghost function SwapIn(s: Pg, pid: int, v: int, temp: seq<byte>): (p: (Pg, bool))
    requires WF(s) && HasPt(s, pid, v) && |temp| == NBPG
    ensures WF(p.0) && p.0.fr.cfg == s.fr.cfg && p.0.procs == s.procs && p.0.pd == s.pd
  {
    var (s', g) := MapFree(s, pid, v);
    if g == SYSERR then (s', false) else (SetFrame(s', g, temp), true)
  }

  /** newpt, and the directory entry that __pde_inv_check fills in with its result. */
  ghost function EnsurePt(s: Pg, pid: int, v: int): (p: (Pg, bool))
    requires WF(s) && pid in s.procs && InHeap(s.fr.cfg, v)
    ensures WF(p.0) && p.0.fr.cfg == s.fr.cfg && (p.1 ==> HasPt(p.0, pid, v)) && p.0.procs == s.procs
  {
    if PdeOf(s, pid, v).pres then (s, true)
    else
      var (fr', g) := TakeD(s.fr, pid);
      var s1 := SetFrames(s, fr');
      if g == SYSERR then (s1, false) else (SetTable(s1, pid, v, g), true)
  }

  /** The frame that newpt and newpd take; SYSERR when there is none or it is refused. */
  ghost function TakeD(fr: FrameSt, pid: int): (p: (FrameSt, int))
    requires Shape(fr)
    ensures Shape(p.0) && p.0.cfg == fr.cfg && (p.1 == SYSERR || InRegion(fr.cfg, D, p.1))
  {
    var (fr1, g) := GetFree(fr, D);
    if g == SYSERR then (fr1, SYSERR)
    else
      var (fr2, ok) := Take(fr1, g, pid, Unused);
      (fr2, if ok then g else SYSERR)
  }

  ghost function SetTable(s: Pg, pid: int, v: int, g: int): (s': Pg)
    requires WF(s) && pid in s.procs && InHeap(s.fr.cfg, v)
    ensures WF(s') && HasPt(s', pid, v)
  {
    var d := s.procs[pid].pd;
    s.(pt := s.pt[g := seq(NENTRIES, _ => ABSENT_PTE)],
       pd := s.pd[d := s.pd[d][PdIdx(s.fr.cfg, v) := Pde(true, true, g)]])
  }

  /** The scenarios for a page whose old frame is in E2. */
  ghost function FetchPage(s: Pg, pid: int, v: int): (p: (Pg, bool))
    requires WF(s) && HasPt(s, pid, v) && InTable(s.fr.cfg, PteOf(s, pid, v).base)
    ensures WF(p.0) && p.0.fr.cfg == s.fr.cfg && p.0.procs == s.procs && p.0.pd == s.pd
  {
    if HasFree(s.fr, E1) then Restore(s, pid, v)
    else if HasFree(s.fr, E2) then
      var s1 := Evict(s).0;
      if InTable(s.fr.cfg, PteOf(s1, pid, v).base) then Restore(s1, pid, v) else (s1, false)
    else Swap(s, pid, v)
  }

  /** The scenarios for a page without a frame, once E1 or E2 has room. */
  ghost function FreshPage(s: Pg, pid: int, v: int): (p: (Pg, int))
    requires WF(s) && HasPt(s, pid, v)
    ensures WF(p.0) && p.0.fr.cfg == s.fr.cfg && p.0.procs == s.procs && p.0.pd == s.pd && HasPt(p.0, pid, v)
  {
    MapFree(if HasFree(s.fr, E1) then s else Evict(s).0, pid, v)
  }

  ghost function SetAlloc(s: Pg, pid: int, v: int, b: bool): (s': Pg)
    requires WF(s) && pid in s.procs && InHeap(s.fr.cfg, v)
    ensures WF(s') && s'.fr == s.fr
  {
    s.(procs := s.procs[pid := s.procs[pid].(alloc := s.procs[pid].alloc[v := b])])
  }

  /** Every process has the directory it had. */
  ghost predicate SameDirs(s: Pg, s': Pg) {
    s'.pd == s.pd && forall q :: q in s.procs && q in s'.procs ==> s'.procs[q].pd == s.procs[q].pd
  }

  /** The body of the loop of __set_pages_deallocated. */
  ghost function UnmapPage(s: Pg, pid: int, v: int): (s': Pg)
    requires WF(s) && HasPt(s, pid, v)
    ensures WF(s') && s'.fr.cfg == s.fr.cfg && s'.procs.Keys == s.procs.Keys && SameDirs(s, s')
      && (forall q, w :: HasPt(s', q, w) <==> HasPt(s, q, w))
  {
    var s1 := SetAlloc(s, pid, v, false);
    var e := PteOf(s, pid, v);
    if e.pres || e.swap then
      var s2 := SetPte(s1, PteRef(s, pid, v), e.(pres := false, swap := false));
      if InTable(s.fr.cfg, e.base) then SetFrames(s2, Free(s2.fr, e.base).0) else s2
    else s1
  }

  /** The loop of __set_pages_deallocated over the pages v .. v + n. */
  ghost function UnmapPages(s: Pg, pid: int, v: int, n: nat): (s': Pg)
    requires WF(s) && forall w :: v <= w < v + n ==> HasPt(s, pid, w)
    ensures WF(s') && s'.fr.cfg == s.fr.cfg && s'.procs.Keys == s.procs.Keys && SameDirs(s, s')
    decreases n
  {
    if n == 0 then s else UnmapPages(UnmapPage(s, pid, v), pid, v + 1, n - 1)
  }

  /** A freed block of n pages; `skip` spares its first page, which becomes a list node. */
  ghost function ReleasePages(s: Pg, pid: int, v: int, n: nat, skip: bool): (s': Pg)
    requires WF(s) && n > 0 && forall w :: v <= w < v + n ==> HasPt(s, pid, w)
    ensures WF(s') && s'.fr.cfg == s.fr.cfg && s'.procs.Keys == s.procs.Keys && SameDirs(s, s')
  {
    if skip then UnmapPages(s, pid, v + 1, n - 1) else UnmapPages(s, pid, v, n)
  }

  /** The loop of kill over the inverted page table, from frame g on. */
  ghost function FreeOwned(fr: FrameSt, pid: int, g: int): (fr': FrameSt)
    requires Shape(fr) && fr.cfg.d0 <= g <= fr.cfg.f
    ensures Shape(fr') && fr'.cfg == fr.cfg
    decreases fr.cfg.f - g
  {
    if g == fr.cfg.f then fr
    else FreeOwned(if fr.ent[g].pid == pid && fr.ent[g].used then Free(fr, g).0 else fr, pid, g + 1)
  }

  /** The process and the frames it owns are gone. */
  ghost function Reap(s: Pg, pid: int): (s': Pg)
    requires WF(s)
    ensures WF(s') && s'.fr.cfg == s.fr.cfg
  {
    SetFrames(s, FreeOwned(s.fr, pid, s.fr.cfg.d0)).(procs := s.procs - {pid})
  }

  /** What newpd writes: the shared page tables, and nothing else. */
  function NewDir(c: Cfg): (d: seq<Pde>)
    requires ValidCfg(c)
    ensures |d| == NENTRIES && SharesTables(c, d)
  {
    seq(NENTRIES, i => if 0 <= i < 4 then Pde(true, false, c.shared[i])
                       else if i == REGION_G_PD then Pde(true, false, c.shared[4]) else ABSENT_PDE)
  }

  /** The entries for the regions A to E2 and for G. */
  predicate SharesTables(c: Cfg, d: seq<Pde>) {
    && |c.shared| == 5 && |d| == NENTRIES
    && (forall i :: 0 <= i < 4 ==> d[i] == Pde(true, false, c.shared[i]))
    && d[REGION_G_PD] == Pde(true, false, c.shared[4])
  }

  /** newpd for a process that create is setting up, with the table entry create fills in. */
  ghost function Spawn(s: Pg, pid: int): (p: (Pg, bool))
    requires WF(s)
    ensures WF(p.0) && p.0.fr.cfg == s.fr.cfg
  {
    var (fr', g) := TakeD(s.fr, pid);
    var s1 := SetFrames(s, fr');
    if g == SYSERR then (s1, false) else (AddProc(s1, pid, g), true)
  }

  /** A process with directory g and an empty heap. */
  ghost function AddProc(s: Pg, pid: int, g: int): (s': Pg)
    requires WF(s)
    ensures WF(s') && s'.fr == s.fr
  {
    s.(pd := s.pd[g := NewDir(s.fr.cfg)], procs := s.procs[pid := Proc(g, seq(s.fr.cfg.heap, _ => false))])
  }

  /** A store by the process to a byte of a present page. */
  ghost function Store(s: Pg, pid: int, v: int, off: int, b: byte): (s': Pg)
    requires WF(s) && HasPt(s, pid, v) && 0 <= off < NBPG && 0 <= PteOf(s, pid, v).base < s.fr.cfg.f
    ensures WF(s') && s'.fr.cfg == s.fr.cfg
  {
    var g := PteOf(s, pid, v).base;
    SetFrame(s, g, FrameBytes(s, g)[off := b])
  }
}
