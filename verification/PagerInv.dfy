/** The tables invariant of the pager and what each fault primitive does to it and to the
    bytes of the heap pages. */
module PagerInv {
  import opened Kernel
  import opened Seqs
  import opened Bytes
  import opened Frames
  import opened Pager

  /** g is a frame of region r in use for pid, with p as its page table entry. */
  ghost predicate Backed(s: Pg, g: int, r: Region, pid: int, p: PtePtr)
    requires WF(s)
  {
    InRegion(s.fr.cfg, r, g) && IsUsed(s.fr, g) && s.fr.ent[g].pid == pid && s.fr.ent[g].pte == p
  }

  /** The page directory and the page table of every process are D frames taken for it, and the
      directory has the shared page tables. */
  ghost predicate TablesOk(s: Pg, pid: int)
    requires WF(s)
  {
    pid in s.procs ==>
      && Backed(s, s.procs[pid].pd, D, pid, Unused) && SharesTables(s.fr.cfg, s.pd[s.procs[pid].pd])
      && (forall v :: HasPt(s, pid, v) ==> Backed(s, PdeOf(s, pid, v).base, D, pid, Unused))
  }

  ghost predicate Mapped(s: Pg, pid: int, v: int)
    requires WF(s)
  {
    HasPt(s, pid, v) && (PteOf(s, pid, v).pres || PteOf(s, pid, v).swap)
  }

  /** A present entry names an E1 frame whose inverted entry points back, a swapped entry an E2
      frame likewise, and both only for a page marked allocated. */
  ghost predicate PageOk(s: Pg, pid: int, v: int)
    requires WF(s)
  {
    Mapped(s, pid, v) ==>
      var e := PteOf(s, pid, v);
      && s.procs[pid].alloc[v]
      && e.pres != e.swap
      && Backed(s, e.base, if e.pres then E1 else E2, pid, PteRef(s, pid, v))
  }

  /** A used E1 or E2 frame backs the page that its inverted entry points to. */
  ghost predicate FrameOk(s: Pg, g: int)
    requires WF(s)
  {
    IsUsed(s.fr, g) && !InRegion(s.fr.cfg, D, g) ==>
      var e := s.fr.ent[g];
      && e.pte.At? && HasPt(s, e.pid, e.pte.idx)
      && e.pte == PteRef(s, e.pid, e.pte.idx)
      && var p := PteOf(s, e.pid, e.pte.idx);
         p.base == g && p.pres == InRegion(s.fr.cfg, E1, g) && p.swap == InRegion(s.fr.cfg, E2, g)
  }

  /** The invariant, except that the frames in `orphans` back no page and that the entries of
      the pages in `holes` are out of date. */
  ghost predicate Core(s: Pg, orphans: set<int>, holes: set<(int, int)>) {
    && WF(s) && InvF(s.fr)
    && (forall pid :: TablesOk(s, pid))
    && (forall pid, v :: (pid, v) !in holes ==> PageOk(s, pid, v))
    && (forall g :: g !in orphans ==> FrameOk(s, g))
  }

  ghost predicate Inv(s: Pg) { Core(s, {}, {}) }

  /** What the process sees in its page, wherever the page is. */
  ghost function PageBytes(s: Pg, pid: int, v: int): seq<byte>
    requires WF(s) && Mapped(s, pid, v)
  {
    FrameBytes(s, PteOf(s, pid, v).base)
  }

  ghost predicate SamePage(s: Pg, s': Pg, pid: int, v: int)
    requires WF(s) && WF(s')
  {
    && (HasPt(s, pid, v) ==> HasPt(s', pid, v))
    && Mapped(s, pid, v) == Mapped(s', pid, v)
    && (Mapped(s, pid, v) ==> PageBytes(s, pid, v) == PageBytes(s', pid, v))
  }

  ghost predicate SameExcept(s: Pg, s': Pg, pid: int, v: int)
    requires WF(s) && WF(s')
  {
    forall q, w :: (q, w) != (pid, v) ==> SamePage(s, s', q, w)
  }

  /** The tables of every process stay good when its directory and its D frames do. */
  lemma TablesCarry(s: Pg, s': Pg)
    requires WF(s) && WF(s') && s'.fr.cfg == s.fr.cfg
    requires forall q :: q in s'.procs ==> q in s.procs && s'.procs[q].pd == s.procs[q].pd
    requires s'.pd == s.pd
    requires forall q, g :: q in s'.procs && Backed(s, g, D, q, Unused) ==> Backed(s', g, D, q, Unused)
    requires forall q :: TablesOk(s, q)
    ensures forall q :: TablesOk(s', q)
  {
    forall q ensures TablesOk(s', q) {
      assert TablesOk(s, q);
      forall v | HasPt(s', q, v) ensures Backed(s', PdeOf(s', q, v).base, D, q, Unused) {
        assert HasPt(s, q, v);
      }
    }
  }

  /** Two pages never share a page table entry, so they never share a frame. */
  lemma RefsDiffer(s: Pg, pid: int, v: int, q: int, w: int)
    requires WF(s) && TablesOk(s, pid) && TablesOk(s, q)
    requires HasPt(s, pid, v) && HasPt(s, q, w) && PteRef(s, pid, v) == PteRef(s, q, w)
    ensures pid == q && v == w
  {}

  lemma BasesDiffer(s: Pg, pid: int, v: int, q: int, w: int)
    requires WF(s) && TablesOk(s, pid) && TablesOk(s, q) && PageOk(s, pid, v) && PageOk(s, q, w)
    requires Mapped(s, pid, v) && Mapped(s, q, w) && (pid, v) != (q, w)
    ensures PteOf(s, pid, v).base != PteOf(s, q, w).base
  {
    if PteRef(s, pid, v) == PteRef(s, q, w) { RefsDiffer(s, pid, v, q, w); }
  }

  /** Free frames of E1 and E2 together. */
  ghost function Room(s: Pg): nat requires WF(s) { NFree(s.fr, E1) + NFree(s.fr, E2) }

  // ---- evictframe ----

  /** The state after an eviction, with every change spelled out. */
  ghost predicate Evicted(s: Pg, s': Pg, victim: int, dest: int)
    requires WF(s) && WF(s') && InTable(s.fr.cfg, victim)
  {
    var e := s.fr.ent[victim];
    && InRegion(s.fr.cfg, E1, victim) && IsUsed(s.fr, victim) && Points(s, e.pte)
    && InRegion(s.fr.cfg, E2, dest) && !IsUsed(s.fr, dest)
    && s'.procs == s.procs && s'.pd == s.pd && s'.fr.cfg == s.fr.cfg
    && s'.fr.ent == s.fr.ent[dest := Ent(e.pid, true, e.pte)][victim := e.(used := false)]
    && s'.pt == SetPte(s, e.pte, Pte(false, false, true, dest)).pt
    && s'.mem == SetBlock(s.mem, NBPG, dest, FrameBytes(s, victim))
    && InvF(s'.fr)
  }

  lemma WithoutHead(s: seq<int>)
    requires s != []
    ensures Without(s, s[0]) == s[1..]
  {}

  lemma EvictShape(s: Pg, holes: set<(int, int)>)
    requires Core(s, {}, holes) && s.fr.fifo != [] && HasFree(s.fr, E2)
    requires s.fr.free[E2][0] < s.fr.cfg.limit
    ensures InRegion(s.fr.cfg, E1, s.fr.fifo[0])
    ensures Evict(s).1 && Evicted(s, Evict(s).0, s.fr.fifo[0], s.fr.free[E2][0])
    ensures Evict(s).0.fr.free == s.fr.free[E1 := [s.fr.fifo[0]] + s.fr.free[E1]][E2 := s.fr.free[E2][1..]]
    ensures Evict(s).0.fr.fifo == s.fr.fifo[1..]
  {
    hide PageOk, TablesOk, Alloc, Free, SetBlock, Block, InvF, PteOf;
    EvictFrames(s.fr);
    assert FrameOk(s, s.fr.fifo[0]);
  }

  /** What the two calls of evictframe do to the frames. */
  lemma EvictFrames(st: FrameSt)
    requires InvF(st) && st.fifo != [] && HasFree(st, E2) && st.free[E2][0] < st.cfg.limit
    ensures var victim := st.fifo[0];
      && InRegion(st.cfg, E1, victim) && IsUsed(st, victim) && InTable(st.cfg, victim)
      && var (fr1, dest) := Alloc(st, E2, st.ent[victim].pid, st.ent[victim].pte);
         && dest == st.free[E2][0] && InRegion(st.cfg, E2, dest) && !IsUsed(st, dest) && fr1.cfg == st.cfg
         && var fr2 := Free(fr1, victim).0;
            && InvF(fr2) && fr2.cfg == st.cfg && fr2.fifo == st.fifo[1..]
            && fr2.ent == st.ent[dest := Ent(st.ent[victim].pid, true, st.ent[victim].pte)]
                                [victim := st.ent[victim].(used := false)]
            && fr2.free == st.free[E1 := [victim] + st.free[E1]][E2 := st.free[E2][1..]]
  {
    hide Lists, Alloc, Free, AllIn, Without;
    FifoHead(st);
    var victim := st.fifo[0];
    AllocKeeps(st, E2, st.ent[victim].pid, st.ent[victim].pte);
    FreeKeeps(Alloc(st, E2, st.ent[victim].pid, st.ent[victim].pte).0, victim);
    WithoutHead(st.fifo);
  }

  lemma EvictPage(s: Pg, s': Pg, victim: int, dest: int, holes: set<(int, int)>, q: int, w: int)
    requires Core(s, {}, holes) && WF(s') && InTable(s.fr.cfg, victim) && Evicted(s, s', victim, dest)
    requires (q, w) !in holes
    ensures PageOk(s', q, w) && SamePage(s, s', q, w)
  {
    hide TablesOk, Lists, SetBlock;
    var e := s.fr.ent[victim];
    assert FrameOk(s, victim) && PageOk(s, q, w);
    assert HasPt(s, q, w) == HasPt(s', q, w);
    if HasPt(s, q, w) {
      assert TablesOk(s, q) && TablesOk(s, e.pid);
      if Mapped(s, q, w) { SetBlockBlocks(s.mem, NBPG, dest, FrameBytes(s, victim), PteOf(s', q, w).base); }
      if PteRef(s, q, w) == e.pte { RefsDiffer(s, q, w, e.pid, e.pte.idx); }
    }
  }

  lemma EvictFrame(s: Pg, s': Pg, victim: int, dest: int, holes: set<(int, int)>, g: int)
    requires Core(s, {}, holes) && WF(s') && InTable(s.fr.cfg, victim) && Evicted(s, s', victim, dest)
    ensures FrameOk(s', g)
  {
    assert FrameOk(s, g) && FrameOk(s, victim);
  }

  lemma EvictKeeps(s: Pg, holes: set<(int, int)>)
    requires Core(s, {}, holes) && s.fr.fifo != [] && HasFree(s.fr, E2)
    requires s.fr.free[E2][0] < s.fr.cfg.limit
    ensures Core(Evict(s).0, {}, holes) && Evict(s).0.procs == s.procs
    ensures Room(Evict(s).0) == Room(s) && HasFree(Evict(s).0.fr, E1)
    ensures forall q, w :: (q, w) !in holes ==> SamePage(s, Evict(s).0, q, w)
  {
    hide Evict, WF, Lists;
    EvictShape(s, holes);
    var s' := Evict(s).0;
    var victim, dest := s.fr.fifo[0], s.fr.free[E2][0];
    forall q, w | (q, w) !in holes ensures PageOk(s', q, w) && SamePage(s, s', q, w) {
      EvictPage(s, s', victim, dest, holes, q, w);
    }
    forall g ensures FrameOk(s', g) { EvictFrame(s, s', victim, dest, holes, g); }
    TablesCarry(s, s');
  }

  // ---- mapfreeframe ----

  /** No frame claims to back page v of pid. */
  ghost predicate Unbacked(s: Pg, pid: int, v: int)
    requires WF(s) && HasPt(s, pid, v)
  {
    forall g :: IsUsed(s.fr, g) && !InRegion(s.fr.cfg, D, g) ==> s.fr.ent[g].pte != PteRef(s, pid, v)
  }

  ghost predicate MappedTo(s: Pg, s': Pg, pid: int, v: int, g: int)
    requires WF(s) && WF(s') && HasPt(s, pid, v)
  {
    var ref := PteRef(s, pid, v);
    && InRegion(s.fr.cfg, E1, g) && !IsUsed(s.fr, g)
    && s'.procs == s.procs && s'.pd == s.pd && s'.mem == s.mem && s'.fr.cfg == s.fr.cfg
    && s'.fr.ent == s.fr.ent[g := Ent(pid, true, ref)]
    && s'.pt == SetPte(s, ref, Pte(true, true, false, g)).pt
    && InvF(s'.fr)
  }

  lemma MapShape(s: Pg, pid: int, v: int)
    requires WF(s) && InvF(s.fr) && HasPt(s, pid, v) && HasFree(s.fr, E1) && s.fr.free[E1][0] < s.fr.cfg.limit
    ensures var (s', g) := MapFree(s, pid, v);
      && g == s.fr.free[E1][0] && g != SYSERR && MappedTo(s, s', pid, v, g)
      && s'.fr.free == s.fr.free[E1 := s.fr.free[E1][1..]] && s'.fr.fifo == s.fr.fifo + [g]
  {
    AllocKeeps(s.fr, E1, pid, PteRef(s, pid, v));
  }

  lemma MapPage(s: Pg, s': Pg, pid: int, v: int, g: int, holes: set<(int, int)>, q: int, w: int)
    requires WF(s) && WF(s') && HasPt(s, pid, v) && MappedTo(s, s', pid, v, g)
    requires Core(s, {}, holes) && s.procs[pid].alloc[v]
    requires (q, w) !in holes || (q, w) == (pid, v)
    ensures PageOk(s', q, w)
    ensures (q, w) != (pid, v) ==> SamePage(s, s', q, w)
  {
    assert HasPt(s, q, w) == HasPt(s', q, w);
    assert TablesOk(s, q) && TablesOk(s, pid);
    if HasPt(s, q, w) && (q, w) != (pid, v) {
      assert PageOk(s, q, w);
      if PteRef(s, q, w) == PteRef(s, pid, v) { RefsDiffer(s, q, w, pid, v); }
    }
  }

  /** Every page of every process is as it was, and so is the number of free frames. */
  ghost predicate Kept(s: Pg, s': Pg)
    requires WF(s)
  {
    && Inv(s') && s'.procs == s.procs && s'.fr.cfg == s.fr.cfg && Room(s') == Room(s)
    && (forall q, w :: SamePage(s, s', q, w))
  }

  lemma KeptTrans(s: Pg, s1: Pg, s2: Pg)
    requires WF(s) && Kept(s, s1) && Kept(s1, s2)
    ensures Kept(s, s2)
  {
    hide FrameOk, TablesOk, InvF, PageOk;
    forall q, w ensures SamePage(s, s2, q, w) {
      assert SamePage(s, s1, q, w) && SamePage(s1, s2, q, w);
    }
  }

  /** Without holes: eviction keeps every page, and the entry of a page in E2. */
  lemma EvictKept(s: Pg)
    requires Inv(s) && s.fr.fifo != [] && HasFree(s.fr, E2) && s.fr.free[E2][0] < s.fr.cfg.limit
    ensures Evict(s).1 && Kept(s, Evict(s).0) && HasFree(Evict(s).0.fr, E1)
    ensures forall q, w :: HasPt(s, q, w) ==> HasPt(Evict(s).0, q, w)
    ensures forall q, w :: HasPt(s, q, w) && !PteOf(s, q, w).pres ==> PteOf(Evict(s).0, q, w) == PteOf(s, q, w)
  {
    hide Evict, InvF;
    EvictKeeps(s, {});
    EvictShape(s, {});
    assert FrameOk(s, s.fr.fifo[0]);
  }

  /** The frames left without a page when the entry of page v is overwritten. */
  ghost function Dropped(s: Pg, pid: int, v: int): set<int>
    requires WF(s)
  {
    if Mapped(s, pid, v) then {PteOf(s, pid, v).base} else {}
  }

  lemma MapKeeps(s: Pg, pid: int, v: int, holes: set<(int, int)>)
    requires Core(s, {}, holes) && HasPt(s, pid, v) && HasFree(s.fr, E1) && s.fr.free[E1][0] < s.fr.cfg.limit
    requires s.procs[pid].alloc[v]
    requires (pid, v) in holes ==> Unbacked(s, pid, v)
    ensures var (s', g) := MapFree(s, pid, v);
      && g == s.fr.free[E1][0] && g != SYSERR && s'.procs == s.procs && s'.mem == s.mem
      && Core(s', if (pid, v) in holes then {} else Dropped(s, pid, v), holes - {(pid, v)})
      && PteOf(s', pid, v) == Pte(true, true, false, g)
      && s'.fr.free == s.fr.free[E1 := s.fr.free[E1][1..]]
      && s'.fr.ent == s.fr.ent[g := Ent(pid, true, PteRef(s, pid, v))]
      && forall q, w :: (q, w) !in holes && (q, w) != (pid, v) ==> SamePage(s, s', q, w)
  {
    hide Lists, Alloc, PageOk;
    MapShape(s, pid, v);
    var (s', g) := MapFree(s, pid, v);
    var orphans := if (pid, v) in holes then {} else Dropped(s, pid, v);
    forall q, w | (q, w) !in holes - {(pid, v)} ensures PageOk(s', q, w) {
      MapPage(s, s', pid, v, g, holes, q, w);
    }
    forall q, w | (q, w) !in holes && (q, w) != (pid, v) ensures SamePage(s, s', q, w) {
      MapPage(s, s', pid, v, g, holes, q, w);
    }
    forall x | x !in orphans ensures FrameOk(s', x) {
      assert FrameOk(s, x);
    }
    TablesCarry(s, s');
  }

  // ---- restoreframe ----

  /** Giving back a frame that backs no page. */
  lemma FreeOrphan(s: Pg, g: int, holes: set<(int, int)>)
    requires Core(s, {g}, holes) && InTable(s.fr.cfg, g) && !InRegion(s.fr.cfg, D, g)
    requires forall q, w :: (q, w) !in holes && Mapped(s, q, w) ==> PteOf(s, q, w).base != g
    ensures Free(s.fr, g).1
    ensures Core(SetFrames(s, Free(s.fr, g).0), {}, holes)
    ensures IsUsed(s.fr, g) ==> Room(SetFrames(s, Free(s.fr, g).0)) == Room(s) + 1
    ensures forall q, w :: SamePage(s, SetFrames(s, Free(s.fr, g).0), q, w)
  {
    hide Lists, WF, InRegion;
    FreeKeeps(s.fr, g);
    var s' := SetFrames(s, Free(s.fr, g).0);
    forall q, w ensures SamePage(s, s', q, w) {
      assert HasPt(s, q, w) == HasPt(s', q, w);
    }
    forall q, w | (q, w) !in holes ensures PageOk(s', q, w) {
      assert PageOk(s, q, w) && SamePage(s, s', q, w);
    }
    forall x ensures FrameOk(s', x) { if x != g { assert FrameOk(s, x); } }
    TablesCarry(s, s');
  }

  /** s' has the pages of s, at the same frames, with b in frame g. */
  ghost predicate Rewritten(s: Pg, s': Pg, g: int, b: seq<byte>, q: int, w: int)
    requires WF(s) && WF(s')
  {
    && (HasPt(s, q, w) ==> HasPt(s', q, w))
    && Mapped(s, q, w) == Mapped(s', q, w)
    && (Mapped(s, q, w) ==>
          && PteOf(s', q, w) == PteOf(s, q, w)
          && PageBytes(s', q, w) == if PteOf(s, q, w).base == g then b else PageBytes(s, q, w))
  }

  /** Replacing the bytes of a frame changes the page it backs and no other. */
  lemma SetFrameKeeps(s: Pg, g: int, b: seq<byte>, orphans: set<int>, holes: set<(int, int)>)
    requires Core(s, orphans, holes) && 0 <= g < s.fr.cfg.f && |b| == NBPG
    ensures Core(SetFrame(s, g, b), orphans, holes)
    ensures forall q, w :: Rewritten(s, SetFrame(s, g, b), g, b, q, w)
  {
    var s' := SetFrame(s, g, b);
    forall q, w ensures Rewritten(s, s', g, b, q, w) {
      assert HasPt(s, q, w) == HasPt(s', q, w);
      if Mapped(s, q, w) { SetBlockBlocks(s.mem, NBPG, g, b, PteOf(s, q, w).base); }
    }
    forall q, w | (q, w) !in holes ensures PageOk(s', q, w) {
      assert PageOk(s, q, w) && Rewritten(s, s', g, b, q, w);
    }
    forall x | x !in orphans ensures FrameOk(s', x) { assert FrameOk(s, x); }
    TablesCarry(s, s');
  }

  /** Writing the frame of a mapped page changes that page and no other. */
  lemma FillPage(s: Pg, pid: int, v: int, b: seq<byte>, orphans: set<int>)
    requires Core(s, orphans, {}) && Mapped(s, pid, v) && |b| == NBPG
    ensures 0 <= PteOf(s, pid, v).base < s.fr.cfg.f
    ensures var s' := SetFrame(s, PteOf(s, pid, v).base, b);
      && Core(s', orphans, {}) && SameExcept(s, s', pid, v) && HasPt(s', pid, v)
      && PteOf(s', pid, v) == PteOf(s, pid, v) && PageBytes(s', pid, v) == b
  {
    assert PageOk(s, pid, v);
    var g := PteOf(s, pid, v).base;
    SetFrameKeeps(s, g, b, orphans, {});
    var s' := SetFrame(s, g, b);
    assert Rewritten(s, s', g, b, pid, v);
    forall q, w | (q, w) != (pid, v) ensures SamePage(s, s', q, w) {
      assert Rewritten(s, s', g, b, q, w);
      assert PageOk(s, q, w) && TablesOk(s, q) && TablesOk(s, pid);
      if Mapped(s, q, w) { BasesDiffer(s, pid, v, q, w); }
    }
  }

  lemma SameTrans(s: Pg, s1: Pg, s2: Pg, pid: int, v: int)
    requires WF(s) && WF(s1) && WF(s2) && SameExcept(s, s1, pid, v) && SameExcept(s1, s2, pid, v)
    ensures SameExcept(s, s2, pid, v)
  {
    forall q, w | (q, w) != (pid, v) ensures SamePage(s, s2, q, w) {
      assert SamePage(s, s1, q, w) && SamePage(s1, s2, q, w);
    }
  }

  /** After the new E1 frame is mapped and filled, no page is at the old E2 frame. */
  lemma OldFrameIsOrphan(s: Pg, s2: Pg, pid: int, v: int, src: int)
    requires Core(s2, {src}, {}) && Mapped(s2, pid, v) && PteOf(s2, pid, v).base != src
    requires IsUsed(s2.fr, src) && s2.fr.ent[src].pte == PteRef(s2, pid, v)
    ensures forall q, w :: Mapped(s2, q, w) ==> PteOf(s2, q, w).base != src
  {
    forall q, w | Mapped(s2, q, w) ensures PteOf(s2, q, w).base != src {
      assert PageOk(s2, q, w) && TablesOk(s2, q) && TablesOk(s2, pid);
      if PteRef(s2, q, w) == PteRef(s2, pid, v) { RefsDiffer(s2, pid, v, q, w); }
    }
  }

  /** restoreframe up to the point where the old E2 frame is given back. */
  lemma RestoreCopies(s: Pg, pid: int, v: int)
    requires Inv(s) && Mapped(s, pid, v) && PteOf(s, pid, v).swap
    requires HasFree(s.fr, E1) && s.fr.free[E1][0] < s.fr.cfg.limit
    ensures InRegion(s.fr.cfg, E2, PteOf(s, pid, v).base) && InRegion(s.fr.cfg, E1, MapFree(s, pid, v).1)
    ensures var (src, s1) := (PteOf(s, pid, v).base, MapFree(s, pid, v).0);
      var s2 := SetFrame(s1, MapFree(s, pid, v).1, FrameBytes(s1, src));
      && Core(s2, {src}, {}) && SameExcept(s, s2, pid, v) && Mapped(s2, pid, v) && PteOf(s2, pid, v).pres
      && s2.procs == s.procs && PageBytes(s2, pid, v) == PageBytes(s, pid, v)
      && Room(s2) == Room(s) - 1 && IsUsed(s2.fr, src) && PteOf(s2, pid, v).base != src
      && s2.fr.ent[src].pte == PteRef(s2, pid, v)
  {
    assert PageOk(s, pid, v);
    MapKeeps(s, pid, v, {});
    var src := PteOf(s, pid, v).base;
    var (s1, dest) := MapFree(s, pid, v);
    assert AllIn(s.fr.cfg, E1, s.fr.free[E1]);
    FillPage(s1, pid, v, FrameBytes(s1, src), {src});
    SameTrans(s, s1, SetFrame(s1, dest, FrameBytes(s1, src)), pid, v);
  }

  lemma RestoreKeeps(s: Pg, pid: int, v: int)
    requires Inv(s) && Mapped(s, pid, v) && PteOf(s, pid, v).swap
    requires HasFree(s.fr, E1) && s.fr.free[E1][0] < s.fr.cfg.limit
    ensures InTable(s.fr.cfg, PteOf(s, pid, v).base)
    ensures Restore(s, pid, v).1 && Kept(s, Restore(s, pid, v).0)
    ensures HasPt(Restore(s, pid, v).0, pid, v) && PteOf(Restore(s, pid, v).0, pid, v).pres
  {
    hide FrameOk, TablesOk, InvF, PageOk;
    RestoreCopies(s, pid, v);
    var (src, s1) := (PteOf(s, pid, v).base, MapFree(s, pid, v).0);
    var s2 := SetFrame(s1, MapFree(s, pid, v).1, FrameBytes(s1, src));
    OldFrameIsOrphan(s, s2, pid, v, src);
    FreeOrphan(s2, src, {});
    forall q, w ensures SamePage(s, Restore(s, pid, v).0, q, w) {
      assert (q, w) == (pid, v) || SamePage(s, s2, q, w);
    }
  }

  // ---- swapframe ----

  /** Giving back the E2 frame of a swapped page leaves that page's entry dangling, only that. */
  lemma FreeSwapped(s: Pg, pid: int, v: int)
    requires Inv(s) && Mapped(s, pid, v) && PteOf(s, pid, v).swap
    ensures InRegion(s.fr.cfg, E2, PteOf(s, pid, v).base)
    ensures var s1 := SetFrames(s, Free(s.fr, PteOf(s, pid, v).base).0);
      && Core(s1, {}, {(pid, v)}) && Unbacked(s1, pid, v) && SameExcept(s, s1, pid, v)
      && s1.fr.free == s.fr.free[E2 := [PteOf(s, pid, v).base] + s.fr.free[E2]]
      && s1.fr.fifo == s.fr.fifo
  {
    assert PageOk(s, pid, v);
    var src := PteOf(s, pid, v).base;
    FreeKeeps(s.fr, src);
    var s1 := SetFrames(s, Free(s.fr, src).0);
    TablesCarry(s, s1);
    forall g | IsUsed(s1.fr, g) && !InRegion(s.fr.cfg, D, g)
      ensures s1.fr.ent[g].pte != PteRef(s1, pid, v) {
      assert FrameOk(s, g);
    }
    forall q, w | (q, w) != (pid, v) ensures SamePage(s, s1, q, w) && PageOk(s1, q, w) {
      assert HasPt(s, q, w) == HasPt(s1, q, w) && PageOk(s, q, w);
      if Mapped(s, q, w) { BasesDiffer(s, pid, v, q, w); }
    }
    forall x ensures FrameOk(s1, x) { assert FrameOk(s, x); }
  }

  lemma SwapEvicts(s: Pg, pid: int, v: int)
    requires Core(s, {}, {(pid, v)}) && HasPt(s, pid, v) && Unbacked(s, pid, v)
    requires s.fr.fifo != [] && HasFree(s.fr, E2) && s.fr.free[E2][0] < s.fr.cfg.limit
    ensures Evict(s).1 && HasPt(Evict(s).0, pid, v) && Unbacked(Evict(s).0, pid, v)
    ensures Evict(s).0.fr.free == s.fr.free[E1 := [s.fr.fifo[0]] + s.fr.free[E1]][E2 := s.fr.free[E2][1..]]
  {
    EvictShape(s, {(pid, v)});
  }

  /** The frame that swapframe gives back, and evicts to, has been taken before. */
  lemma SwappedBelow(s: Pg, pid: int, v: int)
    requires Inv(s) && Mapped(s, pid, v) && PteOf(s, pid, v).swap && Reach(s.fr)
    ensures PteOf(s, pid, v).base < s.fr.cfg.limit
  {
    assert PageOk(s, pid, v);
  }

  /** The first half of swapframe: the E2 frame is given back, a victim moves into E2, and E1
      has a free frame for page v, whose entry alone is out of date. */
  lemma SwapMakesRoom(s: Pg, pid: int, v: int)
    requires Inv(s) && Mapped(s, pid, v) && PteOf(s, pid, v).swap && Reach(s.fr)
    requires s.fr.fifo != []
    ensures InTable(s.fr.cfg, PteOf(s, pid, v).base)
    ensures var s2 := Evict(SetFrames(s, Free(s.fr, PteOf(s, pid, v).base).0)).0;
      && Core(s2, {}, {(pid, v)}) && s2.procs == s.procs && SameExcept(s, s2, pid, v)
      && HasPt(s2, pid, v) && Unbacked(s2, pid, v) && HasFree(s2.fr, E1)
      && |s2.fr.free[E1]| == |s.fr.free[E1]| + 1 && s2.fr.free[E2] == s.fr.free[E2]
  {
    hide FrameOk, TablesOk, Lists, PageOk;
    SwappedBelow(s, pid, v);
    FreeSwapped(s, pid, v);
    var s1 := SetFrames(s, Free(s.fr, PteOf(s, pid, v).base).0);
    EvictKeeps(s1, {(pid, v)});
    SwapEvicts(s1, pid, v);
    var s2 := Evict(s1).0;
    forall q, w | (q, w) != (pid, v) ensures SamePage(s, s2, q, w) {
      assert SamePage(s, s1, q, w) && SamePage(s1, s2, q, w);
    }
  }

  /** The second half: the free E1 frame is mapped and takes the saved bytes. */
  lemma SwapFills(s: Pg, pid: int, v: int, temp: seq<byte>)
    requires Core(s, {}, {(pid, v)}) && HasPt(s, pid, v) && Unbacked(s, pid, v) && Low(s.fr.cfg)
    requires HasFree(s.fr, E1) && s.procs[pid].alloc[v] && |temp| == NBPG
    ensures InRegion(s.fr.cfg, E1, MapFree(s, pid, v).1)
    ensures var s' := SetFrame(MapFree(s, pid, v).0, MapFree(s, pid, v).1, temp);
      && Inv(s') && SameExcept(s, s', pid, v) && s'.procs == s.procs && Room(s') == Room(s) - 1
      && HasPt(s', pid, v) && PteOf(s', pid, v).pres && PageBytes(s', pid, v) == temp
  {
    assert AllIn(s.fr.cfg, E1, s.fr.free[E1]);
    MapKeeps(s, pid, v, {(pid, v)});
    var (s3, g) := MapFree(s, pid, v);
    assert Inv(s3);
    FillPage(s3, pid, v, temp, {});
    SameTrans(s, s3, SetFrame(s3, g, temp), pid, v);
  }

  lemma SwapKeeps(s: Pg, pid: int, v: int)
    requires Inv(s) && Mapped(s, pid, v) && PteOf(s, pid, v).swap && Reach(s.fr)
    requires s.fr.fifo != []
    ensures InTable(s.fr.cfg, PteOf(s, pid, v).base)
    ensures Swap(s, pid, v).1 && Kept(s, Swap(s, pid, v).0)
    ensures HasPt(Swap(s, pid, v).0, pid, v) && PteOf(Swap(s, pid, v).0, pid, v).pres
  {
    hide FrameOk, TablesOk, Lists, Evict, Free, Alloc, MapFree, AllIn;
    SwapMakesRoom(s, pid, v);
    var temp := FrameBytes(s, PteOf(s, pid, v).base);
    var s2 := Evict(SetFrames(s, Free(s.fr, PteOf(s, pid, v).base).0)).0;
    assert PageOk(s, pid, v);
    SwapFills(s2, pid, v, temp);
    SameTrans(s, s2, Swap(s, pid, v).0, pid, v);
  }
}
