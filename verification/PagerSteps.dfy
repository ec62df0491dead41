/** What the fault scenarios, the release of heap pages, kill and process creation keep. */
module PagerSteps {
  import opened Kernel
  import opened Bytes
  import opened Frames
  import opened Pager
  import opened PagerInv

  /** newpt leaves every page of every process as it is. */
  lemma EnsurePtKeeps(s: Pg, pid: int, v: int)
    requires Inv(s) && pid in s.procs && InHeap(s.fr.cfg, v) && Low(s.fr.cfg)
    requires PdeOf(s, pid, v).pres || HasFree(s.fr, D)
    ensures EnsurePt(s, pid, v).1 && Inv(EnsurePt(s, pid, v).0)
    ensures forall q, w :: SamePage(s, EnsurePt(s, pid, v).0, q, w)
    ensures forall q, w :: HasPt(s, q, w) ==> PteOf(EnsurePt(s, pid, v).0, q, w) == PteOf(s, q, w)
    ensures forall r :: r != D ==> EnsurePt(s, pid, v).0.fr.free[r] == s.fr.free[r]
  {
    hide InvF, PageBytes, PdIdx;
    if !PdeOf(s, pid, v).pres {
      assert AllIn(s.fr.cfg, D, s.fr.free[D]);
      AllocKeeps(s.fr, D, pid, Unused);
      var s' := EnsurePt(s, pid, v).0;
      var g := s.fr.free[D][0];
      forall q ensures TablesOk(s', q) {
        assert TablesOk(s, q) && TablesOk(s, pid);
        forall w | HasPt(s', q, w) ensures Backed(s', PdeOf(s', q, w).base, D, q, Unused) {
          if q != pid { assert HasPt(s, q, w); }
        }
      }
      forall q, w ensures SamePage(s, s', q, w) && PageOk(s', q, w)
          && (HasPt(s, q, w) ==> PteOf(s', q, w) == PteOf(s, q, w)) {
        EnsurePtPage(s, s', pid, v, g, q, w);
      }
      forall x ensures FrameOk(s', x) {
        assert FrameOk(s, x);
        if IsUsed(s'.fr, x) && !InRegion(s.fr.cfg, D, x) {
          EnsurePtPage(s, s', pid, v, g, s.fr.ent[x].pid, s.fr.ent[x].pte.idx);
        }
      }
    }
  }

  lemma EnsurePtPage(s: Pg, s': Pg, pid: int, v: int, g: int, q: int, w: int)
    requires Inv(s) && WF(s') && pid in s.procs && InHeap(s.fr.cfg, v) && !PdeOf(s, pid, v).pres
    requires InRegion(s.fr.cfg, D, g) && !IsUsed(s.fr, g)
    requires Shape(s'.fr) && s'.fr.cfg == s.fr.cfg
    requires s' == SetTable(SetFrames(s, s'.fr), pid, v, g)
    requires s'.fr.ent == s.fr.ent[g := Ent(pid, true, Unused)]
    ensures SamePage(s, s', q, w) && PageOk(s', q, w)
    ensures HasPt(s, q, w) ==>
      HasPt(s', q, w) && PteRef(s', q, w) == PteRef(s, q, w) && PteOf(s', q, w) == PteOf(s, q, w)
  {
    assert PageOk(s, q, w) && TablesOk(s, pid) && TablesOk(s, q);
    if q in s.procs && q != pid { assert s.procs[q].pd != s.procs[pid].pd; }
    if HasPt(s, q, w) { assert PdeOf(s, q, w).base != g; }
  }

  /** A page in E2 is brought back with its bytes, whichever scenario applies. */
  lemma FetchKeeps(s: Pg, pid: int, v: int)
    requires Inv(s) && Mapped(s, pid, v) && PteOf(s, pid, v).swap && Reach(s.fr) && EvictFits(s.fr)
    ensures InTable(s.fr.cfg, PteOf(s, pid, v).base)
    ensures FetchPage(s, pid, v).1 && Kept(s, FetchPage(s, pid, v).0)
    ensures HasPt(FetchPage(s, pid, v).0, pid, v) && PteOf(FetchPage(s, pid, v).0, pid, v).pres
  {
    assert PageOk(s, pid, v);
    assert AllIn(s.fr.cfg, E1, s.fr.free[E1]) && AllIn(s.fr.cfg, E2, s.fr.free[E2]);
    if HasFree(s.fr, E1) {
      RestoreKeeps(s, pid, v);
    } else {
      FullHasVictim(s.fr);
      if HasFree(s.fr, E2) {
        EvictKept(s);
        var s1 := Evict(s).0;
        assert AllIn(s1.fr.cfg, E1, s1.fr.free[E1]);
        RestoreKeeps(s1, pid, v);
        KeptTrans(s, s1, Restore(s1, pid, v).0);
      } else {
        SwapKeeps(s, pid, v);
      }
    }
  }

  /** A fresh page gets an E1 frame; what it holds is what the frame held. Room drops by one. */
  lemma FreshKeeps(s: Pg, pid: int, v: int)
    requires Inv(s) && HasPt(s, pid, v) && !Mapped(s, pid, v) && s.procs[pid].alloc[v]
    requires Low(s.fr.cfg) && EvictFits(s.fr)
    requires HasFree(s.fr, E1) || HasFree(s.fr, E2)
    ensures var (s', g) := FreshPage(s, pid, v);
      && g != SYSERR && Inv(s') && s'.procs == s.procs && SameExcept(s, s', pid, v)
      && PteOf(s', pid, v).pres && Room(s') == Room(s) - 1
  {
    hide Lists, FrameOk, TablesOk, PageOk, WF, Alloc, Evict, HasPt, MapFree;
    assert AllIn(s.fr.cfg, E1, s.fr.free[E1]) && AllIn(s.fr.cfg, E2, s.fr.free[E2]);
    var s1 := if HasFree(s.fr, E1) then s else Evict(s).0;
    if !HasFree(s.fr, E1) {
      FullHasVictim(s.fr);
      EvictKept(s);
    }
    assert SamePage(s, s1, pid, v) && SameExcept(s, s1, pid, v);
    assert AllIn(s1.fr.cfg, E1, s1.fr.free[E1]);
    MapKeeps(s1, pid, v, {});
    SameTrans(s, s1, FreshPage(s, pid, v).0, pid, v);
  }

  // ---- releasing heap pages ----

  /** s' differs from s in the allocation mark and the entry of one page, and in that page's frame. */
  lemma UnmapKeeps(s: Pg, pid: int, v: int)
    requires Inv(s) && HasPt(s, pid, v)
    ensures var s' := UnmapPage(s, pid, v);
      && Inv(s') && SameExcept(s, s', pid, v) && !Mapped(s', pid, v)
      && s'.procs == s.procs[pid := s.procs[pid].(alloc := s.procs[pid].alloc[v := false])]
      && Room(s') == Room(s) + if Mapped(s, pid, v) then 1 else 0
  {
    hide FrameOk, Lists;
    assert PageOk(s, pid, v) && TablesOk(s, pid);
    var s' := UnmapPage(s, pid, v);
    if Mapped(s, pid, v) { FreeKeeps(s.fr, PteOf(s, pid, v).base); }
    forall q, w | (q, w) != (pid, v) ensures SamePage(s, s', q, w) && PageOk(s', q, w) {
      UnmapOther(s, pid, v, q, w);
    }
    assert PageOk(s', pid, v);
    forall x ensures FrameOk(s', x) { UnmapFrame(s, pid, v, x); }
    TablesCarry(s, s');
  }

  /** The tables after a page has been unmapped: but for its entry, its mark and its frame, as before. */
  ghost predicate OnlyUnmaps(s: Pg, s': Pg, pid: int, v: int)
    requires WF(s) && WF(s') && HasPt(s, pid, v)
  {
    && s'.mem == s.mem && s'.pd == s.pd && s'.fr.cfg == s.fr.cfg && s'.procs.Keys == s.procs.Keys
    && (forall q :: q in s.procs ==> s'.procs[q].pd == s.procs[q].pd)
    && (forall q, w :: q in s.procs && InHeap(s.fr.cfg, w) && (q, w) != (pid, v) ==>
          s'.procs[q].alloc[w] == s.procs[q].alloc[w])
    && (forall p :: Points(s, p) && p != PteRef(s, pid, v) ==> Points(s', p) && PteAt(s', p) == PteAt(s, p))
    && (forall g :: InTable(s.fr.cfg, g) && !(Mapped(s, pid, v) && g == PteOf(s, pid, v).base) ==>
          s'.fr.ent[g] == s.fr.ent[g])
  }

  lemma UnmapShape(s: Pg, pid: int, v: int)
    requires Inv(s) && HasPt(s, pid, v)
    ensures OnlyUnmaps(s, UnmapPage(s, pid, v), pid, v)
  {
    hide FrameOk, TablesOk, Lists, Hi;
    assert PageOk(s, pid, v);
    if Mapped(s, pid, v) { FreeKeeps(s.fr, PteOf(s, pid, v).base); }
  }

  lemma UnmapOther(s: Pg, pid: int, v: int, q: int, w: int)
    requires Inv(s) && HasPt(s, pid, v) && (q, w) != (pid, v)
    ensures SamePage(s, UnmapPage(s, pid, v), q, w) && PageOk(UnmapPage(s, pid, v), q, w)
    ensures HasPt(s, q, w) ==> PteOf(UnmapPage(s, pid, v), q, w) == PteOf(s, q, w)
  {
    hide FrameOk, InvF, Hi, UnmapPage;
    UnmapShape(s, pid, v);
    assert PageOk(s, pid, v) && TablesOk(s, pid) && PageOk(s, q, w) && TablesOk(s, q);
    if HasPt(s, q, w) {
      if PteRef(s, q, w) == PteRef(s, pid, v) { RefsDiffer(s, pid, v, q, w); }
      if Mapped(s, pid, v) && Mapped(s, q, w) { BasesDiffer(s, pid, v, q, w); }
    }
  }

  lemma UnmapFrame(s: Pg, pid: int, v: int, x: int)
    requires Inv(s) && HasPt(s, pid, v)
    ensures FrameOk(UnmapPage(s, pid, v), x)
  {
    hide InvF, InRegion;
    assert PageOk(s, pid, v) && FrameOk(s, x);
    if Mapped(s, pid, v) { FreeKeeps(s.fr, PteOf(s, pid, v).base); }
    if IsUsed(s.fr, x) && !InRegion(s.fr.cfg, D, x) {
      var e := s.fr.ent[x];
      if (e.pid, e.pte.idx) != (pid, v) { UnmapOther(s, pid, v, e.pid, e.pte.idx); }
    }
  }

  /** s' is s without exactly the pages v .. v + n of pid. */
  ghost predicate ReleasedTo(s: Pg, s': Pg, pid: int, v: int, n: int)
    requires WF(s) && WF(s')
  {
    && s'.procs.Keys == s.procs.Keys && s'.fr.cfg == s.fr.cfg
    && (forall q :: q in s.procs && q != pid ==> s'.procs[q] == s.procs[q])
    && (forall w :: pid in s.procs && InHeap(s.fr.cfg, w) ==>
          s'.procs[pid].alloc[w] == (s.procs[pid].alloc[w] && !(v <= w < v + n)))
    && (forall q, w :: HasPt(s', q, w) <==> HasPt(s, q, w))
    && (forall q, w :: !(q == pid && v <= w < v + n) ==> SamePage(s, s', q, w))
    && (forall w :: v <= w < v + n ==> !Mapped(s', pid, w))
  }

  lemma ReleaseOne(s: Pg, pid: int, v: int)
    requires Inv(s) && HasPt(s, pid, v)
    ensures Inv(UnmapPage(s, pid, v)) && Room(UnmapPage(s, pid, v)) >= Room(s)
    ensures ReleasedTo(s, UnmapPage(s, pid, v), pid, v, 1)
  {
    UnmapKeeps(s, pid, v);
    forall q, w | !(q == pid && v <= w < v + 1) ensures SamePage(s, UnmapPage(s, pid, v), q, w) {
      assert (q, w) != (pid, v);
    }
  }

  lemma ReleaseMore(s: Pg, s1: Pg, s': Pg, pid: int, v: int, n: nat)
    requires WF(s) && WF(s1) && WF(s') && n > 0
    requires ReleasedTo(s, s1, pid, v, 1) && ReleasedTo(s1, s', pid, v + 1, n - 1)
    ensures ReleasedTo(s, s', pid, v, n)
  {
    forall q, w | !(q == pid && v <= w < v + n) ensures SamePage(s, s', q, w) {
      assert SamePage(s, s1, q, w) && SamePage(s1, s', q, w);
    }
    forall w | v <= w < v + n ensures !Mapped(s', pid, w) {
      if w == v { assert SamePage(s1, s', pid, v); }
    }
  }

  /** The loop takes away exactly the pages it names, of that process only. */
  lemma {:induction false} UnmapAllKeeps(s: Pg, pid: int, v: int, n: nat)
    requires Inv(s) && forall w :: v <= w < v + n ==> HasPt(s, pid, w)
    ensures var s' := UnmapPages(s, pid, v, n);
      Inv(s') && Room(s') >= Room(s) && ReleasedTo(s, s', pid, v, n)
    decreases n
  {
    hide UnmapPage, PageOk, FrameOk, TablesOk, InvF, Mapped, HasPt, WF;
    if n > 0 {
      var s1 := UnmapPage(s, pid, v);
      ReleaseOne(s, pid, v);
      var s' := UnmapPages(s1, pid, v + 1, n - 1);
      assert UnmapPages(s, pid, v, n) == s';
      UnmapAllKeeps(s1, pid, v + 1, n - 1);
      ReleaseMore(s, s1, s', pid, v, n);
    }
  }

  // ---- kill ----

  /** The loop of kill frees the frames of pid from g on and touches no other. */
  lemma {:induction false} FreeOwnedKeeps(fr: FrameSt, pid: int, g: int)
    requires InvF(fr) && fr.cfg.d0 <= g <= fr.cfg.f
    ensures var fr' := FreeOwned(fr, pid, g);
      && InvF(fr')
      && (forall x :: InTable(fr.cfg, x) ==>
            fr'.ent[x] == if g <= x && fr.ent[x].pid == pid then fr.ent[x].(used := false) else fr.ent[x])
      && (forall r: Region :: |fr'.free[r]| >= |fr.free[r]|)
    decreases fr.cfg.f - g
  {
    hide Lists;
    if g < fr.cfg.f {
      FreeKeeps(fr, g);
      var fr1 := if fr.ent[g].pid == pid && fr.ent[g].used then Free(fr, g).0 else fr;
      FreeOwnedKeeps(fr1, pid, g + 1);
    }
  }

  /** Killing a process leaves the pages of every other process as they are. */
  lemma ReapKeeps(s: Pg, pid: int)
    requires Inv(s)
    ensures Inv(Reap(s, pid)) && Reap(s, pid).procs == s.procs - {pid} && Room(Reap(s, pid)) >= Room(s)
    ensures forall q, w :: q != pid ==> SamePage(s, Reap(s, pid), q, w)
    ensures forall w :: !Mapped(Reap(s, pid), pid, w)
  {
    FreeOwnedKeeps(s.fr, pid, s.fr.cfg.d0);
    var s' := Reap(s, pid);
    forall q, w ensures PageOk(s', q, w) && (q != pid ==> SamePage(s, s', q, w)) {
      assert PageOk(s, q, w);
      if q != pid { assert HasPt(s, q, w) == HasPt(s', q, w); }
    }
    forall x ensures FrameOk(s', x) { assert FrameOk(s, x); }
    forall q ensures TablesOk(s', q) {
      assert TablesOk(s, q);
      forall w | HasPt(s', q, w) ensures Backed(s', PdeOf(s', q, w).base, D, q, Unused) {
        assert HasPt(s, q, w);
      }
    }
  }

  /** Exactly the frames of the victim are given back, its page directory and page tables included. */
  lemma ReapFrees(s: Pg, pid: int)
    requires Inv(s)
    ensures forall g :: IsUsed(Reap(s, pid).fr, g) <==> IsUsed(s.fr, g) && s.fr.ent[g].pid != pid
    ensures pid in s.procs ==> s.procs[pid].pd in Reap(s, pid).fr.free[D]
  {
    hide FrameOk, PageOk, Lists, FreeOwned, AllIn;
    FreeOwnedKeeps(s.fr, pid, s.fr.cfg.d0);
    if pid in s.procs {
      assert TablesOk(s, pid);
      FreeIsListed(Reap(s, pid).fr, D, s.procs[pid].pd);
    }
  }

  lemma FreeIsListed(st: FrameSt, r: Region, g: int)
    requires InvF(st) && InRegion(st.cfg, r, g) && !IsUsed(st, g)
    ensures g in st.free[r]
  {
    assert Lists(st, st.free[r], r, false);
  }

  // ---- create and stores ----

  /** newpd has a directory for the new process exactly while region D has a free frame; create does not
      look at the result. */
  lemma SpawnExact(s: Pg, pid: int)
    requires Inv(s) && pid !in s.procs && Low(s.fr.cfg)
    ensures Spawn(s, pid).1 <==> HasFree(s.fr, D)
    ensures !HasFree(s.fr, D) ==> Spawn(s, pid).0 == s
  {
    hide PageOk, TablesOk, FrameOk, Lists, AllIn;
    if HasFree(s.fr, D) { SpawnKeeps(s, pid); }
  }

  lemma SpawnKeeps(s: Pg, pid: int)
    requires Inv(s) && pid !in s.procs && HasFree(s.fr, D) && Low(s.fr.cfg)
    ensures Spawn(s, pid).1 && Inv(Spawn(s, pid).0) && Room(Spawn(s, pid).0) == Room(s)
    ensures Spawn(s, pid).0.procs == s.procs[pid := Proc(s.fr.free[D][0], seq(s.fr.cfg.heap, _ => false))]
    ensures forall q, w :: SamePage(s, Spawn(s, pid).0, q, w)
  {
    hide Lists, AllIn, PageOk, FrameOk, SamePage, Spawn, TablesOk;
    SpawnShape(s, pid);
    var s' := Spawn(s, pid).0;
    forall q, w ensures PageOk(s', q, w) && SamePage(s, s', q, w) { SpawnPage(s, pid, q, w); }
    forall x ensures FrameOk(s', x) { SpawnFrame(s, pid, x); }
    forall q ensures TablesOk(s', q) { SpawnTables(s, pid, q); }
  }

  lemma SpawnShape(s: Pg, pid: int)
    requires Inv(s) && pid !in s.procs && HasFree(s.fr, D) && Low(s.fr.cfg)
    ensures Spawn(s, pid).1 && InvF(Spawn(s, pid).0.fr) && Room(Spawn(s, pid).0) == Room(s)
    ensures Spawn(s, pid).0.procs == s.procs[pid := Proc(s.fr.free[D][0], seq(s.fr.cfg.heap, _ => false))]
    ensures var (s', g) := (Spawn(s, pid).0, s.fr.free[D][0]);
      && InRegion(s.fr.cfg, D, g) && !IsUsed(s.fr, g) && s'.fr.ent == s.fr.ent[g := Ent(pid, true, Unused)]
      && s'.pd == s.pd[g := NewDir(s.fr.cfg)] && s'.pt == s.pt && s'.mem == s.mem && s'.fr.cfg == s.fr.cfg
  {
    hide PageOk, FrameOk, TablesOk;
    assert AllIn(s.fr.cfg, D, s.fr.free[D]);
    AllocKeeps(s.fr, D, pid, Unused);
  }

  lemma SpawnPage(s: Pg, pid: int, q: int, w: int)
    requires Inv(s) && pid !in s.procs && HasFree(s.fr, D) && Low(s.fr.cfg)
    ensures PageOk(Spawn(s, pid).0, q, w) && SamePage(s, Spawn(s, pid).0, q, w)
    ensures HasPt(s, q, w) <==> HasPt(Spawn(s, pid).0, q, w)
  {
    hide FrameOk, InvF, Spawn;
    SpawnShape(s, pid);
    assert PageOk(s, q, w) && TablesOk(s, q);
  }

  lemma SpawnFrame(s: Pg, pid: int, x: int)
    requires Inv(s) && pid !in s.procs && HasFree(s.fr, D) && Low(s.fr.cfg)
    ensures FrameOk(Spawn(s, pid).0, x)
  {
    hide InvF, Spawn;
    SpawnShape(s, pid);
    assert FrameOk(s, x);
    if IsUsed(s.fr, x) && !InRegion(s.fr.cfg, D, x) { assert TablesOk(s, s.fr.ent[x].pid); }
  }

  lemma SpawnTables(s: Pg, pid: int, q: int)
    requires Inv(s) && pid !in s.procs && HasFree(s.fr, D) && Low(s.fr.cfg)
    ensures TablesOk(Spawn(s, pid).0, q)
  {
    hide FrameOk, InvF, Spawn, PageOk;
    SpawnShape(s, pid);
    var s' := Spawn(s, pid).0;
    assert TablesOk(s, q);
    forall w | HasPt(s', q, w) ensures Backed(s', PdeOf(s', q, w).base, D, q, Unused) {
      SpawnPage(s, pid, q, w);
      assert HasPt(s, q, w);
    }
  }

  /** A store changes that byte of that page and nothing else. */
  lemma StoreKeeps(s: Pg, pid: int, v: int, off: int, b: byte)
    requires Inv(s) && HasPt(s, pid, v) && PteOf(s, pid, v).pres && 0 <= off < NBPG
    ensures 0 <= PteOf(s, pid, v).base < s.fr.cfg.f && |PageBytes(s, pid, v)| == NBPG
    ensures var s' := Store(s, pid, v, off, b);
      && Inv(s') && s'.procs == s.procs && s'.fr == s.fr && SameExcept(s, s', pid, v)
      && Mapped(s', pid, v) && PageBytes(s', pid, v) == PageBytes(s, pid, v)[off := b]
  {
    assert PageOk(s, pid, v);
    FillPage(s, pid, v, PageBytes(s, pid, v)[off := b], {});
  }
}
