/** The frames that the bound of invtakeframe excludes stay at the bottom of the E2 stack through
    every step that does not try to take one of them. */
module PagerReach {
  import opened Kernel
  import opened Frames
  import opened Pager

  lemma ReachEvict(s: Pg)
    requires WF(s) && Reach(s.fr) && (HasFree(s.fr, E2) ==> s.fr.free[E2][0] < s.fr.cfg.limit)
    ensures Reach(Evict(s).0.fr)
  {
    hide Reach, Alloc, Free, HasPt;
    var victim := GetUsedE1(s.fr);
    if victim != SYSERR {
      var e := s.fr.ent[victim];
      ReachAlloc(s.fr, E2, e.pid, e.pte);
      ReachFree(Alloc(s.fr, E2, e.pid, e.pte).0, victim);
    }
  }

  lemma ReachMap(s: Pg, pid: int, v: int)
    requires WF(s) && Reach(s.fr) && HasPt(s, pid, v)
    ensures Reach(MapFree(s, pid, v).0.fr)
  {
    hide Reach, Alloc;
    ReachAlloc(s.fr, E1, pid, PteRef(s, pid, v));
  }

  lemma ReachRestore(s: Pg, pid: int, v: int)
    requires WF(s) && Reach(s.fr) && HasPt(s, pid, v) && InTable(s.fr.cfg, PteOf(s, pid, v).base)
    ensures Reach(Restore(s, pid, v).0.fr)
  {
    hide Reach, MapFree, Free;
    ReachMap(s, pid, v);
    ReachFree(MapFree(s, pid, v).0.fr, PteOf(s, pid, v).base);
  }

  /** swapframe evicts to the frame that it has just given back, which is below the bound. */
  lemma ReachSwap(s: Pg, pid: int, v: int)
    requires WF(s) && Reach(s.fr) && HasPt(s, pid, v) && InRegion(s.fr.cfg, E2, PteOf(s, pid, v).base)
    requires IsUsed(s.fr, PteOf(s, pid, v).base) && InvF(s.fr)
    ensures Reach(Swap(s, pid, v).0.fr)
  {
    hide Lists, MapFree, Evict;
    var src := PteOf(s, pid, v).base;
    FreeKeeps(s.fr, src);
    ReachFree(s.fr, src);
    var s1 := SetFrames(s, Free(s.fr, src).0);
    assert s1.fr.free[E2][0] == src;
    hide Reach, Free;
    ReachEvict(s1);
    ReachMap(Evict(s1).0, pid, v);
  }

  lemma ReachTakeD(fr: FrameSt, pid: int)
    requires Shape(fr) && Reach(fr)
    ensures Reach(TakeD(fr, pid).0)
  {
    if HasFree(fr, D) {
      assert AllIn(fr.cfg, D, fr.free[D]) && InRegion(fr.cfg, D, fr.free[D][0]);
      var fr' := TakeD(fr, pid).0;
      forall x | IsUsed(fr', x) ensures x < fr.cfg.limit { assert x == fr.free[D][0] || IsUsed(fr, x); }
    }
  }

  lemma ReachEnsure(s: Pg, pid: int, v: int)
    requires WF(s) && Reach(s.fr) && pid in s.procs && InHeap(s.fr.cfg, v)
    ensures Reach(EnsurePt(s, pid, v).0.fr)
  {
    hide Reach, TakeD;
    ReachTakeD(s.fr, pid);
  }

  lemma ReachSpawn(s: Pg, pid: int)
    requires WF(s) && Reach(s.fr)
    ensures Reach(Spawn(s, pid).0.fr)
  {
    hide Reach, TakeD;
    ReachTakeD(s.fr, pid);
  }

  lemma ReachUnmap(s: Pg, pid: int, v: int)
    requires WF(s) && Reach(s.fr) && HasPt(s, pid, v)
    ensures Reach(UnmapPage(s, pid, v).fr)
  {
    hide Reach, Free;
    if InTable(s.fr.cfg, PteOf(s, pid, v).base) { ReachFree(s.fr, PteOf(s, pid, v).base); }
  }

  lemma {:induction false} ReachUnmapAll(s: Pg, pid: int, v: int, n: nat)
    requires WF(s) && Reach(s.fr) && forall w :: v <= w < v + n ==> HasPt(s, pid, w)
    ensures Reach(UnmapPages(s, pid, v, n).fr)
    decreases n
  {
    hide Reach, UnmapPage, HasPt;
    if n > 0 {
      ReachUnmap(s, pid, v);
      ReachUnmapAll(UnmapPage(s, pid, v), pid, v + 1, n - 1);
    }
  }

  lemma {:induction false} ReachOwned(fr: FrameSt, pid: int, g: int)
    requires Shape(fr) && Reach(fr) && fr.cfg.d0 <= g <= fr.cfg.f
    ensures Reach(FreeOwned(fr, pid, g))
    decreases fr.cfg.f - g
  {
    hide Reach, Free;
    if g < fr.cfg.f {
      ReachFree(fr, g);
      ReachOwned(if fr.ent[g].pid == pid && fr.ent[g].used then Free(fr, g).0 else fr, pid, g + 1);
    }
  }

  /** The scenarios for a page in E2. */
  lemma ReachFetch(s: Pg, pid: int, v: int)
    requires WF(s) && Reach(s.fr) && EvictFits(s.fr) && HasPt(s, pid, v)
      && InRegion(s.fr.cfg, E2, PteOf(s, pid, v).base)
    requires IsUsed(s.fr, PteOf(s, pid, v).base) && InvF(s.fr)
    ensures Reach(FetchPage(s, pid, v).0.fr)
  {
    hide Reach, Restore, Evict, Swap, Lists;
    if HasFree(s.fr, E1) {
      ReachRestore(s, pid, v);
    } else if HasFree(s.fr, E2) {
      ReachEvict(s);
      var s1 := Evict(s).0;
      if InTable(s.fr.cfg, PteOf(s1, pid, v).base) { ReachRestore(s1, pid, v); }
    } else {
      ReachSwap(s, pid, v);
    }
  }

  /** The scenarios for a page without a frame. */
  lemma ReachFresh(s: Pg, pid: int, v: int)
    requires WF(s) && Reach(s.fr) && EvictFits(s.fr) && HasPt(s, pid, v)
    ensures Reach(FreshPage(s, pid, v).0.fr)
  {
    hide Reach, MapFree, Evict;
    if !HasFree(s.fr, E1) { ReachEvict(s); }
    ReachMap(if HasFree(s.fr, E1) then s else Evict(s).0, pid, v);
  }
}
