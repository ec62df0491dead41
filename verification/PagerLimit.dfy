/** The bound that invtakeframe compares with. The shipped bound is the number of frames, 3072,
    while frame numbers run up to 4095: eviction to a frame at or above the bound loses that
    frame. This module shows the run from the shipped start that comes to the bound. */
module PagerLimit {
  import opened Bytes
  import opened Frames
  import opened Pager
  import opened PagerInv
  import opened PagerMachine
  import opened PagerExact
  import opened PagerRuns

  /** evictframe keeps the tables if and only if the E2 frame on top of the stack is below the
      bound; the result of invtakeframe is not looked at. */
  lemma EvictExact(s: Pg)
    requires Inv(s) && s.fr.fifo != [] && HasFree(s.fr, E2)
    ensures Inv(Evict(s).0) <==> s.fr.free[E2][0] < s.fr.cfg.limit
  {
    if s.fr.free[E2][0] < s.fr.cfg.limit {
      EvictKept(s);
    } else {
      EvictLoses(s);
    }
  }

  /** In every reachable state a fault may evict exactly while fewer E2 frames are in use than the
      bound leaves: 24 with the shipped sizes. */
  lemma FitsExact(m: M)
    requires MInv(m) && !HasFree(m.pg.fr, E1) && HasFree(m.pg.fr, E2)
    ensures var c := m.pg.fr.cfg;
      EvictFits(m.pg.fr) <==> c.limit >= c.f || NUsed(m.pg.fr, E2) < c.limit - c.e2
  {
    TopBelow(m.pg.fr);
  }

  // ---- the run that comes to the bound ----

  /** With no room to spare the frames below the bound are all in use. */
  lemma AtTheBound(m: M)
    requires MInv(m) && m.pg.fr.cfg.limit < m.pg.fr.cfg.f && Spare(m) == 0
    ensures m.pg.fr.free[E1] == [] && m.pg.fr.free[E2] != [] && m.pg.fr.free[E2][0] == m.pg.fr.cfg.limit
    ensures NUsed(m.pg.fr, E2) == m.pg.fr.cfg.limit - m.pg.fr.cfg.e2 && !EvictFits(m.pg.fr)
  {
    hide FrameOk, TablesOk, Lists, PageOk;
    var s := m.pg.fr.free[E2];
    assert s[0..] == s;
  }

  /** With the shipped sizes and the shipped bound: two processes whose pages are touched one after
      the other. 1024 pages fill E1, 24 more evict to the frames 3048 to 3071, and the 25th eviction
      breaks the tables. */
  lemma ShippedRun(mem: seq<byte>) returns (ms: seq<M>, ts: seq<Step>)
    requires |mem| == SHIPPED.f * NBPG
    ensures IsRun(ms, ts) && ms[0] == Start(SHIPPED, mem, 3)
      && |ts| == 4 + 1024 + 24
    ensures var m := ms[|ts|];
      && MInv(m) && m.pg.fr.cfg == SHIPPED && NUsed(m.pg.fr, E1) == 1024 && NUsed(m.pg.fr, E2) == 24
      && HasFree(m.pg.fr, E2) && m.pg.fr.free[E2][0] == 3072
      && Running(m, 2) && HasPt(m.pg, 2, 24) && m.pg.procs[2].alloc[24] && !Present(m.pg, 2, 24)
      && !Inv(Handle(m, 2, 24).pg)
  {
    hide MInv, IsRun, HasPt, Mapped, Handle, Spare;
    var ms1, ts1 := TwoProcesses(SHIPPED, mem, 3);
    RunLength(ms1, ts1);
    FreshFacts(ms1[4], 1, 0);
    var ms2, ts2 := FillRun(ms1[4], 1, 0, 1024);
    RunLength(ms2, ts2);
    FreshFacts(ms2[1024], 2, 0);
    var ms3, ts3 := FillRun(ms2[1024], 2, 0, 24);
    RunLength(ms3, ts3);
    var m := ms3[24];
    FreshFacts(m, 2, 24);
    LastFault(m);
    RunJoin(ms1, ts1, ms2, ts2);
    RunJoin(ms1 + ms2[1..], ts1 + ts2, ms3, ts3);
    ms, ts := ms1 + ms2[1..] + ms3[1..], ts1 + ts2 + ts3;
  }

  lemma LastFault(m: M)
    requires Fresh(m, 2, 24) && m.pg.fr.cfg == SHIPPED && Spare(m) == 0 && HasFree(m.pg.fr, D)
    ensures NUsed(m.pg.fr, E1) == 1024 && NUsed(m.pg.fr, E2) == 24 && HasFree(m.pg.fr, E2)
      && m.pg.fr.free[E2][0] == 3072
    ensures Running(m, 2) && m.pg.procs[2].alloc[24] && !Present(m.pg, 2, 24) && !Inv(Handle(m, 2, 24).pg)
  {
    hide Inv, Reach, Handle, PendOk;
    FreshFacts(m, 2, 24);
    AtTheBound(m);
    NotMapped(m.pg, 2, 24);
    FaultLoses(m, 2, 24);
  }
}
