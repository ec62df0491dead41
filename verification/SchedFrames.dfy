/** The block queue of frameblock.c beside the scheduler. kill leaves a process that waits for a frame in
    the ring, and newpid gives its number out again: framewakeup then makes the wrong process ready. This
    module says exactly when that breaks the lists, what it does, and how it comes about. */
module SchedFrames {
  import opened Kernel
  import opened Seqs
  import opened Delta
  import opened SchedSpec
  import opened SchedInv
  import opened SchedSteps
  import opened SchedRun
  import opened SchedMeaning
  import opened BlockQueues

  // ---- a process on two lists ----

  ghost predicate InSem(s: Sched, p: int) { exists k :: 0 <= k < |s.sems| && p in s.sems[k].q }

  /** Ready or current, and still among the sleepers, in the queue of a semaphore, or twice on the ready
      list. */
  ghost predicate Doubled(s: Sched, p: int) {
    InTab(s, p) && Runs(s.procs[p].state) && (On(s.sleep, p) || InSem(s, p) || Before(s.ready, p, p))
  }

  /** Or current and still on the ready list. */
  ghost predicate Misplaced(s: Sched, p: int) {
    Doubled(s, p) || (InTab(s, p) && s.procs[p].state == Curr && On(s.ready, p))
  }

  lemma MisplacedBad(s: Sched, p: int)
    requires Misplaced(s, p)
    ensures !Inv(s)
  {
    if Weak(s, NONE, NONE) { NotMisplaced(s, p); }
  }

  lemma NotMisplaced(s: Sched, p: int)
    requires Weak(s, NONE, NONE)
    ensures !Misplaced(s, p)
  {
    hide CountOk, NoDup, Descending;
    forall k | 0 <= k < |s.sems| && p in s.sems[k].q ensures InTab(s, p) && s.procs[p].state == Waiting {
      assert QueueOk(s.procs, k, s.sems[k].q, NONE);
      var i :| 0 <= i < |s.sems[k].q| && s.sems[k].q[i] == p;
      assert Waits(s.procs, k, s.sems[k].q[i]);
    }
    forall i | 0 <= i < |s.ready| ensures s.procs[s.ready[i].pid].state == Ready {
      assert ReadyEnt(s.procs, s.ready[i], NONE);
    }
  }

  /** A process that is on a list is on two when it is made ready. */
  lemma MakesDouble(s: Sched, p: int)
    requires Weak(s, NONE, NONE) && InTab(s, p) && !Loose(s.procs[p].state)
    ensures Doubled(MakeReady(s, p), p)
  {
    hide CountOk, NoDup, Descending, Distinct, Insert, Before, On;
    MakeReadyFrame(s, p);
    MakeReadyProcs(s, p);
    if s.procs[p].state == Waiting {
      assert QueueOk(s.procs, s.procs[p].sem, s.sems[s.procs[p].sem].q, NONE) && Waits(s.procs, s.procs[p].sem, p);
    } else if s.procs[p].state == Ready {
      InsertTwice(s.ready, p, s.procs[p].prio);
    }
  }

  lemma InsertTwice(l: seq<Ent>, p: int, key: int)
    requires On(l, p)
    ensures Before(Insert(l, p, key), p, p)
  {
    var (i, k) := (Place(l, p), Slot(l, key));
    var j :| 0 <= j < |l| && l[j].pid == p;
    var r := Insert(l, p, key);
    assert r[k].pid == p && r[if j < k then j else j + 1] == l[j];
  }

  lemma StaysDouble(s: Sched, q: int, p: int)
    requires Doubled(s, p) && InTab(s, q)
    ensures Doubled(MakeReady(s, q), p)
  {
    hide Insert, On, Before;
    MakeReadyFrame(s, q);
    MakeReadyProcs(s, q);
    GrownReady(s, q);
    assert InSem(s, p) ==> InSem(MakeReady(s, q), p);
  }

  lemma GrownReady(s: Sched, q: int)
    requires InTab(s, q)
    ensures Grown(s.ready, MakeReady(s, q).ready)
  {
    InsertGrown(s.ready, q, s.procs[q].prio);
  }

  /** The first ready process leaves the list: of two entries one is left. */
  lemma DispatchParts(s: Sched, p: int)
    requires InTab(s, p) && Runs(s.procs[p].state)
    ensures var t := Dispatch(s);
      && InTab(t, p) && Runs(t.procs[p].state) && t.sleep == s.sleep && t.sems == s.sems
      && (Before(s.ready, p, p) ==> Before(t.ready, p, p) || (t.procs[p].state == Curr && On(t.ready, p)))
  {
    var t := Dispatch(s);
    if Before(s.ready, p, p) {
      var i, j :| 0 <= i < j < |s.ready| && s.ready[i].pid == p && s.ready[j].pid == p;
      if t.curr != EMPTY {
        assert t.ready[j - 1] == s.ready[j];
        if i > 0 { assert t.ready[i - 1] == s.ready[i]; }
      }
    }
  }

  lemma StopParts(s: Sched, p: int)
    requires InTab(s, p) && Runs(s.procs[p].state)
    ensures var t := DeferStop(s);
      && InTab(t, p) && Runs(t.procs[p].state) && t.sleep == s.sleep && t.sems == s.sems
      && (Before(s.ready, p, p) ==> Before(t.ready, p, p) || (t.procs[p].state == Curr && On(t.ready, p)))
  {
    hide MakeReady, Dispatch, On, Before;
    var s1 := s.(ndefers := s.ndefers - 1);
    if InTab(s1, s1.curr) {
      MakeReadyFrame(s1, s1.curr);
      MakeReadyProcs(s1, s1.curr);
      GrownReady(s1, s1.curr);
      DispatchParts(MakeReady(s1, s1.curr), p);
    }
    DispatchParts(s1, p);
  }

  lemma StopDouble(s: Sched, p: int)
    requires Doubled(s, p)
    ensures Misplaced(DeferStop(s), p)
  {
    hide DeferStop, On, Before;
    StopParts(s, p);
    assert InSem(s, p) ==> InSem(DeferStop(s), p);
  }

  lemma LaterIs(s: Sched, q: int)
    requires s.ndefers > 0
    ensures ReadyP(s, q) == if Bad(s, q) then s else MakeReady(s, q).(attempt := true)
    ensures ReadyP(s, q).ndefers == s.ndefers
  {
    if !Bad(s, q) { MakeReadyFrame(s, q); }
  }

  lemma {:induction false} FramesDouble(s: Sched, ps: seq<int>, p: int)
    requires Doubled(s, p) && s.ndefers > 0
    ensures Doubled(ReadyFrames(s, ps), p)
    decreases |ps|
  {
    hide ReadyP, On, Before;
    if ps != [] {
      LaterIs(s, ps[0]);
      if !Bad(s, ps[0]) { StaysDouble(s, ps[0], p); }
      assert Doubled(ReadyP(s, ps[0]), p) by { assert InSem(MakeReadyIf(s, ps[0]), p) ==> InSem(ReadyP(s, ps[0]), p); }
      FramesDouble(ReadyP(s, ps[0]), ps[1..], p);
    }
  }

  function MakeReadyIf(s: Sched, q: int): Sched { if Bad(s, q) then s else MakeReady(s, q) }

  /** Somebody ends on two lists as soon as one number does not fit. */
  lemma {:induction false} FramesBreak(s: Sched, ps: seq<int>) returns (p: int)
    requires Deferred(s, NONE) && !WakeFits(s.procs, ps)
    ensures Doubled(ReadyFrames(s, ps), p) && p in ps
    decreases |ps|
  {
    hide Weak, ReadyP, On, Before, MakeReady;
    var q := ps[0];
    LaterIs(s, q);
    if Bad(s, q) || Loose(s.procs[q].state) {
      FrameLater(s, q);
      FitsRest(s, ps, ReadyP(s, q).procs);
      p := FramesBreak(ReadyP(s, q), ps[1..]);
    } else {
      MakesDouble(s, q);
      p := q;
      assert Doubled(ReadyP(s, q), q) by { assert InSem(MakeReady(s, q), q) ==> InSem(ReadyP(s, q), q); }
      FramesDouble(ReadyP(s, q), ps[1..], q);
    }
  }

  /** framewakeup keeps the scheduler's invariant if and only if every number in the block queue is
      nobody's, or that of a process which is on no list and does not come a second time. */
  lemma WakeExact(s: Sched, ps: seq<int>)
    requires Inv(s)
    ensures Inv(FrameWakeup(s, ps)) <==> WakeFits(s.procs, ps)
  {
    hide Inv, Deferred, DeferStop, ReadyFrames, Misplaced, Doubled, WakeFits;
    if WakeFits(s.procs, ps) {
      FrameWakeupOk(s, ps);
    } else {
      DeferStartOk(s);
      assert DeferStart(s).procs == s.procs;
      var p := FramesBreak(DeferStart(s), ps);
      StopDouble(ReadyFrames(DeferStart(s), ps), p);
      MisplacedBad(FrameWakeup(s, ps), p);
    }
  }

  /** What a number does that does not fit: its process is ready or runs, and is at the same time still
      asleep on the list of sleepers, still in the queue of its semaphore, or a second time on the
      ready list. */
  lemma StaleEntry(s: Sched, p: int)
    requires Inv(s) && InTab(s, p) && !Loose(s.procs[p].state)
    ensures var t := FrameWakeup(s, [p]);
      && !Inv(t) && InTab(t, p) && Runs(t.procs[p].state)
      && (Asleep(s.procs[p].state) ==> On(t.sleep, p))
      && (s.procs[p].state == Waiting ==>
            0 <= s.procs[p].sem < |t.sems| && p in t.sems[s.procs[p].sem].q)
      && (s.procs[p].state == Ready ==> Before(t.ready, p, p) || (t.procs[p].state == Curr && On(t.ready, p)))
  {
    hide Weak, DeferStop, Insert, Before, On;
    var s0 := DeferStart(s);
    WakeExact(s, [p]);
    assert [p][0] == p && !WakeFits(s.procs, [p]);
    LaterIs(s0, p);
    assert ReadyFrames(s0, [p]) == ReadyP(s0, p) by { assert [p][1..] == []; }
    OnItsList(s, p);
    MakeReadyFrame(s0, p);
    MakeReadyProcs(s0, p);
    if s.procs[p].state == Ready { InsertTwice(s.ready, p, s.procs[p].prio); }
    StopParts(ReadyP(s0, p), p);
  }

  lemma OnItsList(s: Sched, p: int)
    requires Weak(s, NONE, NONE) && InTab(s, p)
    ensures Asleep(s.procs[p].state) ==> On(s.sleep, p)
    ensures s.procs[p].state == Ready ==> On(s.ready, p)
    ensures s.procs[p].state == Waiting ==> 0 <= s.procs[p].sem < |s.sems| && p in s.sems[s.procs[p].sem].q
  {
    hide CountOk, NoDup, Descending, Distinct, On;
    if s.procs[p].state == Waiting {
      assert QueueOk(s.procs, s.procs[p].sem, s.sems[s.procs[p].sem].q, NONE) && Waits(s.procs, s.procs[p].sem, p);
    }
  }

  // ---- runs with the ring ----

  /** The scheduler and the ring of frameblock, which has one slot for each entry of the process table. */
  datatype K = K(s: Sched, ring: seq<int>)

  /** framewakeup takes the whole ring while E1 or E2 has a free frame, and nothing otherwise. */
  predicate WakesRing(k: K, op: Op) { op.OpFrameWakeup? ==> op.ps == k.ring || op.ps == [] }

  function RingAfter(k: K, op: Op): seq<int> {
    match op
    case OpFrameBlock => if InTab(k.s, k.s.curr) then Put(k.ring, |k.s.procs|, k.s.curr) else k.ring
    case OpFrameWakeup(ps) => if ps == k.ring then [] else k.ring
    case _ => k.ring
  }

  function After(k: K, op: Op): K { K(Step(k.s, op), RingAfter(k, op)) }

  function KRun(k: K, ops: seq<Op>): K
    decreases |ops|
  {
    if ops == [] then k else KRun(After(k, ops[0]), ops[1..])
  }

  /** What the scheduler asks of a step but for the block queue. */
  ghost predicate Sane(s: Sched, op: Op) { op.OpFrameWakeup? || Enabled(s, op) }

  predicate Gone(s: Sched, p: int) { InTab(s, p) && (s.procs[p].state == Frame || s.procs[p].state == Free) }

  /** The numbers in the ring are of processes that wait for a frame or have been killed, each once. */
  ghost predicate CleanRing(k: K) {
    && NoDup(k.ring)
    && forall i :: 0 <= i < |k.ring| ==> Gone(k.s, k.ring[i])
  }

  lemma CleanFits(k: K, op: Op)
    requires CleanRing(k) && WakesRing(k, op) && op.OpFrameWakeup?
    ensures Enabled(k.s, op)
  {}

  lemma StateKept(s: Sched, op: Op, p: int)
    requires Inv(s) && Enabled(s, op) && Gone(s, p)
    requires !(op.OpFrameWakeup? && p in op.ps) && !(op.OpCreate? && op.p == p)
    ensures Gone(Step(s, op), p)
  {
    StepMeaning(s, op);
    CurrIn(s);
    hide Inv, Step, Enabled, Released, WokenBy;
    assert Near(Meant(s, op, p), Step(s, op).procs[p]);
    if Wakes(s, op, p) && !op.OpFrameWakeup? { WakesWaiting(s, op, p); }
  }

  /** As long as create is not given a number that is in the ring, the ring stays like that, has a slot
      for whoever blocks, and framewakeup can deal with it. */
  lemma CleanStep(k: K, op: Op)
    requires Inv(k.s) && CleanRing(k) && Sane(k.s, op) && WakesRing(k, op) && (op.OpCreate? ==> op.p !in k.ring)
    ensures Enabled(k.s, op) && Inv(After(k, op).s) && CleanRing(After(k, op))
  {
    hide Inv, Step, Enabled, Served;
    if op.OpFrameWakeup? { CleanFits(k, op); }
    StepOk(k.s, op);
    var k1 := After(k, op);
    if op.OpFrameBlock? { Joins(k); }
    forall i | 0 <= i < |k1.ring| ensures Gone(k1.s, k1.ring[i]) {
      if k1.ring[i] in k.ring {
        var j :| 0 <= j < |k.ring| && k.ring[j] == k1.ring[i];
        StateKept(k.s, op, k.ring[j]);
      }
    }
  }

  /** The process that blocks. */
  lemma Joins(k: K)
    requires Inv(k.s) && CleanRing(k) && Enabled(k.s, OpFrameBlock)
    ensures InTab(k.s, k.s.curr) && k.s.curr !in k.ring && |k.ring| < |k.s.procs|
    ensures Gone(Step(k.s, OpFrameBlock), k.s.curr)
  {
    CurrIn(k.s);
    StepMeaning(k.s, OpFrameBlock);
    hide Inv, Step, Enabled;
    assert Near(Meant(k.s, OpFrameBlock, k.s.curr), Step(k.s, OpFrameBlock).procs[k.s.curr]);
    PigeonholeMissing(k.ring, 0, |k.s.procs|, k.s.curr);
  }

  ghost predicate NoReuse(k: K, ops: seq<Op>)
    decreases |ops|
  {
    ops != [] ==>
      && Sane(k.s, ops[0]) && WakesRing(k, ops[0]) && (ops[0].OpCreate? ==> ops[0].p !in k.ring)
      && NoReuse(After(k, ops[0]), ops[1..])
  }

  /** Over any run in which no number in the ring is given out again. */
  lemma {:induction false} CleanRun(k: K, ops: seq<Op>)
    requires Inv(k.s) && CleanRing(k) && NoReuse(k, ops)
    ensures Inv(KRun(k, ops).s) && CleanRing(KRun(k, ops))
    decreases |ops|
  {
    hide Inv, CleanRing, Sane, WakesRing, After;
    if ops != [] {
      CleanStep(k, ops[0]);
      CleanRun(After(k, ops[0]), ops[1..]);
    }
  }

  // ---- how a number in the ring comes to be somebody else's ----

  ghost predicate KAllowed(k: K, ops: seq<Op>)
    decreases |ops|
  {
    ops != [] ==> Enabled(k.s, ops[0]) && WakesRing(k, ops[0]) && KAllowed(After(k, ops[0]), ops[1..])
  }

  lemma KStep(k: K, op: Op, k1: K, ops: seq<Op>)
    requires Goes(k, op, k1) && KAllowed(k1, ops)
    ensures KAllowed(k, [op] + ops) && KRun(k, [op] + ops) == KRun(k1, ops)
  {
    assert ([op] + ops)[1..] == ops;
  }

  /** The null process, process 1 in state st, and the others up to n as create leaves them. */
  function CrewProcs(n: int, st: PState): (r: seq<Proc>)
    ensures |r| == 8 && r[0] == Proc(Curr, 0, 0, false, 0)
    ensures r[1] == Proc(st, if n == 0 then 0 else 20, 0, false, 0)
    ensures forall p :: 2 <= p < 8 ==>
      r[p] == if p <= n then Proc(Susp, 20, 0, false, 0) else Proc(Free, 0, 0, false, 0)
  {
    seq(8, p =>
      if p == NULLPROC then Proc(Curr, 0, 0, false, 0)
      else if p == 1 then Proc(st, if n == 0 then 0 else 20, 0, false, 0)
      else if p <= n then Proc(Susp, 20, 0, false, 0) else Proc(Free, 0, 0, false, 0))
  }

  lemma CrewSet(n: int, st: PState, st': PState, pr: Proc)
    requires pr == Proc(st', 20, 0, false, 0) && n > 0
    ensures CrewProcs(n, st)[1 := pr] == CrewProcs(n, st')
  {
    hide CrewProcs;
  }

  lemma CrewGrows(n: int)
    requires 0 <= n < 7
    ensures CrewProcs(n, if n == 0 then Free else Susp)[n + 1 := Proc(Susp, 20, 0, false, 0)] == CrewProcs(n + 1, Susp)
  {
    hide CrewProcs;
  }

  function Crew(ns: nat, n: int, st: PState): Sched {
    Sched(CrewProcs(n, st), seq(ns, _ => Sem(false, 0, [])), [], [], NULLPROC, 0, false, QUANTUM)
  }

  /** create for all the numbers from n on, as newpid gives them out. */
  function Creates(n: nat): seq<Op>
    requires 1 <= n <= 8
    decreases 8 - n
  {
    if n == 8 then [] else [OpCreate(n, 20)] + Creates(n + 1)
  }

  lemma CreateGoes(ns: nat, n: nat, k: K, k1: K)
    requires 1 <= n < 8 && k == K(Crew(ns, n - 1, if n == 1 then Free else Susp), []) && k1 == K(Crew(ns, n, Susp), [])
    ensures Goes(k, OpCreate(n, 20), k1)
  {
    CrewGrows(n - 1);
    hide CrewProcs;
  }

  lemma {:induction false} CreatesRun(ns: nat, n: nat, k: K, ops: seq<Op>)
    requires 1 <= n <= 8 && k == K(Crew(ns, n - 1, if n == 1 then Free else Susp), [])
    requires KAllowed(K(Crew(ns, 7, Susp), []), ops)
    ensures KAllowed(k, Creates(n) + ops) && KRun(k, Creates(n) + ops) == KRun(K(Crew(ns, 7, Susp), []), ops)
    decreases 8 - n
  {
    if n == 8 {
      assert Creates(8) + ops == ops;
    } else {
      var k1 := K(Crew(ns, n, Susp), []);
      CreateGoes(ns, n, k, k1);
      hide Crew, Goes, KRun, KAllowed;
      CreatesRun(ns, n + 1, k1, ops);
      KStep(k, OpCreate(n, 20), k1, Creates(n + 1) + ops);
      assert Creates(n) + ops == [OpCreate(n, 20)] + (Creates(n + 1) + ops);
    }
  }

  /** Process 1 has the processor. */
  function OneRuns(ns: nat): Sched {
    Crew(ns, 7, Curr).(procs := CrewProcs(7, Curr)[0 := Proc(Ready, 0, 0, false, 0)], ready := [Ent(0, 0)], curr := 1)
  }

  lemma InsertBoth()
    ensures Insert([], 1, 20) == [Ent(1, 20)] && Insert([Ent(1, 20)], 0, 0) == [Ent(1, 20), Ent(0, 0)]
  {
    assert [Ent(1, 20)][1..] == [];
  }

  lemma ResumeRuns(ns: nat)
    ensures Step(Crew(ns, 7, Susp), OpResume(1)) == OneRuns(ns)
  {
    hide CrewProcs, Insert, Slot;
    InsertBoth();
    var s := Crew(ns, 7, Susp);
    var s1 := MakeReady(s, 1);
    var s2 := MakeReady(s1, 0);
    assert s1.ready == [Ent(1, 20)] && s2.ready == [Ent(1, 20), Ent(0, 0)];
    assert ReadyP(s, 1) == Dispatch(s2);
    assert s2.ready[1..] == [Ent(0, 0)];
    assert Dispatch(s2).procs == OneRuns(ns).procs;
  }

  /** It gives it up. */
  lemma GivesUp(ns: nat, st: PState, sleep: seq<Ent>)
    requires st != Curr
    ensures Resched(SetState(OneRuns(ns).(sleep := sleep), 1, st)) == Crew(ns, 7, st).(sleep := sleep)
  {
    hide CrewProcs, Insert;
    var s := SetState(OneRuns(ns).(sleep := sleep), 1, st);
    assert Resched(s) == Dispatch(s);
    assert s.ready[1..] == [];
    assert Dispatch(s).procs == CrewProcs(7, st);
  }

  /** From the start on: process 1 waits for a frame and is killed, its number is given to a new
      process, which goes to sleep, and framewakeup comes. The new process runs and is asleep. */
  lemma StaleRun(ns: nat) returns (ops: seq<Op>)
    ensures KAllowed(K(Boot(8, ns), []), ops)
    ensures var k := KRun(K(Boot(8, ns), []), ops);
      && Inv(k.s) && k.ring == [1] && InTab(k.s, 1) && k.s.procs[1].state == Sleep && Rem(k.s.sleep, 1) == 5
      && WakesRing(k, OpFrameWakeup([1]))
      && var t := After(k, OpFrameWakeup([1])).s;
         !Inv(t) && InTab(t, 1) && Runs(t.procs[1].state) && On(t.sleep, 1)
  {
    hide Inv, FrameWakeup;
    var rest := StaleEnd(ns);
    ops := Creates(1) + rest;
    BootOk(8, ns);
    BootCrew(ns);
    CreatesRun(ns, 1, K(Boot(8, ns), []), rest);
    RunIs(K(Boot(8, ns), []), ops);
    RunOk(Boot(8, ns), ops);
    StaleEntry(KRun(K(Boot(8, ns), []), ops).s, 1);
  }

  lemma BootCrew(ns: nat)
    ensures Boot(8, ns) == Crew(ns, 0, Free)
  {
    assert Boot(8, ns).procs == CrewProcs(0, Free);
  }

  lemma StaleEnd(ns: nat) returns (ops: seq<Op>)
    ensures var k := K(Crew(ns, 7, Susp), []);
      KAllowed(k, ops) && KRun(k, ops) == K(Crew(ns, 7, Sleep).(sleep := [Ent(1, 5)]), [1])
  {
    hide KRun, KAllowed, After, Crew, OneRuns, Enabled;
    var (s, r, b) := (K(Crew(ns, 7, Susp), []), K(OneRuns(ns), []), K(Crew(ns, 7, Frame), [1]));
    var (f, s1, r1) := (K(Crew(ns, 7, Free), [1]), K(Crew(ns, 7, Susp), [1]), K(OneRuns(ns), [1]));
    var e := K(Crew(ns, 7, Sleep).(sleep := [Ent(1, 5)]), [1]);
    Ends(e);
    FirstHalf(ns, s, r, b);
    SecondHalf(ns, b, f, s1);
    LastHalf(ns, s1, r1, e);
    KStep(r1, OpSleepms(5), e, []);
    ops := [OpSleepms(5)] + [];
    KStep(s1, OpResume(1), r1, ops);
    ops := [OpResume(1)] + ops;
    KStep(f, OpCreate(1, 20), s1, ops);
    ops := [OpCreate(1, 20)] + ops;
    KStep(b, OpKillEnd(1), f, ops);
    ops := [OpKillEnd(1)] + ops;
    KStep(r, OpFrameBlock, b, ops);
    ops := [OpFrameBlock] + ops;
    KStep(s, OpResume(1), r, ops);
    ops := [OpResume(1)] + ops;
  }

  lemma Ends(k: K)
    ensures KAllowed(k, []) && KRun(k, []) == k
  {}

  ghost predicate Goes(k: K, op: Op, k1: K) { Enabled(k.s, op) && WakesRing(k, op) && After(k, op) == k1 }

  /** Process 1 waits for a frame. */
  lemma FirstHalf(ns: nat, s: K, r: K, b: K)
    requires s == K(Crew(ns, 7, Susp), []) && r == K(OneRuns(ns), []) && b == K(Crew(ns, 7, Frame), [1])
    ensures Goes(s, OpResume(1), r) && Goes(r, OpFrameBlock, b)
  {
    hide Resched, CrewProcs, Resume;
    ResumeRuns(ns);
    GivesUp(ns, Frame, []);
    assert r.s == r.s.(sleep := []);
  }

  /** It is killed and its number is given out again. */
  lemma SecondHalf(ns: nat, b: K, f: K, s: K)
    requires b == K(Crew(ns, 7, Frame), [1]) && f == K(Crew(ns, 7, Free), [1]) && s == K(Crew(ns, 7, Susp), [1])
    ensures Goes(b, OpKillEnd(1), f) && Goes(f, OpCreate(1, 20), s)
  {
    hide CrewProcs;
    CrewSet(7, Frame, Free, Proc(Free, 20, 0, false, 0));
    CrewSet(7, Free, Susp, Proc(Susp, 20, 0, false, 0));
  }

  /** The new process goes to sleep. */
  lemma LastHalf(ns: nat, s: K, r: K, e: K)
    requires s == K(Crew(ns, 7, Susp), [1])
    requires r == K(OneRuns(ns), [1]) && e == K(Crew(ns, 7, Sleep).(sleep := [Ent(1, 5)]), [1])
    ensures Goes(s, OpResume(1), r) && Goes(r, OpSleepms(5), e)
  {
    hide Resched, CrewProcs, Resume;
    ResumeRuns(ns);
    GivesUp(ns, Sleep, [Ent(1, 5)]);
    assert InsertD([], 1, 5) == [Ent(1, 5)];
  }

  /** The ring does not change what the steps do. */
  lemma {:induction false} RunIs(k: K, ops: seq<Op>)
    requires KAllowed(k, ops)
    ensures Allowed(k.s, ops) && KRun(k, ops).s == Run(k.s, ops)
    decreases |ops|
  {
    hide Enabled, Step;
    if ops != [] { RunIs(After(k, ops[0]), ops[1..]); }
  }
}
