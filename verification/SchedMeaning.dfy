/** What every call means, process by process and semaphore by semaphore, without the ready list and
    without saying who gets the processor; and that the calls do exactly that. */
module SchedMeaning {
  import opened Seqs
  import opened Delta
  import opened SchedSpec
  import opened SchedInv
  import opened SchedSteps
  import opened SchedRun

  predicate Runs(st: PState) { st == Ready || st == Curr }

  /** The same, but for who has the processor. */
  predicate Near(a: Proc, b: Proc) { b == a.(state := b.state)
    && (b.state == a.state || (Runs(a.state) && Runs(b.state))) }

  function Least(a: int, b: int): int { if a < b then a else b }

  /** How many processes n signals release. */
  function WokenBy(sem: Sem, n: int): nat { if n < 0 then 0 else Least(n, |sem.q|) }

  /** The processes that an operation releases. */
  ghost predicate Wakes(s: Sched, op: Op, p: int) {
    match op
    case OpSignal(k) => SemUsed(s, k) && p in s.sems[k].q[..WokenBy(s.sems[k], 1)]
    case OpSignaln(k, n) => n >= 0 && SemUsed(s, k) && p in s.sems[k].q[..WokenBy(s.sems[k], n)]
    case OpSemreset(k, n) => n >= 0 && SemUsed(s, k) && p in s.sems[k].q
    case OpSemdelete(k) => SemUsed(s, k) && p in s.sems[k].q
    case OpResume(q) => p == q && InTab(s, p) && s.procs[p].state == Susp
    case OpFrameWakeup(ps) => p in ps && InTab(s, p) && s.procs[p].state != Free
    case OpTick => p in Released(s.sleep)
    case _ => false
  }

  /** The new entry of process p in the process table. */
  ghost function Meant(s: Sched, op: Op, p: int): Proc
    requires InTab(s, p)
  {
    var pr := s.procs[p];
    var mine := p == s.curr;
    match op
    case OpWait(k) => if mine && SemUsed(s, k) && s.sems[k].count <= 0 then pr.(state := Waiting, sem := k) else pr
    case OpSend(q, msg) =>
      if p == q && pr.state != Free && !pr.hasmsg
      then pr.(hasmsg := true, msg := msg, state := if pr.state == Recv || pr.state == RecTim then Ready else pr.state)
      else pr
    case OpReceive => if mine && !pr.hasmsg then pr.(state := Recv) else pr
    case OpTakeMsg => if mine then pr.(hasmsg := false) else pr
    case OpRecvtime(maxwait) => if mine && maxwait >= 0 && !pr.hasmsg then pr.(state := RecTim) else pr
    case OpSleepms(delay) => if mine && delay != 0 then pr.(state := Sleep) else pr
    case OpSuspend(q) => if p == q && p != NULLPROC && Runs(pr.state) then pr.(state := Susp) else pr
    case OpCreate(q, prio) => if p == q && pr.state == Free then Proc(Susp, prio, 0, false, 0) else pr
    case OpKillEnd(q) => if p == q && p != NULLPROC then pr.(state := Free) else pr
    case OpFrameBlock => if mine then pr.(state := Frame) else pr
    case _ => if Wakes(s, op, p) then pr.(state := Ready) else pr
  }

  /** The new entry of semaphore k in the semaphore table. */
  function MeantSem(s: Sched, op: Op, k: int): Sem
    requires 0 <= k < |s.sems|
  {
    var sem := s.sems[k];
    match op
    case OpWait(j) =>
      if j == k && sem.used then sem.(count := sem.count - 1, q := if sem.count <= 0 then sem.q + [s.curr] else sem.q)
      else sem
    case OpSignal(j) => if j == k && sem.used then sem.(count := sem.count + 1, q := sem.q[WokenBy(sem, 1)..]) else sem
    case OpSignaln(j, n) =>
      if j == k && sem.used && n >= 0 then sem.(count := sem.count + n, q := sem.q[WokenBy(sem, n)..]) else sem
    case OpSemreset(j, n) => if j == k && sem.used && n >= 0 then Sem(true, n, []) else sem
    case OpSemdelete(j) => if j == k && sem.used then Sem(false, if sem.count < 0 then 1 else sem.count + 1, [])
      else sem
    case OpSemcreate(j, n) => if j == k && !sem.used && n >= 0 then sem.(used := true, count := n) else sem
    case OpKillEnd(p) =>
      if InTab(s, p) && p != NULLPROC && s.procs[p].state == Waiting && s.procs[p].sem == k
      then sem.(count := sem.count + 1, q := Without(sem.q, p))
      else sem
    case _ => sem
  }

  ghost predicate AsMeant(s: Sched, op: Op, t: Sched) {
    && |t.procs| == |s.procs| && |t.sems| == |s.sems|
    && (forall p :: 0 <= p < |s.procs| ==> Near(Meant(s, op, p), t.procs[p]))
    && (forall k :: 0 <= k < |s.sems| ==> t.sems[k] == MeantSem(s, op, k))
  }

  // ---- rescheduling ----

  /** t is u but for who has the processor. */
  ghost predicate SameNear(u: Sched, t: Sched) {
    t.sems == u.sems && |t.procs| == |u.procs| && forall p :: 0 <= p < |u.procs| ==> Near(u.procs[p], t.procs[p])
  }

  lemma DispatchNear(s: Sched)
    requires Weak(s, NONE, NONE)
    ensures SameNear(s, Dispatch(s))
  {
    hide Weak;
    if s.ready != [] { HeadReady(s); }
  }

  lemma ReschedNear(s: Sched)
    requires s.ndefers <= 0 ==> Weak(s, NONE, NONE)
    ensures SameNear(s, Resched(s))
  {
    hide Weak, Dispatch;
    if s.ndefers <= 0 && InTab(s, s.curr) && s.procs[s.curr].state == Curr {
      if s.procs[s.curr].prio <= FirstKey(s.ready) {
        SetAside(s, s.curr, NONE);
        GiveReady(s, s.curr, NONE);
        MakeReadyFrame(s, s.curr);
        MakeReadyProcs(s, s.curr);
        hide MakeReady;
        DispatchNear(MakeReady(s, s.curr));
      }
    } else if s.ndefers <= 0 && InTab(s, s.curr) {
      DispatchNear(s);
    }
  }

  /** The table with the processes of q ready. */
  function Readied(procs: seq<Proc>, q: seq<int>): (r: seq<Proc>)
    ensures |r| == |procs|
  {
    seq(|procs|, p requires 0 <= p < |procs| => if p in q then procs[p].(state := Ready) else procs[p])
  }

  lemma ReadyNear(s: Sched, p: int)
    requires Weak(s, p, NONE) && InTab(s, p) && s.procs[p].state != Free
    ensures SameNear(s.(procs := s.procs[p := s.procs[p].(state := Ready)]), ReadyP(s, p))
  {
    hide Weak;
    GiveReady(s, p, NONE);
    MakeReadyFrame(s, p);
    MakeReadyProcs(s, p);
    hide MakeReady, Resched;
    ReschedNear(MakeReady(s, p));
  }

  lemma StopNear(s: Sched)
    requires Deferred(s, NONE)
    ensures SameNear(s, DeferStop(s))
  {
    hide Weak, Resched;
    WeakAttempt(s, NONE, NONE, s.attempt, 0, s.preempt);
    ReschedNear(s.(ndefers := 0));
  }

  // ---- while rescheduling is deferred ----

  /** A signal wakes the first of the queue, if there is one. */
  lemma SignalOnce(s: Sched, k: int)
    requires Deferred(s, NONE) && SemUsed(s, k)
    ensures var m := WokenBy(s.sems[k], 1);
      Signal(s, k).procs == Readied(s.procs, s.sems[k].q[..m])
      && Signal(s, k).sems == s.sems[k := s.sems[k].(count := s.sems[k].count + 1, q := s.sems[k].q[m..])]
  {
    hide Weak, CountOk;
    QueueCount(s, k);
    if s.sems[k].count < 0 {
      SignalWakes(s, k);
      var s1 := SetSem(s, k, s.sems[k].(count := s.sems[k].count + 1, q := s.sems[k].q[1..]));
      var p := s.sems[k].q[0];
      hide ReadyP;
      ReadyLater(s1, p, NONE);
      MakeReadyFrame(s1, p);
      MakeReadyProcs(s1, p);
      hide MakeReady;
      assert CountOk(s.sems[k]) ==> s.sems[k].q != [];
      assert s.procs[p := s.procs[p].(state := Ready)] == Readied(s.procs, s.sems[k].q[..1]);
    } else {
      NoneWaits(s.sems[k]);
      assert Readied(s.procs, []) == s.procs;
    }
  }

  lemma NoneWaits(sem: Sem)
    requires CountOk(sem) && sem.count >= 0
    ensures sem.q == []
  {}

  lemma ReadiedMore(procs: seq<Proc>, a: seq<int>, b: seq<int>)
    ensures Readied(Readied(procs, a), b) == Readied(procs, a + b)
  {}

  lemma {:induction false} SignalLoopMeaning(s: Sched, k: int, n: nat)
    requires Deferred(s, NONE) && SemUsed(s, k)
    ensures var (m, t) := (WokenBy(s.sems[k], n), SignalLoop(s, k, n));
      t.procs == Readied(s.procs, s.sems[k].q[..m])
        && t.sems == s.sems[k := s.sems[k].(count := s.sems[k].count + n, q := s.sems[k].q[m..])]
    decreases n
  {
    hide Deferred, Signal, Readied, WokenBy;
    if n == 0 {
      NoneWoken(s.sems[k]);
      ReadiedNone(s.procs);
    } else {
      SignalOnce(s, k);
      SignalLater(s, k);
      SignalLoopMeaning(Signal(s, k), k, n - 1);
      MoreWoken(s.procs, s.sems[k], n);
    }
  }

  lemma NoneWoken(sem: Sem)
    ensures WokenBy(sem, 0) == 0 && sem.q[..0] == [] && sem.(count := sem.count + 0, q := sem.q[0..]) == sem
  {}

  /** One release, and then those of the other signals. */
  lemma MoreWoken(procs: seq<Proc>, sem: Sem, n: nat)
    requires n > 0
    ensures WokenBy(sem, 1) <= |sem.q| && WokenBy(sem, n) <= |sem.q|
    ensures var (m1, m) := (WokenBy(sem, 1), WokenBy(sem, n));
      var rest := sem.(count := sem.count + 1, q := sem.q[m1..]);
      && WokenBy(rest, n - 1) == m - m1
      && Readied(Readied(procs, sem.q[..m1]), rest.q[..m - m1]) == Readied(procs, sem.q[..m])
      && rest.q[m - m1..] == sem.q[m..]
  {
    hide Readied;
    var (m1, m) := (WokenBy(sem, 1), WokenBy(sem, n));
    ReadiedMore(procs, sem.q[..m1], sem.q[m1..][..m - m1]);
    assert sem.q[..m1] + sem.q[m1..][..m - m1] == sem.q[..m];
  }

  lemma ReadiedNone(procs: seq<Proc>)
    ensures Readied(procs, []) == procs
  {}

  lemma ReleaseOnce(s: Sched, k: int)
    requires Deferred(s, k) && 0 <= k < |s.sems| && s.sems[k].q != []
    ensures Release(s, k).procs == Readied(s.procs, s.sems[k].q[..1])
    ensures Release(s, k).sems == s.sems[k := s.sems[k].(q := s.sems[k].q[1..])]
  {
    hide Weak;
    PopHead(s, k, s.sems[k].(q := s.sems[k].q[1..]), k);
    var s1 := SetSem(s, k, s.sems[k].(q := s.sems[k].q[1..]));
    var p := s.sems[k].q[0];
    ReadyLater(s1, p, k);
    MakeReadyFrame(s1, p);
    MakeReadyProcs(s1, p);
    hide MakeReady, ReadyP;
    assert s.procs[p := s.procs[p].(state := Ready)] == Readied(s.procs, s.sems[k].q[..1]);
  }

  lemma {:induction false} DrainMeaning(s: Sched, k: int, n: nat)
    requires Deferred(s, k) && 0 <= k < |s.sems| && n <= |s.sems[k].q|
    ensures Drain(s, k, n).procs == Readied(s.procs, s.sems[k].q[..n])
    ensures Drain(s, k, n).sems == s.sems[k := s.sems[k].(q := s.sems[k].q[n..])]
    decreases n
  {
    hide Deferred, Release, Readied;
    var q := s.sems[k].q;
    if n == 0 {
      ReadiedNone(s.procs);
    } else {
      ReleaseOnce(s, k);
      ReleaseLater(s, k);
      DrainMeaning(Release(s, k), k, n - 1);
      ReadiedMore(s.procs, q[..1], q[1..][..n - 1]);
      assert q[..1] + q[1..][..n - 1] == q[..n] && q[1..][n - 1..] == q[n..];
    }
  }

  /** The processes of ps that exist, whatever they wait for. */
  function Framed(procs: seq<Proc>, ps: seq<int>): (r: seq<Proc>)
    ensures |r| == |procs|
  {
    seq(|procs|, p requires 0 <= p < |procs| => if p in ps && procs[p].state != Free then procs[p].(state := Ready)
    else procs[p])
  }

  lemma {:induction false} ReadyFramesMeaning(s: Sched, ps: seq<int>)
    requires Deferred(s, NONE) && WakeFits(s.procs, ps)
    ensures ReadyFrames(s, ps).procs == Framed(s.procs, ps) && ReadyFrames(s, ps).sems == s.sems
    decreases |ps|
  {
    hide Deferred, ReadyP;
    if ps == [] {
      assert Framed(s.procs, ps) == s.procs;
    } else {
      assert forall p :: p in ps <==> p == ps[0] || p in ps[1..];
      FrameLater(s, ps[0]);
      var s1 := ReadyP(s, ps[0]);
      FitsRest(s, ps, s1.procs);
      ReadyFramesMeaning(s1, ps[1..]);
      assert Framed(s1.procs, ps[1..]) == Framed(s.procs, ps);
    }
  }

  // ---- the calls ----

  /** The step went from s to u, and then the processor may have changed hands. */
  lemma FromNear(s: Sched, op: Op, u: Sched, t: Sched)
    requires SameNear(u, t) && |u.procs| == |s.procs| && |u.sems| == |s.sems|
    requires forall p :: 0 <= p < |s.procs| ==> u.procs[p] == Meant(s, op, p)
    requires forall k :: 0 <= k < |s.sems| ==> u.sems[k] == MeantSem(s, op, k)
    ensures AsMeant(s, op, t)
  {
    hide Meant, MeantSem;
    assert forall p :: 0 <= p < |s.procs| ==> Near(u.procs[p], t.procs[p]);
  }

  lemma WaitMeaning(s: Sched, k: int)
    requires Inv(s) && Enabled(s, OpWait(k))
    ensures AsMeant(s, OpWait(k), Wait(s, k))
  {
    hide Weak, Resched;
    CurrIn(s);
    if SemUsed(s, k) && s.sems[k].count <= 0 {
      SetAside(s, s.curr, NONE);
      GiveWait(s, s.curr, k);
      WaitIs(s, k);
      var sem := s.sems[k].(count := s.sems[k].count - 1, q := s.sems[k].q + [s.curr]);
      var u := SetSem(s.(procs := s.procs[s.curr := s.procs[s.curr].(state := Waiting, sem := k)]), k, sem);
      ReschedNear(u);
      FromNear(s, OpWait(k), u, Wait(s, k));
    } else {
      FromNear(s, OpWait(k), Wait(s, k), Wait(s, k));
    }
  }

  lemma SignalMeaning(s: Sched, k: int)
    requires Inv(s)
    ensures AsMeant(s, OpSignal(k), Signal(s, k))
  {
    hide Weak, ReadyP, CountOk;
    var op := OpSignal(k);
    if !SemUsed(s, k) {
      FromNear(s, op, s, s);
    } else {
      QueueCount(s, k);
      if s.sems[k].count < 0 {
        SignalWakes(s, k);
        var p := s.sems[k].q[0];
        var s1 := SetSem(s, k, s.sems[k].(count := s.sems[k].count + 1, q := s.sems[k].q[1..]));
        ReadyNear(s1, p);
        var u := s1.(procs := s1.procs[p := s1.procs[p].(state := Ready)]);
        assert s.sems[k].q[..1] == [p];
        FromNear(s, op, u, Signal(s, k));
      } else {
        NoneWaits(s.sems[k]);
        FromNear(s, op, Signal(s, k), Signal(s, k));
      }
    }
  }

  lemma SignalnMeaning(s: Sched, k: int, n: int)
    requires Inv(s)
    ensures AsMeant(s, OpSignaln(k, n), Signaln(s, k, n))
  {
    hide Inv, Deferred, DeferStop, SignalLoop;
    var op := OpSignaln(k, n);
    if n < 0 || !SemUsed(s, k) {
      FromNear(s, op, s, s);
    } else {
      DeferStartOk(s);
      SignalLoopOk(DeferStart(s), k, n);
      SignalLoopMeaning(DeferStart(s), k, n);
      var u := SignalLoop(DeferStart(s), k, n);
      StopNear(u);
      FromNear(s, op, u, Signaln(s, k, n));
    }
  }

  lemma SemresetMeaning(s: Sched, k: int, n: int)
    requires Inv(s)
    ensures AsMeant(s, OpSemreset(k, n), Semreset(s, k, n))
  {
    hide Inv, Deferred, DeferStop, Drain, CountOk;
    var op := OpSemreset(k, n);
    if n < 0 || !SemUsed(s, k) {
      FromNear(s, op, s, s);
    } else {
      var s0 := DeferStart(s);
      DeferStartOk(s);
      DeferredWaive(s0, k, s0.sems[k]);
      assert SetSem(s0, k, s0.sems[k]) == s0;
      var all := |s.sems[k].q|;
      DrainOk(s0, k, all);
      DrainMeaning(s0, k, all);
      assert s.sems[k].q[..all] == s.sems[k].q && s.sems[k].q[all..] == [];
      var s1 := Drain(s0, k, all);
      EmptyCount(s1.sems[k].(count := n));
      DeferredUnwaive(s1, k, s1.sems[k].(count := n));
      var u := SetSem(s1, k, s1.sems[k].(count := n));
      StopNear(u);
      FromNear(s, op, u, Semreset(s, k, n));
    }
  }

  lemma SemdeleteMeaning(s: Sched, k: int)
    requires Inv(s)
    ensures AsMeant(s, OpSemdelete(k), Semdelete(s, k))
  {
    hide Inv, Deferred, DeferStop, Drain, CountOk;
    var op := OpSemdelete(k);
    if !SemUsed(s, k) {
      FromNear(s, op, s, s);
    } else {
      var n := |s.sems[k].q|;
      InvCount(s, k);
      var free := s.sems[k].(used := false);
      DeferStartOk(s);
      DeferredWaive(DeferStart(s), k, free);
      var s0 := DeferStart(SetSem(s, k, free));
      assert s0 == SetSem(DeferStart(s), k, free);
      DrainOk(s0, k, n);
      DrainMeaning(s0, k, n);
      assert s.sems[k].q[..n] == s.sems[k].q && s.sems[k].q[n..] == [];
      var s1 := Drain(s0, k, n);
      var sem := s1.sems[k].(count := s1.sems[k].count + n + 1);
      EmptyCount(sem);
      DeferredUnwaive(s1, k, sem);
      var u := SetSem(s1, k, sem);
      StopNear(u);
      FromNear(s, op, u, Semdelete(s, k));
    }
  }

  lemma SendMeaning(s: Sched, p: int, msg: int)
    requires Inv(s)
    ensures AsMeant(s, OpSend(p, msg), Send(s, p, msg))
  {
    hide Weak, ReadyP, Distinct, On, RemoveD;
    var op := OpSend(p, msg);
    if Bad(s, p) || s.procs[p].hasmsg {
      FromNear(s, op, s, s);
    } else {
      var s1 := s.(procs := s.procs[p := s.procs[p].(hasmsg := true, msg := msg)]);
      SetMsg(s, p, s1.procs[p]);
      if s.procs[p].state == Recv {
        SetAside(s1, p, NONE);
        ReadyNear(s1, p);
        FromNear(s, op, s1.(procs := s1.procs[p := s1.procs[p].(state := Ready)]), Send(s, p, msg));
      } else if s.procs[p].state == RecTim {
        SleepDistinct(s1);
        RemovedOn(s1.sleep, p);
        LeaveSleep(s1, p, NONE, RemoveD(s1.sleep, p));
        var s2 := s1.(sleep := RemoveD(s1.sleep, p));
        ReadyNear(s2, p);
        FromNear(s, op, s2.(procs := s2.procs[p := s2.procs[p].(state := Ready)]), Send(s, p, msg));
      } else {
        FromNear(s, op, s1, s1);
      }
    }
  }

  /** The current process blocks. */
  lemma BlockNear(s: Sched, st: PState)
    requires Inv(s) && s.curr != NULLPROC && Loose(st) && st != Curr
    ensures InTab(s, s.curr) && SameNear(SetState(s, s.curr, st), Resched(SetState(s, s.curr, st)))
  {
    hide Weak, Resched;
    CurrIn(s);
    SetAside(s, s.curr, NONE);
    GiveLoose(s, s.curr, NONE, s.procs[s.curr].(state := st));
    ReschedNear(SetState(s, s.curr, st));
  }

  lemma SleepNear(s: Sched, key: int, st: PState)
    requires Inv(s) && s.curr != NULLPROC && Asleep(st)
    ensures InTab(s, s.curr)
    ensures SameNear(SetState(s.(sleep := InsertD(s.sleep, s.curr, key)), s.curr, st),
      Resched(SetState(s.(sleep := InsertD(s.sleep, s.curr, key)), s.curr, st)))
  {
    hide Weak, Resched, InsertD;
    CurrIn(s);
    SetAside(s, s.curr, NONE);
    GiveSleep(s, s.curr, NONE, key, st);
    ReschedNear(SetState(s.(sleep := InsertD(s.sleep, s.curr, key)), s.curr, st));
  }

  lemma MessageMeaning(s: Sched, op: Op)
    requires Inv(s) && Enabled(s, op)
    requires op.OpReceive? || op.OpTakeMsg? || op.OpRecvtime? || op.OpSleepms? || op.OpFrameBlock?
    ensures AsMeant(s, op, Step(s, op))
  {
    hide Inv, Enabled, AsMeant, Step;
    if op.OpRecvtime? || op.OpSleepms? { TimedMeaning(s, op); } else { ReceiveMeaning(s, op); }
  }

  lemma ReceiveMeaning(s: Sched, op: Op)
    requires Inv(s) && Enabled(s, op) && (op.OpReceive? || op.OpTakeMsg? || op.OpFrameBlock?)
    ensures AsMeant(s, op, Step(s, op))
  {
    hide Weak, Resched, AsMeant;
    CurrIn(s);
    match op {
      case OpReceive =>
        if s.procs[s.curr].hasmsg {
          FromNear(s, op, s, s);
        } else {
          BlockNear(s, Recv);
          FromNear(s, op, SetState(s, s.curr, Recv), Step(s, op));
        }
      case OpTakeMsg => FromNear(s, op, TakeMsg(s), TakeMsg(s));
      case OpFrameBlock => BlockNear(s, Frame); FromNear(s, op, SetState(s, s.curr, Frame), Step(s, op));
    }
  }

  lemma TimedMeaning(s: Sched, op: Op)
    requires Inv(s) && Enabled(s, op) && (op.OpRecvtime? || op.OpSleepms?)
    ensures AsMeant(s, op, Step(s, op))
  {
    hide Weak, Resched, InsertD, AsMeant;
    CurrIn(s);
    match op {
      case OpRecvtime(maxwait) =>
        if maxwait < 0 || s.procs[s.curr].hasmsg {
          FromNear(s, op, s, s);
        } else {
          SleepNear(s, maxwait, RecTim);
          FromNear(s, op, SetState(s.(sleep := InsertD(s.sleep, s.curr, maxwait)), s.curr, RecTim), Step(s, op));
        }
      case OpSleepms(delay) =>
        if delay == 0 {
          ReschedNear(s);
          FromNear(s, op, s, Step(s, op));
        } else {
          SleepNear(s, Signed(delay), Sleep);
          FromNear(s, op, SetState(s.(sleep := InsertD(s.sleep, s.curr, Signed(delay))), s.curr, Sleep), Step(s, op));
        }
    }
  }

  lemma SuspendMeaning(s: Sched, op: Op)
    requires Inv(s) && Enabled(s, op)
    requires op.OpSuspend? || op.OpResume? || op.OpCreate? || op.OpSemcreate? || op.OpYield? || op.OpSlice?
    ensures AsMeant(s, op, Step(s, op))
  {
    hide Inv, Enabled, AsMeant, Step;
    if op.OpYield? || op.OpSlice? { YieldMeaning(s, op); } else { ResumeMeaning(s, op); }
  }

  lemma ResumeMeaning(s: Sched, op: Op)
    requires Inv(s) && Enabled(s, op) && (op.OpSuspend? || op.OpResume? || op.OpCreate? || op.OpSemcreate?)
    ensures AsMeant(s, op, Step(s, op))
  {
    hide Weak, Resched, ReadyP, Unlink, AsMeant;
    match op {
      case OpSuspend(p) =>
        if InTab(s, p) && p != NULLPROC && s.procs[p].state == Curr {
          OneCurr(s, p);
          BlockNear(s, Susp);
          FromNear(s, op, SetState(s, p, Susp), Step(s, op));
        } else {
          FromNear(s, op, Step(s, op), Step(s, op));
        }
      case OpResume(p) =>
        if InTab(s, p) && s.procs[p].state == Susp {
          SetAside(s, p, NONE);
          ReadyNear(s, p);
          FromNear(s, op, s.(procs := s.procs[p := s.procs[p].(state := Ready)]), Step(s, op));
        } else {
          FromNear(s, op, s, s);
        }
      case OpCreate(p, prio) => FromNear(s, op, Step(s, op), Step(s, op));
      case OpSemcreate(k, n) => FromNear(s, op, Step(s, op), Step(s, op));
    }
  }

  lemma YieldMeaning(s: Sched, op: Op)
    requires Inv(s) && Enabled(s, op) && (op.OpYield? || op.OpSlice?)
    ensures AsMeant(s, op, Step(s, op))
  {
    hide Weak, Resched, AsMeant;
    match op {
      case OpYield => ReschedNear(s); FromNear(s, op, s, Step(s, op));
      case OpSlice =>
        WeakAttempt(s, NONE, NONE, s.attempt, 0, QUANTUM);
        ReschedNear(s.(preempt := QUANTUM));
        FromNear(s, op, s, Step(s, op));
    }
  }

  lemma KillMeaning(s: Sched, p: int)
    requires Inv(s)
    ensures AsMeant(s, OpKillEnd(p), KillEnd(s, p))
  {
    hide Weak, Resched, Unlink, RemoveD, Without;
    var op := OpKillEnd(p);
    if InTab(s, p) && p != NULLPROC && s.procs[p].state == Curr {
      OneCurr(s, p);
      BlockNear(s, Free);
      FromNear(s, op, SetState(s, p, Free), KillEnd(s, p));
    } else {
      if InTab(s, p) && s.procs[p].state == Waiting { WaitingIn(s, p); }
      FromNear(s, op, KillEnd(s, p), KillEnd(s, p));
    }
  }

  lemma WakeupMeaning(s: Sched, ps: seq<int>)
    requires Inv(s) && WakeFits(s.procs, ps)
    ensures AsMeant(s, OpFrameWakeup(ps), FrameWakeup(s, ps))
  {
    hide Inv, Deferred, DeferStop, ReadyFrames;
    DeferStartOk(s);
    ReadyFramesOk(DeferStart(s), ps);
    ReadyFramesMeaning(DeferStart(s), ps);
    var u := ReadyFrames(DeferStart(s), ps);
    StopNear(u);
    FromNear(s, OpFrameWakeup(ps), u, FrameWakeup(s, ps));
  }

  lemma TickMeaning(s: Sched)
    requires Inv(s)
    ensures AsMeant(s, OpTick, Tick(s))
  {
    hide Weak, Deferred, DeferStop, WakeLoop, Distinct, On, Expired, Unexpired;
    var s1 := s.(sleep := Down(s.sleep));
    if s.sleep != [] && s1.sleep[0].key <= 0 {
      DownOk(s);
      DeferStartOk(s1);
      WakeLoopOk(DeferStart(s1));
      var u := WakeLoop(DeferStart(s1));
      StopNear(u);
      TickIs(s);
      FromNear(s, OpTick, u, Tick(s));
    } else {
      FromNear(s, OpTick, Tick(s), Tick(s));
    }
  }

  /** Every call and every tick does to every process and every semaphore exactly what it means;
      together with the invariant, which says what the ready list is and who is current, this leaves
      nothing of the new state open but the order of equals. */
  lemma StepMeaning(s: Sched, op: Op)
    requires Inv(s) && Enabled(s, op)
    ensures AsMeant(s, op, Step(s, op))
  {
    hide Inv, AsMeant, Wait, Signal, Signaln, Semreset, Semdelete, Send, KillEnd, FrameWakeup, Tick;
    match op {
      case OpWait(k) => WaitMeaning(s, k);
      case OpSignal(k) => SignalMeaning(s, k);
      case OpSignaln(k, n) => SignalnMeaning(s, k, n);
      case OpSemreset(k, n) => SemresetMeaning(s, k, n);
      case OpSemdelete(k) => SemdeleteMeaning(s, k);
      case OpSend(p, msg) => SendMeaning(s, p, msg);
      case OpKillEnd(p) => KillMeaning(s, p);
      case OpFrameWakeup(ps) => WakeupMeaning(s, ps);
      case OpTick => TickMeaning(s);
      case OpSuspend(_) => SuspendMeaning(s, op);
      case OpResume(_) => SuspendMeaning(s, op);
      case OpCreate(_, _) => SuspendMeaning(s, op);
      case OpSemcreate(_, _) => SuspendMeaning(s, op);
      case OpYield => SuspendMeaning(s, op);
      case OpSlice => SuspendMeaning(s, op);
      case _ => MessageMeaning(s, op);
    }
  }

  // ---- messages over whole runs ----

  /** The operation takes the message of p or ends p. */
  predicate Takes(s: Sched, op: Op, p: int) {
    (op.OpTakeMsg? && s.curr == p) || (op.OpKillEnd? && op.p == p) || (op.OpCreate? && op.p == p)
  }

  ghost predicate NobodyTakes(s: Sched, ops: seq<Op>, p: int)
    decreases |ops|
  {
    ops != [] ==> !Takes(s, ops[0], p) && NobodyTakes(Step(s, ops[0]), ops[1..], p)
  }

  /** A message that has been sent is neither lost nor overwritten before its receiver takes it. */
  lemma {:induction false} MessageKept(s: Sched, ops: seq<Op>, p: int)
    requires Inv(s) && Allowed(s, ops) && NobodyTakes(s, ops, p) && InTab(s, p) && s.procs[p].hasmsg
    ensures InTab(Run(s, ops), p) && Run(s, ops).procs[p].hasmsg && Run(s, ops).procs[p].msg == s.procs[p].msg
    decreases |ops|
  {
    hide Inv, Step, Enabled;
    if ops != [] {
      StepOk(s, ops[0]);
      StepMeaning(s, ops[0]);
      assert Near(Meant(s, ops[0], p), Step(s, ops[0]).procs[p]);
      MessageKept(Step(s, ops[0]), ops[1..], p);
    }
  }

  /** Nobody waits for a message that is there. */
  ghost predicate NoneIgnored(s: Sched) { forall p :: 0 <= p < |s.procs| && s.procs[p].state == Recv ==>
    !s.procs[p].hasmsg }

  /** A process that has waited for a message goes on only when one has been sent to it, so that
      receive has a message to take, unless its number is in the block queue. */
  lemma ReceiveReturns(s: Sched, op: Op)
    requires Inv(s) && Enabled(s, op) && NoneIgnored(s)
    ensures NoneIgnored(Step(s, op))
    ensures forall p ::
      InTab(s, p) && s.procs[p].state == Recv && InTab(Step(s, op), p) && Runs(Step(s, op).procs[p].state) ==>
        (Step(s, op).procs[p].hasmsg <==> !(op.OpFrameWakeup? && p in op.ps))
  {
    hide Inv;
    StepMeaning(s, op);
    CurrIn(s);
    hide Inv, Step, Enabled, Released, WokenBy;
    var t := Step(s, op);
    forall p | InTab(t, p)
      ensures t.procs[p].state == Recv ==> !t.procs[p].hasmsg
      ensures s.procs[p].state == Recv && Runs(t.procs[p].state) ==>
        (t.procs[p].hasmsg <==> !(op.OpFrameWakeup? && p in op.ps)) {
      assert Near(Meant(s, op, p), t.procs[p]);
      if Wakes(s, op, p) && s.procs[p].state == Recv && !op.OpFrameWakeup? { WakesWaiting(s, op, p); }
    }
  }

  /** Who is woken by a semaphore, by resume or by the clock. */
  lemma WakesWaiting(s: Sched, op: Op, p: int)
    requires Inv(s) && InTab(s, p) && Wakes(s, op, p) && !op.OpFrameWakeup?
    ensures s.procs[p].state == Waiting || s.procs[p].state == Susp || Asleep(s.procs[p].state)
  {
    hide Base, ReadyOk, CountOk, NoDup, Released, Distinct;
    if op.OpSignal? || op.OpSignaln? || op.OpSemreset? || op.OpSemdelete? {
      assert QueueOk(s.procs, op.k, s.sems[op.k].q, NONE);
      var i :| 0 <= i < |s.sems[op.k].q| && s.sems[op.k].q[i] == p;
      assert Waits(s.procs, op.k, s.sems[op.k].q[i]);
    } else if op.OpTick? {
      TickOn(s.sleep, p);
    }
  }

  /** In no reachable state does a process wait for a message that has been sent to it. */
  lemma {:induction false} NeverIgnored(s: Sched, ops: seq<Op>)
    requires Inv(s) && NoneIgnored(s) && Allowed(s, ops)
    ensures NoneIgnored(Run(s, ops))
    decreases |ops|
  {
    hide Inv, Step, Enabled, NoneIgnored;
    if ops != [] {
      StepOk(s, ops[0]);
      ReceiveReturns(s, ops[0]);
      NeverIgnored(Step(s, ops[0]), ops[1..]);
    }
  }
}
