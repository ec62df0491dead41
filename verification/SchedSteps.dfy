/** Every system call and the clock keep the scheduler's invariant. */
module SchedSteps {
  import opened Seqs
  import opened Delta
  import opened SchedSpec
  import opened SchedInv

  /** While rescheduling is deferred; an attempt is remembered when somebody has become ready. */
  ghost predicate Deferred(s: Sched, y: int) {
    && Weak(s, NONE, y) && s.ndefers == 1
    && (!s.attempt ==> s.procs[s.curr].state == Curr && forall i :: 0 <= i < |s.ready| ==>
      s.ready[i].key <= s.procs[s.curr].prio)
  }

  /** Nothing happens to the ready list. */
  lemma ReadySame(s: Sched)
    requires Inv(s)
    ensures Served(s.ready, s.ready)
  {
    hide Served;
    ReadyDistinct(s, NONE, NONE);
    ServedSame(s.ready);
  }

  // ---- becoming ready ----

  lemma ReadyNow(s: Sched, p: int)
    requires Weak(s, p, NONE) && InTab(s, p) && s.procs[p].state != Free && s.ndefers == 0
    ensures Inv(ReadyP(s, p)) && Served(s.ready, ReadyP(s, p).ready)
  {
    hide Weak, Inv, Served, Grown;
    GiveReady(s, p, NONE);
    ReschedOk(MakeReady(s, p));
    InsertGrown(s.ready, p, s.procs[p].prio);
    ServedGrown(s.ready, MakeReady(s, p).ready, ReadyP(s, p).ready);
  }

  lemma ReadyLater(s: Sched, p: int, y: int)
    requires Weak(s, p, y) && InTab(s, p) && s.procs[p].state != Free && s.ndefers == 1
    ensures Deferred(ReadyP(s, p), y) && Grown(s.ready, ReadyP(s, p).ready)
    ensures ReadyP(s, p) == MakeReady(s, p).(attempt := true)
  {
    InsertGrown(s.ready, p, s.procs[p].prio);
    hide Grown;
    GiveReady(s, p, y);
    hide Base, ReadyOk, SleepOk, SemsOk, MakeReady;
    assert MakeReady(s, p).ndefers == 1 by { MakeReadyFrame(s, p); }
    WeakAttempt(MakeReady(s, p), NONE, y, true, 1, s.preempt);
  }

  lemma MakeReadyFrame(s: Sched, p: int)
    requires InTab(s, p)
    ensures var r := MakeReady(s, p);
      r.ndefers == s.ndefers && r.sems == s.sems && r.sleep == s.sleep && r.curr == s.curr && |r.procs| == |s.procs|
        && r.preempt == s.preempt
  {}

  /** The invariant does not read the deferral counters and the time slice. */
  lemma WeakAttempt(s: Sched, x: int, y: int, attempt: bool, n: int, preempt: int)
    requires Weak(s, x, y)
    ensures Weak(s.(attempt := attempt, ndefers := n, preempt := preempt), x, y)
  {
    hide Base, ReadyOk, SleepOk, SemsOk;
  }

  lemma DeferStartOk(s: Sched)
    requires Inv(s)
    ensures Deferred(DeferStart(s), NONE) && DeferStart(s).ready == s.ready
  {
    hide Base, ReadyOk, SleepOk, SemsOk;
  }

  lemma DeferStopOk(s: Sched)
    requires Deferred(s, NONE)
    ensures Inv(DeferStop(s)) && Served(s.ready, DeferStop(s).ready)
  {
    hide Base, ReadyOk, SleepOk, SemsOk, Resched, Served;
    WeakAttempt(s, NONE, NONE, s.attempt, 0, s.preempt);
    if s.attempt {
      ReschedOk(s.(ndefers := 0));
    } else {
      ReadyDistinct(s, NONE, NONE);
      ServedSame(s.ready);
    }
  }

  // ---- semaphores ----

  /** Any change of the count may be set aside, and is in order when it agrees with the queue. */
  lemma Waive(s: Sched, x: int, k: int, sem: Sem)
    requires Weak(s, x, NONE) && 0 <= k < |s.sems| && sem.q == s.sems[k].q
    ensures Weak(SetSem(s, k, sem), x, k) && (CountOk(sem) ==> Weak(SetSem(s, k, sem), x, NONE))
  {
    hide Base, ReadyOk, SleepOk, CountOk, QueueOk;
    assert forall m :: 0 <= m < |s.sems| ==> SetSem(s, k, sem).sems[m].q == s.sems[m].q;
  }

  lemma Unwaive(s: Sched, x: int, k: int, sem: Sem)
    requires Weak(s, x, k) && 0 <= k < |s.sems| && sem.q == s.sems[k].q && CountOk(sem)
    ensures Weak(SetSem(s, k, sem), x, NONE)
  {
    hide Base, ReadyOk, SleepOk, CountOk, QueueOk;
    assert forall m :: 0 <= m < |s.sems| ==> SetSem(s, k, sem).sems[m].q == s.sems[m].q;
  }

  /** The first process of a queue is waiting for its semaphore. */
  lemma HeadWaits(s: Sched, k: int, y: int)
    requires Weak(s, NONE, y) && 0 <= k < |s.sems| && s.sems[k].q != []
    ensures InTab(s, s.sems[k].q[0]) && Waits(s.procs, k, s.sems[k].q[0])
    ensures NoDup(s.sems[k].q[1..])
    ensures forall q :: q in s.sems[k].q[1..] <==> q in s.sems[k].q && q != s.sems[k].q[0]
  {
    assert QueueOk(s.procs, k, s.sems[k].q, NONE);
    TailMembers(s.sems[k].q);
  }

  lemma PopHead(s: Sched, k: int, sem: Sem, y: int)
    requires Weak(s, NONE, y) && 0 <= k < |s.sems| && s.sems[k].q != [] && sem.q == s.sems[k].q[1..]
      && (k != y ==> CountOk(sem))
    ensures InTab(s, s.sems[k].q[0]) && Weak(SetSem(s, k, sem), s.sems[k].q[0], y)
    ensures SetSem(s, k, sem).procs == s.procs && s.procs[s.sems[k].q[0]].state == Waiting
  {
    hide Weak, NoDup, CountOk;
    HeadWaits(s, k, y);
    LeaveSem(s, k, s.sems[k].q[0], y, sem);
  }

  /** Waiting processes are numbered by the count. */
  lemma QueueCount(s: Sched, k: int)
    requires Weak(s, NONE, NONE) && 0 <= k < |s.sems|
    ensures CountOk(s.sems[k])
  {
    hide Base, ReadyOk, SleepOk, QueueOk, CountOk;
  }

  lemma SignalWakes(s: Sched, k: int)
    requires Weak(s, NONE, NONE) && SemUsed(s, k) && s.sems[k].count < 0
    ensures s.sems[k].q != [] && InTab(s, s.sems[k].q[0]) && s.procs[s.sems[k].q[0]].state == Waiting
    ensures var sem := s.sems[k].(count := s.sems[k].count + 1, q := s.sems[k].q[1..]);
      && Weak(SetSem(s, k, sem), s.sems[k].q[0], NONE) && Signal(s, k) == ReadyP(SetSem(s, k, sem), s.sems[k].q[0])
  {
    hide Weak, ReadyP;
    QueueCount(s, k);
    PopHead(s, k, s.sems[k].(count := s.sems[k].count + 1, q := s.sems[k].q[1..]), NONE);
    SignalIs(s, k);
  }

  lemma SignalIs(s: Sched, k: int)
    requires SemUsed(s, k) && s.sems[k].count < 0 && s.sems[k].q != []
    ensures Signal(s, k) == ReadyP(SetSem(s, k, s.sems[k].(count := s.sems[k].count + 1, q := s.sems[k].q[1..])),
      s.sems[k].q[0])
  {
    hide ReadyP;
    var s1 := SetSem(s, k, s.sems[k].(count := s.sems[k].count + 1));
    assert SetSem(s1, k, s1.sems[k].(q := s1.sems[k].q[1..]))
      == SetSem(s, k, s.sems[k].(count := s.sems[k].count + 1, q := s.sems[k].q[1..]));
  }

  lemma CountUp(sem: Sem)
    requires CountOk(sem) && sem.used && sem.count >= 0
    ensures CountOk(sem.(count := sem.count + 1))
  {}

  lemma SignalOk(s: Sched, k: int)
    requires Inv(s)
    ensures Inv(Signal(s, k)) && Served(s.ready, Signal(s, k).ready)
  {
    hide Served, Grown;
    ReadySame(s);
    if SemUsed(s, k) {
      if s.sems[k].count < 0 {
        SignalWakes(s, k);
        hide Weak, ReadyP;
        ReadyNow(SetSem(s, k, s.sems[k].(count := s.sems[k].count + 1, q := s.sems[k].q[1..])), s.sems[k].q[0]);
      } else {
        QueueCount(s, k);
        CountUp(s.sems[k]);
        Waive(s, NONE, k, s.sems[k].(count := s.sems[k].count + 1));
        hide Weak;
      }
    }
  }

  lemma SignalLater(s: Sched, k: int)
    requires Deferred(s, NONE)
    ensures Deferred(Signal(s, k), NONE) && Grown(s.ready, Signal(s, k).ready)
  {
    hide Served;
    if SemUsed(s, k) {
      if s.sems[k].count < 0 {
        SignalWakes(s, k);
        hide Weak, ReadyP;
        ReadyLater(SetSem(s, k, s.sems[k].(count := s.sems[k].count + 1, q := s.sems[k].q[1..])), s.sems[k].q[0], NONE);
      } else {
        QueueCount(s, k);
        CountUp(s.sems[k]);
        Waive(s, NONE, k, s.sems[k].(count := s.sems[k].count + 1));
        hide Weak;
      }
    }
  }

  lemma {:induction false} SignalLoopOk(s: Sched, k: int, n: nat)
    requires Deferred(s, NONE)
    ensures Deferred(SignalLoop(s, k, n), NONE) && Grown(s.ready, SignalLoop(s, k, n).ready)
    decreases n
  {
    hide Served;
    hide Deferred, Signal;
    if n > 0 {
      SignalLater(s, k);
      SignalLoopOk(Signal(s, k), k, n - 1);
    }
  }

  lemma SignalnOk(s: Sched, k: int, n: int)
    requires Inv(s)
    ensures Inv(Signaln(s, k, n)) && Served(s.ready, Signaln(s, k, n).ready)
  {
    hide Served, Grown, Inv, Deferred, DeferStart, DeferStop, SignalLoop;
    ReadySame(s);
    if n >= 0 && SemUsed(s, k) {
      DeferStartOk(s);
      SignalLoopOk(DeferStart(s), k, n);
      var s1 := SignalLoop(DeferStart(s), k, n);
      DeferStopOk(s1);
      ServedGrown(s.ready, s1.ready, DeferStop(s1).ready);
    }
  }

  /** The current process may block unless it is the null process. */
  lemma WaitOk(s: Sched, k: int)
    requires Inv(s) && (SemUsed(s, k) && s.sems[k].count <= 0 ==> s.curr != NULLPROC)
    ensures Inv(Wait(s, k)) && Served(s.ready, Wait(s, k).ready)
  {
    hide Served, Grown;
    ReadySame(s);
    if SemUsed(s, k) {
      CurrIn(s);
      QueueCount(s, k);
      if s.sems[k].count > 0 {
        Waive(s, NONE, k, s.sems[k].(count := s.sems[k].count - 1));
        hide Weak;
      } else {
        hide Base, ReadyOk, SleepOk, SemsOk;
        SetAside(s, s.curr, NONE);
        GiveWait(s, s.curr, k);
        var sem := s.sems[k].(count := s.sems[k].count - 1, q := s.sems[k].q + [s.curr]);
        var s1 := SetSem(s.(procs := s.procs[s.curr := s.procs[s.curr].(state := Waiting, sem := k)]), k, sem);
        hide Weak, Resched;
        ReschedOk(s1);
        WaitIs(s, k);
      }
    }
  }

  lemma WaitIs(s: Sched, k: int)
    requires SemUsed(s, k) && InTab(s, s.curr) && s.sems[k].count <= 0
    ensures var sem := s.sems[k].(count := s.sems[k].count - 1, q := s.sems[k].q + [s.curr]);
      Wait(s, k) == Resched(SetSem(s.(procs := s.procs[s.curr := s.procs[s.curr].(state := Waiting, sem := k)]), k,
        sem))
  {
    hide Resched;
  }

  lemma CurrIn(s: Sched)
    requires Inv(s)
    ensures InTab(s, s.curr) && s.procs[s.curr].state == Curr && MINKEY < s.procs[s.curr].prio <= MAXKEY
  {
    hide ReadyOk, SleepOk, SemsOk;
  }

  // ---- semreset and semdelete ----

  lemma ReleaseLater(s: Sched, k: int)
    requires Deferred(s, k) && 0 <= k < |s.sems| && s.sems[k].q != []
    ensures Deferred(Release(s, k), k) && Grown(s.ready, Release(s, k).ready) && |Release(s, k).sems| == |s.sems|
    ensures Release(s, k).sems[k] == s.sems[k].(q := s.sems[k].q[1..])
  {
    hide Served;
    PopHead(s, k, s.sems[k].(q := s.sems[k].q[1..]), k);
    hide Weak;
    var s1 := SetSem(s, k, s.sems[k].(q := s.sems[k].q[1..]));
    ReadyLater(s1, s.sems[k].q[0], k);
    MakeReadyFrame(s1, s.sems[k].q[0]);
  }

  lemma {:induction false} DrainOk(s: Sched, k: int, n: nat)
    requires Deferred(s, k) && 0 <= k < |s.sems| && n <= |s.sems[k].q|
    ensures Deferred(Drain(s, k, n), k) && Grown(s.ready, Drain(s, k, n).ready) && |Drain(s, k, n).sems| == |s.sems|
    ensures Drain(s, k, n).sems[k] == s.sems[k].(q := s.sems[k].q[n..])
    decreases n
  {
    hide Served;
    hide Deferred, Release;
    if n > 0 {
      ReleaseLater(s, k);
      DrainOk(Release(s, k), k, n - 1);
      assert s.sems[k].q[1..][n - 1..] == s.sems[k].q[n..];
    }
  }

  lemma DeferredWaive(s: Sched, k: int, sem: Sem)
    requires Deferred(s, NONE) && 0 <= k < |s.sems| && sem.q == s.sems[k].q
    ensures Deferred(SetSem(s, k, sem), k)
  {
    Waive(s, NONE, k, sem);
    hide Weak;
  }

  lemma DeferredUnwaive(s: Sched, k: int, sem: Sem)
    requires Deferred(s, k) && 0 <= k < |s.sems| && sem.q == s.sems[k].q && CountOk(sem)
    ensures Deferred(SetSem(s, k, sem), NONE)
  {
    Unwaive(s, NONE, k, sem);
    hide Weak;
  }

  lemma SemresetOk(s: Sched, k: int, n: int)
    requires Inv(s)
    ensures Inv(Semreset(s, k, n)) && Served(s.ready, Semreset(s, k, n).ready)
  {
    hide Served, Grown, Inv, Deferred, DeferStop, Drain, CountOk;
    ReadySame(s);
    if n >= 0 && SemUsed(s, k) {
      var s0 := DeferStart(s);
      DeferStartOk(s);
      DeferredWaive(s0, k, s0.sems[k]);
      assert SetSem(s0, k, s0.sems[k]) == s0;
      DrainOk(s0, k, |s.sems[k].q|);
      var s1 := Drain(s0, k, |s.sems[k].q|);
      EmptyCount(s1.sems[k].(count := n));
      DeferredUnwaive(s1, k, s1.sems[k].(count := n));
      var s2 := SetSem(s1, k, s1.sems[k].(count := n));
      DeferStopOk(s2);
      ServedGrown(s.ready, s2.ready, DeferStop(s2).ready);
    }
  }

  lemma SemdeleteOk(s: Sched, k: int)
    requires Inv(s)
    ensures Inv(Semdelete(s, k)) && Served(s.ready, Semdelete(s, k).ready)
  {
    hide Served, Grown, Inv, Deferred, CountOk, Drain, DeferStop;
    ReadySame(s);
    if SemUsed(s, k) {
      var n := if s.sems[k].count < 0 then -s.sems[k].count else 0;
      InvCount(s, k);
      var free := s.sems[k].(used := false);
      DeferStartOk(s);
      DeferredWaive(DeferStart(s), k, free);
      var s0 := DeferStart(SetSem(s, k, free));
      assert s0 == SetSem(DeferStart(s), k, free);
      DrainOk(s0, k, n);
      var s1 := Drain(s0, k, n);
      EmptyCount(s1.sems[k].(count := s1.sems[k].count + n + 1));
      DeferredUnwaive(s1, k, s1.sems[k].(count := s1.sems[k].count + n + 1));
      var s2 := SetSem(s1, k, s1.sems[k].(count := s1.sems[k].count + n + 1));
      DeferStopOk(s2);
      ServedGrown(s.ready, s2.ready, DeferStop(s2).ready);
    }
  }

  lemma InvCount(s: Sched, k: int)
    requires Inv(s) && SemUsed(s, k)
    ensures |s.sems[k].q| == if s.sems[k].count < 0 then -s.sems[k].count else 0
  {
    hide Weak;
    assert Weak(s, NONE, NONE);
    QueueCount(s, k);
  }

  lemma EmptyCount(sem: Sem)
    requires (!sem.used || sem.count >= 0) && sem.q == []
    ensures CountOk(sem)
  {}

  lemma SemcreateOk(s: Sched, k: int, n: int)
    requires Inv(s)
    ensures Inv(Semcreate(s, k, n)) && Served(s.ready, Semcreate(s, k, n).ready)
  {
    hide Served, Grown;
    ReadySame(s);
    if n >= 0 && 0 <= k < |s.sems| && !s.sems[k].used {
      QueueCount(s, k);
      Waive(s, NONE, k, s.sems[k].(used := true, count := n));
      hide Weak;
    }
  }

  // ---- messages, sleeping, suspending ----

  /** A change of the message fields alone. */
  lemma SetMsg(s: Sched, p: int, pr: Proc)
    requires Inv(s) && InTab(s, p) && pr.state == s.procs[p].state && pr.prio == s.procs[p].prio
      && pr.sem == s.procs[p].sem
    ensures Inv(s.(procs := s.procs[p := pr]))
  {
    hide Distinct, Descending, On, NoDup, CountOk;
    var procs := s.procs[p := pr];
    forall k | 0 <= k < |s.sems| ensures QueueOk(procs, k, s.sems[k].q, NONE) {
      assert QueueOk(s.procs, k, s.sems[k].q, NONE);
      assert forall q :: Waits(procs, k, q) <==> Waits(s.procs, k, q);
    }
    forall i | 0 <= i < |s.ready| ensures ReadyEnt(procs, s.ready[i], NONE) {
      assert ReadyEnt(s.procs, s.ready[i], NONE);
    }
  }

  lemma SendOk(s: Sched, p: int, msg: int)
    requires Inv(s)
    ensures Inv(Send(s, p, msg)) && Served(s.ready, Send(s, p, msg).ready)
  {
    hide Served, Grown;
    ReadySame(s);
    hide Inv;
    if !Bad(s, p) && !s.procs[p].hasmsg {
      var s1 := s.(procs := s.procs[p := s.procs[p].(hasmsg := true, msg := msg)]);
      SetMsg(s, p, s1.procs[p]);
      if s.procs[p].state == Recv {
        LooseReady(s1, p);
      } else if s.procs[p].state == RecTim {
        WakeSleeper(s1, p);
      }
    }
  }

  lemma LooseReady(s: Sched, p: int)
    requires Inv(s) && InTab(s, p) && Loose(s.procs[p].state) && s.procs[p].state != Free && s.procs[p].state != Curr
    ensures Inv(ReadyP(s, p)) && Served(s.ready, ReadyP(s, p).ready)
  {
    hide Served;
    hide Weak;
    SetAside(s, p, NONE);
    ReadyNow(s, p);
  }

  lemma RemovedOn(l: seq<Ent>, p: int)
    requires Distinct(l)
    ensures Distinct(RemoveD(l, p)) && forall q :: On(RemoveD(l, p), q) <==> On(l, q) && q != p
  {
    RemoveDDistinct(l, p);
    forall q { RemoveDOn(l, p, q); }
  }

  lemma SleepDistinct(s: Sched)
    requires Weak(s, NONE, NONE)
    ensures Distinct(s.sleep)
  {
    hide Base, ReadyOk, SemsOk, Distinct;
  }

  lemma WakeSleeper(s: Sched, p: int)
    requires Inv(s) && InTab(s, p) && Asleep(s.procs[p].state)
    ensures Inv(ReadyP(s.(sleep := RemoveD(s.sleep, p)), p))
      && Served(s.ready, ReadyP(s.(sleep := RemoveD(s.sleep, p)), p).ready)
  {
    hide Served;
    hide Weak, Distinct, On;
    SleepDistinct(s);
    RemovedOn(s.sleep, p);
    LeaveSleep(s, p, NONE, RemoveD(s.sleep, p));
    ReadyNow(s.(sleep := RemoveD(s.sleep, p)), p);
  }

  /** The current process, not the null process, gives up the processor for a state in which it is on
      no list. */
  lemma BlockLoose(s: Sched, st: PState)
    requires Inv(s) && s.curr != NULLPROC && Loose(st) && st != Curr
    ensures Inv(Resched(SetState(s, s.curr, st))) && Served(s.ready, Resched(SetState(s, s.curr, st)).ready)
  {
    hide Served;
    CurrIn(s);
    hide Base, ReadyOk, SleepOk, SemsOk;
    SetAside(s, s.curr, NONE);
    GiveLoose(s, s.curr, NONE, s.procs[s.curr].(state := st));
    ReschedOk(SetState(s, s.curr, st));
  }

  lemma BlockSleep(s: Sched, key: int, st: PState)
    requires Inv(s) && s.curr != NULLPROC && Asleep(st)
    ensures Inv(Resched(SetState(s.(sleep := InsertD(s.sleep, s.curr, key)), s.curr, st)))
      && Served(s.ready, Resched(SetState(s.(sleep := InsertD(s.sleep, s.curr, key)), s.curr, st)).ready)
  {
    hide Served;
    CurrIn(s);
    hide Base, ReadyOk, SleepOk, SemsOk, InsertD;
    SetAside(s, s.curr, NONE);
    GiveSleep(s, s.curr, NONE, key, st);
    ReschedOk(SetState(s.(sleep := InsertD(s.sleep, s.curr, key)), s.curr, st));
  }

  lemma ReceiveOk(s: Sched)
    requires Inv(s) && s.curr != NULLPROC
    ensures Inv(Receive(s)) && Served(s.ready, Receive(s).ready)
  {
    hide Served, Grown;
    ReadySame(s);
    hide Inv, Resched;
    if InTab(s, s.curr) && !s.procs[s.curr].hasmsg { BlockLoose(s, Recv); }
  }

  lemma TakeMsgOk(s: Sched)
    requires Inv(s)
    ensures Inv(TakeMsg(s)) && Served(s.ready, TakeMsg(s).ready)
  {
    hide Served, Grown;
    ReadySame(s);
    hide Inv;
    if InTab(s, s.curr) { SetMsg(s, s.curr, s.procs[s.curr].(hasmsg := false)); }
  }

  lemma RecvtimeOk(s: Sched, maxwait: int)
    requires Inv(s) && s.curr != NULLPROC
    ensures Inv(Recvtime(s, maxwait)) && Served(s.ready, Recvtime(s, maxwait).ready)
  {
    hide Served, Grown;
    ReadySame(s);
    hide Inv, Resched, InsertD;
    if maxwait >= 0 && InTab(s, s.curr) && !s.procs[s.curr].hasmsg { BlockSleep(s, maxwait, RecTim); }
  }

  lemma SleepmsOk(s: Sched, delay: int)
    requires Inv(s) && s.curr != NULLPROC
    ensures Inv(Sleepms(s, delay)) && Served(s.ready, Sleepms(s, delay).ready)
  {
    hide Served, Grown;
    ReadySame(s);
    hide Resched, InsertD, Weak;
    if InTab(s, s.curr) {
      if delay == 0 { ReschedOk(s); } else { BlockSleep(s, Signed(delay), Sleep); }
    }
  }

  lemma SuspendOk(s: Sched, p: int)
    requires Inv(s)
    ensures Inv(Suspend(s, p)) && Served(s.ready, Suspend(s, p).ready)
  {
    hide Served, Grown;
    ReadySame(s);
    hide Base, ReadyOk, SleepOk, SemsOk;
    if !Bad(s, p) && p != NULLPROC {
      if s.procs[p].state == Ready {
        ReadyGone(s, p, Susp);
      } else if s.procs[p].state == Curr {
        OneCurr(s, p);
        BlockLoose(s, Susp);
      }
    }
  }

  lemma OneCurr(s: Sched, p: int)
    requires Inv(s) && InTab(s, p) && s.procs[p].state == Curr
    ensures p == s.curr
  {
    hide ReadyOk, SleepOk, SemsOk;
  }

  /** A ready process leaves the ready list for a state in which it is on none. */
  lemma ReadyGone(s: Sched, p: int, st: PState)
    requires Inv(s) && InTab(s, p) && p != NULLPROC && s.procs[p].state == Ready && Loose(st) && st != Curr
    ensures Inv(SetState(s.(ready := Unlink(s.ready, p)), p, st)) && Served(s.ready, Unlink(s.ready, p))
  {
    hide Base, ReadyOk, SleepOk, SemsOk, Unlink, Served;
    CurrIn(s);
    ReadyDistinct(s, NONE, NONE);
    ServedUnlink(s.ready, p);
    LeaveReady(s, p, NONE);
    PrioIn(s, p);
    GiveLoose(s.(ready := Unlink(s.ready, p)), p, NONE, s.procs[p].(state := st));
    UnlinkBelow(s.ready, p, s.procs[s.curr].prio);
  }

  lemma UnlinkBelow(l: seq<Ent>, p: int, m: int)
    requires forall i :: 0 <= i < |l| ==> l[i].key <= m
    ensures forall i :: 0 <= i < |Unlink(l, p)| ==> Unlink(l, p)[i].key <= m
  {}

  lemma PrioIn(s: Sched, p: int)
    requires Weak(s, NONE, NONE) && InTab(s, p)
    ensures MINKEY < s.procs[p].prio <= MAXKEY
  {
    hide ReadyOk, SleepOk, SemsOk;
  }

  lemma ResumeOk(s: Sched, p: int)
    requires Inv(s)
    ensures Inv(Resume(s, p)) && Served(s.ready, Resume(s, p).ready)
  {
    hide Served, Grown;
    ReadySame(s);
    hide Inv, ReadyP;
    if !Bad(s, p) && s.procs[p].state == Susp { LooseReady(s, p); }
  }

  lemma CreateOk(s: Sched, p: int, prio: int)
    requires Inv(s) && MINKEY < prio <= MAXKEY
    ensures Inv(Create(s, p, prio)) && Served(s.ready, Create(s, p, prio).ready)
  {
    hide Served, Grown;
    ReadySame(s);
    if InTab(s, p) && s.procs[p].state == Free {
      NotNull(s, p);
      hide Base, ReadyOk, SleepOk, SemsOk;
      CurrIn(s);
      SetAside(s, p, NONE);
      GiveLoose(s, p, NONE, Proc(Susp, prio, 0, false, 0));
    }
  }

  lemma NotNull(s: Sched, p: int)
    requires Weak(s, NONE, NONE) && InTab(s, p) && s.procs[p].state != Ready && s.procs[p].state != Curr
    ensures p != NULLPROC
  {
    hide ReadyOk, SleepOk, SemsOk;
  }

  /** A process that is on no list ends, not the current one. */
  lemma EndLoose(s: Sched, p: int)
    requires Inv(s) && InTab(s, p) && p != NULLPROC && Loose(s.procs[p].state) && s.procs[p].state != Curr
    ensures Inv(SetState(s, p, Free))
  {
    CurrIn(s);
    hide Base, ReadyOk, SleepOk, SemsOk;
    SetAside(s, p, NONE);
    PrioIn(s, p);
    GiveLoose(s, p, NONE, s.procs[p].(state := Free));
  }

  lemma EndSleeper(s: Sched, p: int)
    requires Inv(s) && InTab(s, p) && p != NULLPROC && Asleep(s.procs[p].state)
    ensures Inv(SetState(s.(sleep := RemoveD(s.sleep, p)), p, Free))
  {
    CurrIn(s);
    hide Base, ReadyOk, SleepOk, SemsOk, Distinct, On;
    SleepDistinct(s);
    RemovedOn(s.sleep, p);
    LeaveSleep(s, p, NONE, RemoveD(s.sleep, p));
    PrioIn(s, p);
    GiveLoose(s.(sleep := RemoveD(s.sleep, p)), p, NONE, s.procs[p].(state := Free));
  }

  lemma EndWaiting(s: Sched, p: int)
    requires Inv(s) && InTab(s, p) && p != NULLPROC && s.procs[p].state == Waiting
    ensures 0 <= s.procs[p].sem < |s.sems|
    ensures var k := s.procs[p].sem;
      Inv(SetState(SetSem(s, k, s.sems[k].(count := s.sems[k].count + 1, q := Seqs.Without(s.sems[k].q, p))), p, Free))
  {
    CurrIn(s);
    WaitingIn(s, p);
    hide Base, ReadyOk, SleepOk, SemsOk, Distinct, On, CountOk, NoDup, Seqs.Without;
    var k := s.procs[p].sem;
    var sem := s.sems[k].(count := s.sems[k].count + 1, q := Seqs.Without(s.sems[k].q, p));
    LeaveSem(s, k, p, NONE, sem);
    PrioIn(s, p);
    GiveLoose(SetSem(s, k, sem), p, NONE, s.procs[p].(state := Free));
  }

  lemma WaitingIn(s: Sched, p: int)
    requires Weak(s, NONE, NONE) && InTab(s, p) && s.procs[p].state == Waiting
    ensures var k := s.procs[p].sem;
      && 0 <= k < |s.sems| && Waits(s.procs, k, p) && NoDup(Seqs.Without(s.sems[k].q, p))
      && (forall q :: q in Seqs.Without(s.sems[k].q, p) <==> q in s.sems[k].q && q != p)
      && CountOk(s.sems[k].(count := s.sems[k].count + 1, q := Seqs.Without(s.sems[k].q, p)))
  {
    hide ReadyOk, SleepOk, Base;
    var k := s.procs[p].sem;
    assert QueueOk(s.procs, k, s.sems[k].q, NONE) && CountOk(s.sems[k]);
    assert Waits(s.procs, k, p);
    WithoutMembers(s.sems[k].q, p);
  }

  lemma KillEndOk(s: Sched, p: int)
    requires Inv(s)
    ensures Inv(KillEnd(s, p)) && Served(s.ready, KillEnd(s, p).ready)
  {
    hide Served, Grown;
    ReadySame(s);
    hide Inv, Resched;
    if InTab(s, p) && p != NULLPROC {
      match s.procs[p].state {
        case Curr => OneCurr(s, p); BlockLoose(s, Free);
        case Sleep => EndSleeper(s, p);
        case RecTim => EndSleeper(s, p);
        case Waiting => EndWaiting(s, p);
        case Ready => ReadyGone(s, p, Free);
        case Free => EndLoose(s, p);
        case Recv => EndLoose(s, p);
        case Susp => EndLoose(s, p);
        case Frame => EndLoose(s, p);
      }
    }
  }

  // ---- frames and the clock ----

  lemma FrameBlockOk(s: Sched)
    requires Inv(s) && s.curr != NULLPROC
    ensures Inv(FrameBlock(s)) && Served(s.ready, FrameBlock(s).ready)
  {
    hide Served, Grown;
    ReadySame(s);
    hide Inv, Resched;
    if InTab(s, s.curr) { BlockLoose(s, Frame); }
  }

  /** What framewakeup can deal with: every number in the block queue is nobody's, or that of a process
      which is on no list and does not come a second time. */
  ghost predicate WakeFits(procs: seq<Proc>, ps: seq<int>) {
    forall i :: 0 <= i < |ps| && 0 <= ps[i] < |procs| && procs[ps[i]].state != Free ==>
      Loose(procs[ps[i]].state) && forall j :: 0 <= j < i ==> ps[j] != ps[i]
  }

  /** One of them: a killed one is left alone. */
  lemma FrameLater(s: Sched, p: int)
    requires Deferred(s, NONE) && (Bad(s, p) || Loose(s.procs[p].state))
    ensures Deferred(ReadyP(s, p), NONE) && Grown(s.ready, ReadyP(s, p).ready) && ReadyP(s, p).sems == s.sems
    ensures ReadyP(s, p).procs == if Bad(s, p) then s.procs else s.procs[p := s.procs[p].(state := Ready)]
  {
    hide Served;
    hide Weak;
    if !Bad(s, p) {
      SetAside(s, p, NONE);
      ReadyLater(s, p, NONE);
      MakeReadyFrame(s, p);
      MakeReadyProcs(s, p);
      hide MakeReady;
    }
  }

  /** The first is like that, and the rest once it is ready. */
  lemma FitsRest(s: Sched, ps: seq<int>, procs': seq<Proc>)
    requires ps != [] && (Bad(s, ps[0]) || Loose(s.procs[ps[0]].state))
    requires procs' == if Bad(s, ps[0]) then s.procs else s.procs[ps[0] := s.procs[ps[0]].(state := Ready)]
    ensures WakeFits(s.procs, ps) <==> WakeFits(procs', ps[1..])
  {
    var qs := ps[1..];
    if WakeFits(procs', qs) {
      forall i | 0 <= i < |ps| && 0 <= ps[i] < |s.procs| && s.procs[ps[i]].state != Free
        ensures Loose(s.procs[ps[i]].state) && forall j :: 0 <= j < i ==> ps[j] != ps[i] {
        if i > 0 {
          assert qs[i - 1] == ps[i];
          assert forall j :: 0 < j < i ==> qs[j - 1] == ps[j];
        }
      }
    }
  }

  lemma {:induction false} ReadyFramesOk(s: Sched, ps: seq<int>)
    requires Deferred(s, NONE) && WakeFits(s.procs, ps)
    ensures Deferred(ReadyFrames(s, ps), NONE) && Grown(s.ready, ReadyFrames(s, ps).ready)
    decreases |ps|
  {
    hide Served;
    hide Deferred, ReadyP;
    if ps != [] {
      FrameLater(s, ps[0]);
      FitsRest(s, ps, ReadyP(s, ps[0]).procs);
      ReadyFramesOk(ReadyP(s, ps[0]), ps[1..]);
    }
  }

  lemma FrameWakeupOk(s: Sched, ps: seq<int>)
    requires Inv(s) && WakeFits(s.procs, ps)
    ensures Inv(FrameWakeup(s, ps)) && Served(s.ready, FrameWakeup(s, ps).ready)
  {
    hide Served;
    hide Inv, Deferred, Grown;
    DeferStartOk(s);
    ReadyFramesOk(DeferStart(s), ps);
    var s1 := ReadyFrames(DeferStart(s), ps);
    DeferStopOk(s1);
    ServedGrown(s.ready, s1.ready, DeferStop(s1).ready);
  }

  lemma WakeHead(s: Sched)
    requires Deferred(s, NONE) && s.sleep != []
    ensures var s1 := ReadyP(s.(sleep := s.sleep[1..]), s.sleep[0].pid);
      Deferred(s1, NONE) && Grown(s.ready, s1.ready) && s1.sleep == s.sleep[1..] && s1.sems == s.sems
        && s1.curr == s.curr && |s1.procs| == |s.procs|
      && s1.preempt == s.preempt
    ensures InTab(s, s.sleep[0].pid)
    ensures ReadyP(s.(sleep := s.sleep[1..]), s.sleep[0].pid).procs
      == s.procs[s.sleep[0].pid := s.procs[s.sleep[0].pid].(state := Ready)]
  {
    hide Served;
    var p := s.sleep[0].pid;
    SleeperIn(s);
    hide Weak, On, Distinct, MakeReady;
    LeaveSleep(s, p, NONE, s.sleep[1..]);
    ReadyLater(s.(sleep := s.sleep[1..]), p, NONE);
    MakeReadyFrame(s.(sleep := s.sleep[1..]), p);
    MakeReadyProcs(s.(sleep := s.sleep[1..]), p);
  }

  lemma MakeReadyProcs(s: Sched, p: int)
    requires InTab(s, p)
    ensures MakeReady(s, p).procs == s.procs[p := s.procs[p].(state := Ready)]
  {}

  lemma SleeperIn(s: Sched)
    requires Weak(s, NONE, NONE) && s.sleep != []
    ensures InTab(s, s.sleep[0].pid) && Asleep(s.procs[s.sleep[0].pid].state)
    ensures Distinct(s.sleep[1..]) && forall q :: On(s.sleep[1..], q) <==> On(s.sleep, q) && q != s.sleep[0].pid
  {
    hide Base, ReadyOk, SemsOk;
    assert On(s.sleep, s.sleep[0].pid);
    DistinctTail(s.sleep);
    forall q ensures On(s.sleep[1..], q) <==> On(s.sleep, q) && q != s.sleep[0].pid { OnTail(s.sleep, q); }
  }

  /** wakeup makes exactly the expired sleepers ready and leaves the others on the list. */
  lemma {:induction false} WakeLoopOk(s: Sched)
    requires Deferred(s, NONE)
    ensures Deferred(WakeLoop(s), NONE) && Grown(s.ready, WakeLoop(s).ready) && WakeLoop(s).sleep == Unexpired(s.sleep)
      && |WakeLoop(s).procs| == |s.procs|
    ensures WakeLoop(s).sems == s.sems && WakeLoop(s).curr == s.curr
    ensures forall p :: InTab(s, p) ==>
      WakeLoop(s).procs[p] == if p in Expired(s.sleep) then s.procs[p].(state := Ready) else s.procs[p]
    decreases |s.sleep|
  {
    hide Served;
    hide Deferred, ReadyP;
    if s.sleep != [] && s.sleep[0].key <= 0 {
      WakeHead(s);
      WakeLoopOk(ReadyP(s.(sleep := s.sleep[1..]), s.sleep[0].pid));
    }
  }

  lemma DownOk(s: Sched)
    requires Inv(s)
    ensures Inv(s.(sleep := Down(s.sleep)))
  {
    if s.sleep != [] {
      hide Base, ReadyOk, SemsOk, On, Distinct, Down;
      forall p { DownRem(s.sleep, p); }
    }
  }

  lemma TickOk(s: Sched)
    requires Inv(s)
    ensures Inv(Tick(s)) && Served(s.ready, Tick(s).ready) && Tick(s).sleep == Ticked(s.sleep)
      && |Tick(s).procs| == |s.procs|
  {
    hide Served, Grown;
    ReadySame(s);
    if s.sleep != [] {
      var s1 := s.(sleep := Down(s.sleep));
      DownOk(s);
      hide Inv, Deferred, WakeLoop, Down, Resched;
      if s1.sleep[0].key <= 0 {
        DeferStartOk(s1);
        WakeLoopOk(DeferStart(s1));
        DeferStopOk(WakeLoop(DeferStart(s1)));
        ServedGrown(s.ready, WakeLoop(DeferStart(s1)).ready, DeferStop(WakeLoop(DeferStart(s1))).ready);
        DeferStopFrame(WakeLoop(DeferStart(s1)));
      }
    }
  }

  lemma DeferStopFrame(s: Sched)
    requires Deferred(s, NONE)
    ensures DeferStop(s).sleep == s.sleep && |DeferStop(s).procs| == |s.procs| && DeferStop(s).sems == s.sems
  {
    hide Base, ReadyOk, SleepOk, SemsOk, Resched;
    WeakAttempt(s, NONE, NONE, s.attempt, 0, s.preempt);
    if s.attempt { ReschedOk(s.(ndefers := 0)); }
  }

  lemma SliceOk(s: Sched)
    requires Inv(s)
    ensures Inv(Slice(s)) && Served(s.ready, Slice(s).ready)
  {
    hide Served, Grown;
    ReadySame(s);
    hide Base, ReadyOk, SleepOk, SemsOk, Resched;
    WeakAttempt(s, NONE, NONE, s.attempt, 0, s.preempt - 1);
    WeakAttempt(s, NONE, NONE, s.attempt, 0, QUANTUM);
    if s.preempt - 1 <= 0 { ReschedOk(s.(preempt := QUANTUM)); }
  }
}
