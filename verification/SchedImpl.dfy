/** The scheduler as the program runs it: the process table, the semaphore table and queuetab,
    changed step by step. */
module SchedImpl {
  import opened Delta
  import opened QueueTabs
  import opened QueueImpl
  import opened SchedInv
  import opened SchedSteps
  import opened SchedSpec
  import D = Delta
  import Q = Seqs
  import S = SchedSpec
  import SchedRun

  /** An entry of semtab; its queue is in queuetab. */
  datatype SemEnt = SemEnt(used: bool, count: int)

  const READYLIST := 0
  const SLEEPQ := 1

  /** The queue of semaphore k. */
  function SemQueue(k: nat): nat { k + 2 }

  function Pids(l: seq<Ent>): (s: seq<int>)
    ensures |s| == |l|
  {
    seq(|l|, i requires 0 <= i < |l| => l[i].pid)
  }

  function ViewOf(procs: seq<Proc>, sems: seq<SemEnt>, lists: seq<seq<Ent>>, curr: int, nd: int, attempt: bool,
    preempt: int): Sched
    requires |lists| == |sems| + 2
  {
    Sched(procs, seq(|sems|, k requires 0 <= k < |sems| => Sem(sems[k].used, sems[k].count, Pids(lists[SemQueue(k)]))),
          lists[READYLIST], lists[SLEEPQ], curr, nd, attempt, preempt)
  }

  /** Changes of one list, seen in the abstract state. */
  lemma ViewLists(procs: seq<Proc>, sems: seq<SemEnt>, lists: seq<seq<Ent>>, curr: int, nd: int, at: bool, pre: int,
    l: seq<Ent>)
    requires |lists| == |sems| + 2
    ensures ViewOf(procs, sems, lists[READYLIST := l], curr, nd, at, pre)
      == ViewOf(procs, sems, lists, curr, nd, at, pre).(ready := l)
    ensures ViewOf(procs, sems, lists[SLEEPQ := l], curr, nd, at, pre)
      == ViewOf(procs, sems, lists, curr, nd, at, pre).(sleep := l)
  {}

  lemma ViewSem(procs: seq<Proc>, sems: seq<SemEnt>, lists: seq<seq<Ent>>, curr: int, nd: int, at: bool, pre: int,
                k: nat, e: SemEnt, l: seq<Ent>)
    requires |lists| == |sems| + 2 && k < |sems|
    ensures ViewOf(procs, sems[k := e], lists[SemQueue(k) := l], curr, nd, at, pre)
      == SetSem(ViewOf(procs, sems, lists, curr, nd, at, pre), k, Sem(e.used, e.count, Pids(l)))
  {
    var v := ViewOf(procs, sems, lists, curr, nd, at, pre);
    assert ViewOf(procs, sems[k := e], lists[SemQueue(k) := l], curr, nd, at, pre).sems
      == v.sems[k := Sem(e.used, e.count, Pids(l))];
  }

  lemma PidsMore(l: seq<Ent>, e: Ent)
    ensures Pids(l + [e]) == Pids(l) + [e.pid]
    ensures l != [] ==> Pids(l[1..]) == Pids(l)[1..] && Pids(l)[0] == l[0].pid
  {}

  lemma PidsCut(l: seq<Ent>, i: nat)
    requires i < |l| && D.Distinct(l)
    ensures Pids(Cut(l, i)) == Q.Without(Pids(l), l[i].pid)
  {
    var s := Pids(l);
    assert s[i] == l[i].pid;
    assert forall j :: 0 <= j < i ==> s[j] != l[i].pid;
    assert Q.IndexOf(s, l[i].pid) == i by { IndexIs(s, i); }
  }

  lemma IndexIs(s: seq<int>, i: nat)
    requires i < |s| && forall j :: 0 <= j < i ==> s[j] != s[i]
    ensures Q.IndexOf(s, s[i]) == i
  {
    var k := Q.IndexOf(s, s[i]);
    assert s[i] in s;
    var t := s[..k];
    assert forall j :: 0 <= j < |t| ==> t[j] == s[j];
  }

  class Scheduler {
    const tab: QueueTab
    var procs: seq<Proc>
    var sems: seq<SemEnt>
    var currpid: int
    var ndefers: int
    var attempt: bool
    var preempt: int

    ghost predicate Valid() reads this, tab, tab.qkey, tab.qnext, tab.qprev {
      tab.Valid() && tab.nproc == |procs| && |tab.lists| == |sems| + 2
    }

    ghost function View(): Sched
      reads this, tab, tab.qkey, tab.qnext, tab.qprev
      requires Valid()
    {
      ViewOf(procs, sems, tab.lists, currpid, ndefers, attempt, preempt)
    }

    /** sysinit: the null process is current. */
    constructor (nproc: nat, nsem: nat)
      requires nproc > 0
      ensures Valid() && View() == SchedRun.Boot(nproc, nsem)
    {
      procs := seq(nproc, p => Proc(if p == NULLPROC then Curr else Free, 0, 0, false, 0));
      sems := seq(nsem, _ => SemEnt(false, 0));
      currpid, ndefers, attempt, preempt := NULLPROC, 0, false, QUANTUM;
      tab := new QueueTab(nproc, nsem + 2);
      new;
      assert View().sems == SchedRun.Boot(nproc, nsem).sems;
    }

    /** A process set aside in v, whose lists are those of the table. */
    lemma AsideOf(v: Sched, p: int, y: int)
      requires tab.Valid() && |tab.lists| == |v.sems| + 2 && Weak(v, p, y) && InTab(v, p)
      requires v.ready == tab.lists[READYLIST] && v.sleep == tab.lists[SLEEPQ]
      requires forall k :: 0 <= k < |v.sems| ==> v.sems[k].q == Pids(tab.lists[SemQueue(k)])
      ensures Nowhere(tab.lists, p) && MINKEY < v.procs[p].prio
    {
      hide D.Distinct, CountOk;
      assert forall i :: 0 <= i < |v.ready| ==> ReadyEnt(v.procs, v.ready[i], p);
      forall q | 0 <= q < |tab.lists| ensures !On(tab.lists[q], p) {
        if q >= 2 {
          var k := q - 2;
          assert QueueOk(v.procs, k, v.sems[k].q, p);
          forall i | 0 <= i < |tab.lists[q]| ensures tab.lists[q][i].pid != p { assert v.sems[k].q[i]
            == tab.lists[q][i].pid; }
        }
      }
    }

    method SetProcState(p: int, st: PState)
      requires Valid() && 0 <= p < |procs|
      modifies this`procs
      ensures Valid() && View() == SetState(old(View()), p, st)
      ensures procs == old(procs)[p := old(procs)[p].(state := st)]
    {
      procs := procs[p := procs[p].(state := st)];
    }

    /** The first half of ready: the process is marked and joins the ready list. */
    method InsertReady(pid: int, ghost y: int)
      requires Valid() && Weak(View(), pid, y) && 0 <= pid < |procs|
      modifies this`procs, tab, tab.qkey, tab.qnext, tab.qprev
      ensures Valid() && View() == MakeReady(old(View()), pid)
    {
      hide Weak, Nowhere, D.Insert;
      AsideOf(View(), pid, y);
      SetProcState(pid, Ready);
      ghost var l := tab.lists;
      tab.Insert(pid, READYLIST, procs[pid].prio);
      ViewLists(procs, sems, l, currpid, ndefers, attempt, preempt, D.Insert(l[READYLIST], pid, procs[pid].prio));
    }

    /** The switch to the first ready process. */
    method Switch()
      requires Valid() && Weak(View(), NONE, NONE) && 0 <= currpid < |procs| && procs[currpid].state != Curr
      modifies this, tab, tab.qkey, tab.qnext, tab.qprev
      ensures Valid() && View() == S.Dispatch(old(View()))
    {
      hide Nowhere, Weak;
      NullReady(View());
      HeadReady(View());
      ghost var l := tab.lists;
      currpid := tab.Dequeue(READYLIST);
      procs := procs[currpid := procs[currpid].(state := Curr)];
      preempt := QUANTUM;
      ViewLists(procs, sems, l, currpid, ndefers, attempt, preempt, l[READYLIST][1..]);
    }

    /** resched */
    method Resched()
      requires Valid() && (ndefers <= 0 ==> Weak(View(), NONE, NONE))
      modifies this, tab, tab.qkey, tab.qnext, tab.qprev
      ensures Valid() && View() == S.Resched(old(View()))
    {
      hide Nowhere, Weak, S.Dispatch, MakeReady;
      if ndefers > 0 {
        attempt := true;
        return;
      }
      CurrInTab(View());
      FirstIs();
      if procs[currpid].state == Curr {
        var first := tab.qnext[tab.Head(READYLIST)];
        if procs[currpid].prio > tab.qkey[first] {
          return;
        }
        SetAside(View(), currpid, NONE);
        GiveReady(View(), currpid, NONE);
        InsertReady(currpid, NONE);
        NowReady(old(View()), currpid);
      }
      Switch();
    }

    /** ready */
    method ReadyProc(pid: int, ghost y: int)
      requires Valid() && Weak(View(), pid, y) && 0 <= pid < |procs| && procs[pid].state != Free
        && (ndefers <= 0 ==> y == NONE)
      modifies this, tab, tab.qkey, tab.qnext, tab.qprev
      ensures Valid() && View() == ReadyP(old(View()), pid)
    {
      hide Weak, S.Resched, MakeReady;
      GiveReady(View(), pid, y);
      MakeReadyFrame(View(), pid);
      InsertReady(pid, y);
      Resched();
    }

    /** resched_cntl(DEFER_START) */
    method StartDefer()
      requires Valid()
      modifies this`ndefers, this`attempt
      ensures Valid() && View() == DeferStart(old(View()))
    {
      ndefers := ndefers + 1;
      if ndefers == 1 {
        attempt := false;
      }
    }

    /** resched_cntl(DEFER_STOP) */
    method StopDefer()
      requires Valid() && Deferred(View(), NONE)
      modifies this, tab, tab.qkey, tab.qnext, tab.qprev
      ensures Valid() && View() == DeferStop(old(View()))
    {
      hide Weak, S.Resched;
      if ndefers <= 0 {
        return;
      }
      WeakAttempt(View(), NONE, NONE, attempt, 0, preempt);
      ndefers := ndefers - 1;
      if ndefers == 0 && attempt {
        Resched();
      }
    }

    // ---- semaphores ----

    /** Puts the count and the queue of semaphore k together again. */
    lemma SemAt(k: nat)
      requires Valid() && k < |sems|
      ensures SemQueue(k) < |tab.lists|
      ensures View().sems[k] == Sem(sems[k].used, sems[k].count, Pids(tab.lists[SemQueue(k)]))
      ensures SemUsed(View(), k) <==> sems[k].used
    {}

    /** wait */
    method Wait(sem: int) returns (ok: bool)
      requires Valid() && Inv(View()) && (SemUsed(View(), sem) && View().sems[sem].count <= 0 ==> currpid != NULLPROC)
      modifies this, tab, tab.qkey, tab.qnext, tab.qprev
      ensures Valid() && View() == S.Wait(old(View()), sem)
      ensures ok <==> SemUsed(old(View()), sem)
    {
      hide Weak, S.Resched, Nowhere;
      CurrIn(View());
      if !(0 <= sem < |sems|) || !sems[sem].used {
        return false;
      }
      SemAt(sem);
      ghost var v, l := View(), tab.lists;
      sems := sems[sem := sems[sem].(count := sems[sem].count - 1)];
      if sems[sem].count < 0 {
        InvCount(v, sem);
        SetAside(v, currpid, NONE);
        GiveWait(v, currpid, sem);
        WaitIs(v, sem);
        AsideOf(v, currpid, NONE);
        procs := procs[currpid := procs[currpid].(state := Waiting, sem := sem)];
        tab.Enqueue(currpid, SemQueue(sem));
        PidsMore(l[SemQueue(sem)], Ent(currpid, old(tab.qkey[currpid])));
        ViewSem(procs, old(sems), l, currpid, ndefers, attempt, preempt, sem, sems[sem], tab.lists[SemQueue(sem)]);
        assert tab.lists == l[SemQueue(sem) := tab.lists[SemQueue(sem)]];
        Resched();
      } else {
        ViewSem(procs, old(sems), l, currpid, ndefers, attempt, preempt, sem, sems[sem], l[SemQueue(sem)]);
        assert l[SemQueue(sem) := l[SemQueue(sem)]] == l;
      }
      return true;
    }

    /** The first process waiting for semaphore k becomes ready: ready(dequeue(squeue)), or
        ready(getfirst(squeue)). */
    method WakeFirst(k: nat, clear: bool, ghost y: int, ghost s1: Sched)
      requires Valid() && k < |sems| && tab.lists[SemQueue(k)] != []
      requires s1 == SetSem(View(), k, View().sems[k].(q := View().sems[k].q[1..]))
      requires var p := View().sems[k].q[0];
        0 <= p < |procs| && procs[p].state == Waiting && Weak(s1, p, y) && (ndefers <= 0 ==> y == NONE)
      modifies this, tab, tab.qkey, tab.qnext, tab.qprev
      ensures Valid() && View() == ReadyP(s1, old(View()).sems[k].q[0])
    {
      hide Weak, ReadyP, Nowhere;
      SemAt(k);
      ghost var l := tab.lists;
      PidsMore(l[SemQueue(k)], l[SemQueue(k)][0]);
      var pid;
      if clear {
        pid := tab.Dequeue(SemQueue(k));
      } else {
        pid := tab.GetFirst(SemQueue(k));
      }
      ViewSem(procs, sems, l, currpid, ndefers, attempt, preempt, k, sems[k], l[SemQueue(k)][1..]);
      assert sems[k := sems[k]] == sems;
      ReadyProc(pid, y);
    }

    /** signal */
    method Signal(sem: int) returns (ok: bool)
      requires Valid() && (Inv(View()) || Deferred(View(), NONE))
      modifies this, tab, tab.qkey, tab.qnext, tab.qprev
      ensures Valid() && View() == S.Signal(old(View()), sem)
      ensures ok <==> SemUsed(old(View()), sem)
    {
      hide Weak, ReadyP, Nowhere;
      if !(0 <= sem < |sems|) || !sems[sem].used {
        return false;
      }
      SemAt(sem);
      ghost var v, l := View(), tab.lists;
      var count := sems[sem].count;
      sems := sems[sem := sems[sem].(count := count + 1)];
      ViewSem(procs, old(sems), l, currpid, ndefers, attempt, preempt, sem, sems[sem], l[SemQueue(sem)]);
      assert l[SemQueue(sem) := l[SemQueue(sem)]] == l;
      if count < 0 {
        SignalWakes(v, sem);
        SignalParts(v, sem);
        WakeFirst(sem, true, NONE, SetSem(v, sem, v.sems[sem].(count := count + 1, q := v.sems[sem].q[1..])));
      }
      return true;
    }

    /** signaln */
    method Signaln(sem: int, count: int) returns (ok: bool)
      requires Valid() && Inv(View())
      modifies this, tab, tab.qkey, tab.qnext, tab.qprev
      ensures Valid() && View() == S.Signaln(old(View()), sem, count)
      ensures ok <==> count >= 0 && SemUsed(old(View()), sem)
    {
      hide Inv, Deferred, S.Signal, DeferStart, DeferStop;
      if !(0 <= sem < |sems|) || count < 0 || !sems[sem].used {
        return false;
      }
      SemAt(sem);
      DeferStartOk(View());
      StartDefer();
      var n := count;
      while n > 0
        invariant Valid() && n >= 0 && Deferred(View(), NONE)
        invariant SignalLoop(View(), sem, n) == SignalLoop(DeferStart(old(View())), sem, count)
      {
        SignalLater(View(), sem);
        var _ := Signal(sem);
        n := n - 1;
      }
      StopDefer();
      return true;
    }

    /** One turn of the loops of semreset and semdelete. */
    method ReleaseFirst(k: nat)
      requires Valid() && Deferred(View(), k) && k < |sems| && tab.lists[SemQueue(k)] != []
      modifies this, tab, tab.qkey, tab.qnext, tab.qprev
      ensures Valid() && View() == Release(old(View()), k) && Deferred(View(), k) && |sems| == old(|sems|)
      ensures View().sems[k] == old(View()).sems[k].(q := old(View()).sems[k].q[1..])
    {
      hide Weak, ReadyP, CountOk;
      SemAt(k);
      ghost var v := View();
      ghost var rest := v.sems[k].(q := v.sems[k].q[1..]);
      PopHead(v, k, rest, k);
      ReleaseLater(v, k);
      WakeFirst(k, false, k, SetSem(v, k, rest));
    }

    /** The loop of semreset: everybody who waits is made ready. */
    method DrainQueue(k: nat)
      requires Valid() && Deferred(View(), k) && k < |sems|
      modifies this, tab, tab.qkey, tab.qnext, tab.qprev
      ensures Valid() && View() == Drain(old(View()), k, |old(View()).sems[k].q|) && Deferred(View(), k)
        && |sems| == old(|sems|)
      ensures View().sems[k] == old(View()).sems[k].(q := [])
    {
      hide Deferred, Release, Drain;
      SemAt(k);
      var empty := tab.IsEmpty(SemQueue(k));
      while !empty
        invariant Valid() && |sems| == old(|sems|) && Deferred(View(), k)
        invariant empty <==> tab.lists[SemQueue(k)] == []
        invariant Drain(View(), k, |tab.lists[SemQueue(k)]|) == Drain(old(View()), k, |old(View()).sems[k].q|)
        invariant View().sems[k] == Sem(old(View()).sems[k].used, old(View()).sems[k].count,
          Pids(tab.lists[SemQueue(k)]))
        decreases |tab.lists[SemQueue(k)]|
      {
        DrainFirst(View(), k, |tab.lists[SemQueue(k)]|);
        ReleaseFirst(k);
        SemAt(k);
        empty := tab.IsEmpty(SemQueue(k));
      }
      DrainNone(View(), k);
    }

    method SetCount(k: nat, e: SemEnt)
      requires Valid() && k < |sems|
      modifies this`sems
      ensures Valid() && View() == SetSem(old(View()), k, Sem(e.used, e.count, old(View()).sems[k].q))
        && |sems| == old(|sems|)
      ensures sems == old(sems)[k := e]
    {
      SemAt(k);
      ghost var l := tab.lists;
      sems := sems[k := e];
      ViewSem(procs, old(sems), l, currpid, ndefers, attempt, preempt, k, e, l[SemQueue(k)]);
      assert l[SemQueue(k) := l[SemQueue(k)]] == l;
    }

    /** semreset */
    method Semreset(sem: int, count: int) returns (ok: bool)
      requires Valid() && Inv(View())
      modifies this, tab, tab.qkey, tab.qnext, tab.qprev
      ensures Valid() && View() == S.Semreset(old(View()), sem, count)
      ensures ok <==> count >= 0 && SemUsed(old(View()), sem)
    {
      hide Inv, Deferred, Release, Drain, DeferStart, DeferStop, CountOk;
      if count < 0 || !(0 <= sem < |sems|) || !sems[sem].used {
        return false;
      }
      SemAt(sem);
      DeferStartOk(View());
      StartSame(View());
      StartDefer();
      ghost var s0 := View();
      DeferredWaive(s0, sem, s0.sems[sem]);
      assert SetSem(s0, sem, s0.sems[sem]) == s0;
      DrainQueue(sem);
      ghost var s1 := View();
      SemAt(sem);
      SetCount(sem, sems[sem].(count := count));
      EmptyCount(s1.sems[sem].(count := count));
      DeferredUnwaive(s1, sem, s1.sems[sem].(count := count));
      StopDefer();
      return true;
    }

    /** semdelete */
    method Semdelete(sem: int) returns (ok: bool)
      requires Valid() && Inv(View())
      modifies this, tab, tab.qkey, tab.qnext, tab.qprev
      ensures Valid() && View() == S.Semdelete(old(View()), sem)
      ensures ok <==> SemUsed(old(View()), sem)
    {
      hide Inv, Deferred, Drain, DeferStart, DeferStop, CountOk, Scheduler.Valid;
      if !(0 <= sem < |sems|) || !sems[sem].used {
        return false;
      }
      SemAt(sem);
      ghost var v := View();
      InvCount(v, sem);
      DeferStartOk(v);
      StartSet(v, sem, v.sems[sem].(used := false));
      DeferredWaive(DeferStart(v), sem, v.sems[sem].(used := false));
      SetCount(sem, sems[sem].(used := false));
      StartSame(View());
      StartDefer();
      SemAt(sem);
      DeleteLoop(sem);
      ghost var s2 := View();
      EmptyCount(s2.sems[sem]);
      DeferredUnwaive(s2, sem, s2.sems[sem]);
      assert SetSem(s2, sem, s2.sems[sem]) == s2;
      StopDefer();
      return true;
    }

    /** One turn of the loop: the count is counted up behind the process that leaves. */
    method DeleteTurn(k: nat, ghost d: Sched)
      requires Valid() && k < |sems| && Deferred(d, k) && k < |d.sems| && d.sems[k].q != []
      requires View() == SetSem(d, k, d.sems[k].(count := sems[k].count))
      modifies this, tab, tab.qkey, tab.qnext, tab.qprev
      ensures Valid() && |sems| == old(|sems|) && k < |sems| && k < |Release(d, k).sems|
        && sems[k].count == old(sems[k].count) + 1
      ensures View() == SetSem(Release(d, k), k, Release(d, k).sems[k].(count := sems[k].count))
    {
      hide Deferred, Release;
      SemAt(k);
      DeferredSet(d, k, sems[k].count);
      ReleaseCount(d, k, sems[k].count);
      ReleaseFirst(k);
      SemAt(k);
      SetCount(k, sems[k].(count := sems[k].count + 1));
    }

    /** The loop of semdelete: while the count, before it is counted up, is below zero. */
    method DeleteLoop(k: nat)
      requires Valid() && Deferred(View(), k) && k < |sems| && !sems[k].used
      requires |tab.lists[SemQueue(k)]| == if sems[k].count < 0 then -sems[k].count else 0
      modifies this, tab, tab.qkey, tab.qnext, tab.qprev
      ensures Valid() && Deferred(View(), k) && k < |sems| && View().sems[k].q == [] && !View().sems[k].used
      ensures View() == Counted(old(View()), k, |old(tab.lists[SemQueue(k)])|)
    {
      hide Deferred, Release, Drain, Pids, Scheduler.Valid;
      SemAt(k);
      ghost var v := View();
      ghost var n := |tab.lists[SemQueue(k)]|;
      ghost var i := 0;
      ghost var d := v;
      DrainNone(v, k);
      var c := sems[k].count;
      SetCount(k, sems[k].(count := c + 1));
      while c < 0
        invariant Valid() && |sems| == old(|sems|) && 0 <= i <= n && sems[k].count == c + 1
        invariant Deferred(d, k) && k < |d.sems| && d == Drain(v, k, i)
          && d.sems[k] == v.sems[k].(q := v.sems[k].q[i..])
        invariant View() == SetSem(d, k, d.sems[k].(count := c + 1))
        invariant c == v.sems[k].count + i && (c < 0 ==> n - i == -c) && (c >= 0 ==> i == n)
        decreases -c
      {
        DrainMore(v, k, i);
        c := sems[k].count;
        DeleteTurn(k, d);
        d := Release(d, k);
        i := i + 1;
      }
      DeferredSet(d, k, c + 1);
    }

    // ---- messages, sleeping, suspending ----

    /** unsleep */
    method Unsleep(pid: int)
      requires Valid() && Weak(View(), NONE, NONE) && 0 <= pid < |procs| && Asleep(procs[pid].state)
      modifies tab, tab.qkey, tab.qnext, tab.qprev
      ensures Valid() && View() == old(View()).(sleep := D.RemoveD(old(View()).sleep, pid)) && Weak(View(), pid, NONE)
    {
      hide Weak, Nowhere, D.RemoveD, D.Distinct, D.On;
      ghost var v, l := View(), tab.lists;
      SleepDistinct(v);
      RemovedOn(v.sleep, pid);
      LeaveSleep(v, pid, NONE, D.RemoveD(v.sleep, pid));
      SleeperPlace(v, pid);
      tab.Undelay(pid, SLEEPQ, D.Place(v.sleep, pid));
      ViewLists(procs, sems, l, currpid, ndefers, attempt, preempt, D.RemoveD(l[SLEEPQ], pid));
    }

    /** send */
    method Send(pid: int, msg: int) returns (ok: bool)
      requires Valid() && Inv(View())
      modifies this, tab, tab.qkey, tab.qnext, tab.qprev
      ensures Valid() && View() == S.Send(old(View()), pid, msg)
      ensures ok <==> !Bad(old(View()), pid) && !old(procs)[pid].hasmsg
    {
      hide Weak, ReadyP, Nowhere, D.RemoveD;
      if !(0 <= pid < |procs|) || procs[pid].state == Free || procs[pid].hasmsg {
        return false;
      }
      SetMsg(View(), pid, procs[pid].(hasmsg := true, msg := msg));
      procs := procs[pid := procs[pid].(hasmsg := true, msg := msg)];
      if procs[pid].state == Recv {
        SetAside(View(), pid, NONE);
        ReadyProc(pid, NONE);
      } else if procs[pid].state == RecTim {
        Unsleep(pid);
        ReadyProc(pid, NONE);
      }
      return true;
    }

    /** receive, up to the switch. */
    method Receive()
      requires Valid() && Inv(View()) && currpid != NULLPROC
      modifies this, tab, tab.qkey, tab.qnext, tab.qprev
      ensures Valid() && View() == S.Receive(old(View()))
    {
      hide Weak, S.Resched;
      CurrIn(View());
      if !procs[currpid].hasmsg {
        BlockCurr(Recv);
      }
    }

    /** The current process leaves the processor for a state in which it is on no list. */
    method BlockCurr(st: PState)
      requires Valid() && Inv(View()) && currpid != NULLPROC && Loose(st) && st != Curr
      modifies this, tab, tab.qkey, tab.qnext, tab.qprev
      ensures Valid() && View() == S.Resched(SetState(old(View()), old(currpid), st))
    {
      hide Weak, S.Resched;
      CurrIn(View());
      SetAside(View(), currpid, NONE);
      GiveLoose(View(), currpid, NONE, procs[currpid].(state := st));
      SetProcState(currpid, st);
      Resched();
    }

    /** The end of receive and recvtime: the message, if there is one. */
    method TakeMsg() returns (has: bool, msg: int)
      requires Valid() && 0 <= currpid < |procs|
      modifies this`procs
      ensures Valid() && View() == S.TakeMsg(old(View()))
      ensures has == old(procs[currpid].hasmsg) && msg == old(procs[currpid].msg)
    {
      has, msg := procs[currpid].hasmsg, procs[currpid].msg;
      procs := procs[currpid := procs[currpid].(hasmsg := false)];
    }

    /** The current process joins the sleep queue and leaves the processor. */
    method SleepCurr(key: int, st: PState)
      requires Valid() && Inv(View()) && currpid != NULLPROC && Asleep(st)
      modifies this, tab, tab.qkey, tab.qnext, tab.qprev
      ensures Valid()
      ensures View() == S.Resched(SetState(old(View()).(sleep := D.InsertD(old(View()).sleep, old(currpid), key)),
        old(currpid), st))
    {
      hide Weak, Nowhere, S.Resched, D.InsertD;
      CurrIn(View());
      SetAside(View(), currpid, NONE);
      GiveSleep(View(), currpid, NONE, key, st);
      AsideOf(View(), currpid, NONE);
      ghost var l := tab.lists;
      tab.InsertD(currpid, SLEEPQ, key);
      ViewLists(procs, sems, l, currpid, ndefers, attempt, preempt, D.InsertD(l[SLEEPQ], currpid, key));
      SetProcState(currpid, st);
      Resched();
    }

    /** recvtime, up to the switch. */
    method Recvtime(maxwait: int)
      requires Valid() && Inv(View()) && currpid != NULLPROC
      modifies this, tab, tab.qkey, tab.qnext, tab.qprev
      ensures Valid() && View() == S.Recvtime(old(View()), maxwait)
    {
      hide Weak, S.Resched, D.InsertD;
      CurrIn(View());
      if maxwait >= 0 && !procs[currpid].hasmsg {
        SleepCurr(maxwait, RecTim);
      }
    }

    /** sleepms: insertd takes the unsigned delay as a signed key. */
    method Sleepms(delay: int)
      requires Valid() && Inv(View()) && currpid != NULLPROC
      modifies this, tab, tab.qkey, tab.qnext, tab.qprev
      ensures Valid() && View() == S.Sleepms(old(View()), delay)
    {
      hide Weak, S.Resched, D.InsertD;
      CurrIn(View());
      if delay == 0 {
        Resched();
      } else {
        SleepCurr(Signed(delay), Sleep);
      }
    }

    /** getitem of a ready process. */
    method LeaveReadyList(pid: int)
      requires Valid() && Weak(View(), NONE, NONE) && 0 <= pid < |procs| && procs[pid].state == Ready
      modifies tab, tab.qkey, tab.qnext, tab.qprev
      ensures Valid() && View() == old(View()).(ready := Unlink(old(View()).ready, pid))
    {
      hide Weak, Nowhere;
      ghost var l := tab.lists;
      ReadyPlace(View(), pid);
      tab.GetItem(pid, READYLIST, D.Place(l[READYLIST], pid));
      ViewLists(procs, sems, l, currpid, ndefers, attempt, preempt, Unlink(l[READYLIST], pid));
    }

    /** suspend */
    method Suspend(pid: int) returns (ok: bool)
      requires Valid() && Inv(View())
      modifies this, tab, tab.qkey, tab.qnext, tab.qprev
      ensures Valid() && View() == S.Suspend(old(View()), pid)
      ensures ok <==>
        pid != NULLPROC && 0 <= pid < |old(procs)| && (old(procs)[pid].state == Ready || old(procs)[pid].state == Curr)
    {
      hide Weak, S.Resched, Unlink;
      if !(0 <= pid < |procs|) || pid == NULLPROC || (procs[pid].state != Curr && procs[pid].state != Ready) {
        return false;
      }
      if procs[pid].state == Ready {
        LeaveReadyList(pid);
        SetProcState(pid, Susp);
      } else {
        OneCurr(View(), pid);
        BlockCurr(Susp);
      }
      return true;
    }

    /** resume */
    method Resume(pid: int) returns (ok: bool)
      requires Valid() && Inv(View())
      modifies this, tab, tab.qkey, tab.qnext, tab.qprev
      ensures Valid() && View() == S.Resume(old(View()), pid)
      ensures ok <==> 0 <= pid < |old(procs)| && old(procs)[pid].state == Susp
    {
      hide Weak, ReadyP;
      if !(0 <= pid < |procs|) || procs[pid].state != Susp {
        return false;
      }
      SetAside(View(), pid, NONE);
      ReadyProc(pid, NONE);
      return true;
    }

    /** getitem of a waiting process, whose semaphore is counted up. */
    method LeaveSemQueue(pid: int)
      requires Valid() && Inv(View()) && 0 <= pid < |procs| && procs[pid].state == Waiting
      modifies this`sems, tab, tab.qkey, tab.qnext, tab.qprev
      ensures Valid() && 0 <= procs[pid].sem < |old(View()).sems|
      ensures var (v, k) := (old(View()), procs[pid].sem);
        View() == SetSem(v, k, v.sems[k].(count := v.sems[k].count + 1, q := Q.Without(v.sems[k].q, pid)))
    {
      hide Weak, Inv, Nowhere, D.Distinct, CountOk, Q.Without, Cut;
      WaiterIn(View(), pid);
      var k := procs[pid].sem;
      SemAt(k);
      ghost var l := tab.lists;
      ghost var i := WaiterPlace(k, pid);
      PidsCut(l[SemQueue(k)], i);
      sems := sems[k := sems[k].(count := sems[k].count + 1)];
      tab.GetItem(pid, SemQueue(k), i);
      ViewSem(procs, old(sems), l, currpid, ndefers, attempt, preempt, k, sems[k], Cut(l[SemQueue(k)], i));
    }

    /** kill, from its switch on. */
    method KillEnd(pid: int)
      requires Valid() && Inv(View()) && 0 <= pid < |procs| && pid != NULLPROC
      modifies this, tab, tab.qkey, tab.qnext, tab.qprev
      ensures Valid() && View() == S.KillEnd(old(View()), pid)
    {
      hide Weak, S.Resched, Unlink, D.RemoveD, SetSem, Q.Without;
      match procs[pid].state {
        case Curr =>
          OneCurr(View(), pid);
          BlockCurr(Free);
        case Sleep =>
          Unsleep(pid);
          SetProcState(pid, Free);
        case RecTim =>
          Unsleep(pid);
          SetProcState(pid, Free);
        case Waiting =>
          LeaveSemQueue(pid);
          SetProcState(pid, Free);
        case Ready =>
          LeaveReadyList(pid);
          SetProcState(pid, Free);
        case _ =>
          SetProcState(pid, Free);
      }
    }

    // ---- the clock ----

    /** wakeup */
    method Wakeup()
      requires Valid() && Inv(View())
      modifies this, tab, tab.qkey, tab.qnext, tab.qprev
      ensures Valid() && View() == S.Wakeup(old(View()))
    {
      hide Inv, Deferred, DeferStart, DeferStop, ReadyP, Weak;
      DeferStartOk(View());
      StartDefer();
      var more := Expired();
      while more
        invariant Valid() && Deferred(View(), NONE)
        invariant WakeLoop(View()) == WakeLoop(DeferStart(old(View())))
        invariant more <==> View().sleep != [] && View().sleep[0].key <= 0
        decreases |View().sleep|
      {
        WakeHead(View());
        WakeFirstSleeper();
        more := Expired();
      }
      StopDefer();
    }

    /** nonempty(sleepq) && firstkey(sleepq) <= 0 */
    method Expired() returns (b: bool)
      requires Valid()
      ensures b <==> View().sleep != [] && View().sleep[0].key <= 0
    {
      var empty := tab.IsEmpty(SLEEPQ);
      if empty {
        return false;
      }
      tab.Ends(SLEEPQ);
      tab.At(SLEEPQ, 0);
      return tab.qkey[tab.qnext[tab.Head(SLEEPQ)]] <= 0;
    }

    /** ready(dequeue(sleepq)) */
    method WakeFirstSleeper()
      requires Valid() && Deferred(View(), NONE) && View().sleep != []
      modifies this, tab, tab.qkey, tab.qnext, tab.qprev
      ensures Valid() && View() == ReadyP(old(View()).(sleep := old(View()).sleep[1..]), old(View()).sleep[0].pid)
    {
      hide Weak, ReadyP, Nowhere;
      FirstSleeper(View());
      ghost var l := tab.lists;
      var pid := tab.Dequeue(SLEEPQ);
      ViewLists(procs, sems, l, currpid, ndefers, attempt, preempt, l[SLEEPQ][1..]);
      ReadyProc(pid, NONE);
    }

    /** clkhandler, the sleepers. */
    method Tick()
      requires Valid() && Inv(View())
      modifies this, tab, tab.qkey, tab.qnext, tab.qprev
      ensures Valid() && View() == S.Tick(old(View()))
    {
      hide Inv, S.Wakeup;
      var empty := tab.IsEmpty(SLEEPQ);
      if empty {
        return;
      }
      DownOk(View());
      var expired := CountDown();
      if expired {
        Wakeup();
      }
    }

    /** The key of the first sleeper is counted down; whether it is used up. */
    method CountDown() returns (expired: bool)
      requires Valid() && View().sleep != []
      modifies tab, tab.qkey
      ensures Valid() && View() == old(View()).(sleep := D.Down(old(View()).sleep)) && View().sleep != []
      ensures expired <==> View().sleep[0].key <= 0
    {
      tab.Ends(SLEEPQ);
      tab.At(SLEEPQ, 0);
      ghost var l := tab.lists;
      var first := tab.qnext[tab.Head(SLEEPQ)];
      tab.Lower(first, 1, SLEEPQ, 0);
      assert tab.lists[SLEEPQ] == D.Down(l[SLEEPQ]);
      ViewLists(procs, sems, l, currpid, ndefers, attempt, preempt, D.Down(l[SLEEPQ]));
      tab.At(SLEEPQ, 0);
      expired := tab.qkey[first] <= 0;
    }

    /** clkhandler, the time slice. */
    method Slice()
      requires Valid() && Inv(View())
      modifies this, tab, tab.qkey, tab.qnext, tab.qprev
      ensures Valid() && View() == S.Slice(old(View()))
    {
      hide Weak, S.Resched;
      WeakAttempt(View(), NONE, NONE, attempt, 0, QUANTUM);
      preempt := preempt - 1;
      if preempt <= 0 {
        preempt := QUANTUM;
        Resched();
      }
    }

    /** The place of a waiting process in the queue of its semaphore. */
    lemma WaiterPlace(k: nat, p: int) returns (i: nat)
      requires Valid() && k < |sems| && p in View().sems[k].q
      ensures i < |tab.lists[SemQueue(k)]| && tab.lists[SemQueue(k)][i].pid == p && D.Distinct(tab.lists[SemQueue(k)])
    {
      hide ListOk;
      SemAt(k);
      var q := View().sems[k].q;
      i :| 0 <= i < |q| && q[i] == p;
    }

    /** firstkey of the ready list. */
    lemma FirstIs()
      requires Valid()
      ensures 0 <= tab.qnext[tab.Head(READYLIST)] < tab.qkey.Length
      ensures tab.qkey[tab.qnext[tab.Head(READYLIST)]] == FirstKey(tab.lists[READYLIST])
    {
      tab.Ends(READYLIST);
      if tab.lists[READYLIST] != [] { tab.At(READYLIST, 0); }
    }
  }

  /** n processes released and counted, and the last look at the count. */
  function Counted(s: Sched, k: int, n: nat): Sched {
    var d := Drain(s, k, n);
    if 0 <= k < |d.sems| then SetSem(d, k, d.sems[k].(count := d.sems[k].count + n + 1)) else d
  }

  lemma WaiterIn(s: Sched, p: int)
    requires Inv(s) && InTab(s, p) && s.procs[p].state == Waiting
    ensures 0 <= s.procs[p].sem < |s.sems| && p in s.sems[s.procs[p].sem].q
  {
    hide Base, ReadyOk, SleepOk, CountOk;
    assert Waits(s.procs, s.procs[p].sem, p);
    assert QueueOk(s.procs, s.procs[p].sem, s.sems[s.procs[p].sem].q, NONE);
  }

  lemma SleeperPlace(s: Sched, p: int)
    requires Weak(s, NONE, NONE) && InTab(s, p) && Asleep(s.procs[p].state)
    ensures D.Place(s.sleep, p) < |s.sleep|
  {
    hide Base, ReadyOk, SemsOk, D.Distinct;
    PlaceOn(s.sleep, p);
  }

  lemma ReadyPlace(s: Sched, p: int)
    requires Weak(s, NONE, NONE) && InTab(s, p) && s.procs[p].state == Ready
    ensures D.Place(s.ready, p) < |s.ready|
    ensures Unlink(s.ready, p) == Cut(s.ready, D.Place(s.ready, p))
  {
    hide Base, SleepOk, SemsOk, D.Distinct, D.Descending;
    PlaceOn(s.ready, p);
  }

  lemma FirstSleeper(s: Sched)
    requires Deferred(s, NONE) && s.sleep != []
    ensures InTab(s, s.sleep[0].pid) && s.procs[s.sleep[0].pid].state != Free
    ensures Weak(s.(sleep := s.sleep[1..]), s.sleep[0].pid, NONE)
  {
    hide Weak, D.Distinct, D.On;
    SleeperIn(s);
    LeaveSleep(s, s.sleep[0].pid, NONE, s.sleep[1..]);
  }

  lemma SignalParts(s: Sched, k: nat)
    requires k < |s.sems|
    ensures s.sems[k].q != [] ==>
      var s1 := SetSem(s, k, s.sems[k].(count := s.sems[k].count + 1));
      SetSem(s1, k, s1.sems[k].(q := s1.sems[k].q[1..]))
        == SetSem(s, k, s.sems[k].(count := s.sems[k].count + 1, q := s.sems[k].q[1..]))
  {}

  lemma DrainFirst(s: Sched, k: int, n: nat)
    requires 0 <= k < |s.sems| && n > 0
    ensures Drain(s, k, n) == Drain(Release(s, k), k, n - 1)
  {}

  lemma DrainNone(s: Sched, k: int)
    ensures Drain(s, k, 0) == s
  {}

  lemma StartSame(s: Sched)
    ensures DeferStart(s).sems == s.sems
  {}

  lemma StartSet(s: Sched, k: nat, sem: Sem)
    requires k < |s.sems|
    ensures SetSem(DeferStart(s), k, sem) == DeferStart(SetSem(s, k, sem)) && DeferStart(s).sems == s.sems
  {}

  /** While its queue need not agree with it, a count may be anything. */
  lemma DeferredSet(s: Sched, k: nat, c: int)
    requires Deferred(s, k) && k < |s.sems|
    ensures Deferred(SetSem(s, k, s.sems[k].(count := c)), k)
  {
    var t := SetSem(s, k, s.sems[k].(count := c));
    assert forall m :: 0 <= m < |s.sems| ==> t.sems[m].q == s.sems[m].q && (m != k ==> t.sems[m] == s.sems[m]);
    hide Base, ReadyOk, SleepOk, QueueOk, CountOk;
    assert SemsOk(t.procs, t.sems, NONE, k);
  }

  /** One process more. */
  lemma DrainMore(s: Sched, k: nat, i: nat)
    requires Deferred(s, k) && k < |s.sems| && i < |s.sems[k].q|
    ensures Deferred(Drain(s, k, i), k) && k < |Drain(s, k, i).sems| && Drain(s, k, i + 1) == Release(Drain(s, k, i), k)
    ensures Drain(s, k, i).sems[k] == s.sems[k].(q := s.sems[k].q[i..])
    ensures Deferred(Drain(s, k, i + 1), k) && k < |Drain(s, k, i + 1).sems|
    ensures Drain(s, k, i + 1).sems[k] == s.sems[k].(q := s.sems[k].q[i + 1..])
  {
    hide Deferred, Release;
    DrainOk(s, k, i);
    DrainOk(s, k, i + 1);
    DrainLast(s, k, i);
    assert k < |Drain(s, k, i + 1).sems|;
  }

  lemma {:induction false} DrainLast(s: Sched, k: nat, i: nat)
    requires Deferred(s, k) && k < |s.sems| && i < |s.sems[k].q|
    ensures k < |Drain(s, k, i).sems| && Drain(s, k, i + 1) == Release(Drain(s, k, i), k)
    decreases i
  {
    hide Deferred, Release;
    DrainOk(s, k, i);
    if i == 0 {
      ReleaseLater(s, k);
      DrainNone(s, k);
      DrainNone(Release(s, k), k);
    } else {
      ReleaseLater(s, k);
      DrainLast(Release(s, k), k, i - 1);
    }
  }

  /** Releasing a process has nothing to do with the count. */
  lemma ReleaseCount(s: Sched, k: nat, c: int)
    requires Deferred(s, k) && k < |s.sems| && s.sems[k].q != []
    ensures k < |Release(s, k).sems|
    ensures Release(SetSem(s, k, s.sems[k].(count := c)), k)
      == SetSem(Release(s, k), k, Release(s, k).sems[k].(count := c))
  {
    hide Weak, D.Insert;
    ReleaseLater(s, k);
    var sem := s.sems[k].(q := s.sems[k].q[1..]);
    var a := SetSem(s, k, sem);
    var t := SetSem(s, k, s.sems[k].(count := c));
    assert SetSem(t, k, t.sems[k].(q := t.sems[k].q[1..])) == SetSem(a, k, sem.(count := c));
  }

  lemma NowReady(s: Sched, p: int)
    requires InTab(s, p)
    ensures |MakeReady(s, p).procs| == |s.procs| && MakeReady(s, p).procs[p].state == Ready
  {}

  lemma CurrInTab(s: Sched)
    requires Weak(s, NONE, NONE)
    ensures InTab(s, s.curr)
  {
    hide ReadyOk, SleepOk, SemsOk;
  }
}
