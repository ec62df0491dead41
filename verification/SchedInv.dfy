/** The scheduler's invariant: states agree with the lists, one process is current, semaphore
    counts agree with the queues. */
module SchedInv {
  import opened Seqs
  import opened Delta
  import opened SchedSpec

  /** The states in which a process is on no list. */
  predicate Loose(st: PState) { st == Free || st == Curr || st == Recv || st == Susp || st == Frame }

  predicate Asleep(st: PState) { st == Sleep || st == RecTim }

  // The process x, if any, is on no list whatever its state; the count of semaphore y, if any, need
  // not agree with its queue.

  ghost predicate Base(procs: seq<Proc>, curr: int, x: int) {
    && 0 <= curr < |procs|
    && (forall p :: 0 <= p < |procs| ==> MINKEY < procs[p].prio <= MAXKEY)
    && (forall p :: 0 <= p < |procs| && procs[p].state == Curr ==> p == curr)
    && (x != NULLPROC ==> procs[NULLPROC].state == Ready || procs[NULLPROC].state == Curr)
  }

  ghost predicate ReadyOk(procs: seq<Proc>, ready: seq<Ent>, x: int) {
    && Distinct(ready) && Descending(ready)
    && (forall i :: 0 <= i < |ready| ==> ReadyEnt(procs, ready[i], x))
    && (forall p :: 0 <= p < |procs| && p != x && procs[p].state == Ready ==> On(ready, p))
  }

  predicate ReadyEnt(procs: seq<Proc>, e: Ent, x: int) {
    0 <= e.pid < |procs| && procs[e.pid].state == Ready && e.key == procs[e.pid].prio && e.pid != x
  }

  ghost predicate SleepOk(procs: seq<Proc>, sleep: seq<Ent>, x: int) {
    && Distinct(sleep)
    && (forall p :: On(sleep, p) ==> 0 <= p < |procs| && p != x && Asleep(procs[p].state))
    && (forall p :: 0 <= p < |procs| && p != x && Asleep(procs[p].state) ==> On(sleep, p))
  }

  ghost predicate Waits(procs: seq<Proc>, k: int, p: int) { 0 <= p < |procs| && procs[p].state == Waiting
    && procs[p].sem == k }

  ghost predicate QueueOk(procs: seq<Proc>, k: int, q: seq<int>, x: int) {
    && NoDup(q)
    && (forall i :: 0 <= i < |q| ==> Waits(procs, k, q[i]) && q[i] != x)
    && (forall p :: Waits(procs, k, p) && p != x ==> p in q)
  }

  /** A used semaphore has as many waiting processes as its count is below zero. */
  predicate CountOk(sem: Sem) { |sem.q| == if sem.used && sem.count < 0 then -sem.count else 0 }

  ghost predicate SemsOk(procs: seq<Proc>, sems: seq<Sem>, x: int, y: int) {
    && (forall k :: 0 <= k < |sems| ==> QueueOk(procs, k, sems[k].q, x))
    && (forall k :: 0 <= k < |sems| && k != y ==> CountOk(sems[k]))
    && (forall p :: 0 <= p < |procs| && p != x && procs[p].state == Waiting ==> 0 <= procs[p].sem < |sems|)
  }

  ghost predicate Weak(s: Sched, x: int, y: int) {
    && Base(s.procs, s.curr, x) && ReadyOk(s.procs, s.ready, x) && SleepOk(s.procs, s.sleep, x)
    && SemsOk(s.procs, s.sems, x, y)
  }

  const NONE := -1

  /** Between system calls: no deferral, exactly one current process, and no ready process of a
      higher priority. */
  ghost predicate Inv(s: Sched) {
    && Weak(s, NONE, NONE) && s.ndefers == 0 && s.procs[s.curr].state == Curr
    && (forall i :: 0 <= i < |s.ready| ==> s.ready[i].key <= s.procs[s.curr].prio)
  }

  // ---- a process that is on no list may be set aside, and given another state ----

  lemma SetAside(s: Sched, p: int, y: int)
    requires Weak(s, NONE, y) && InTab(s, p) && Loose(s.procs[p].state)
    ensures Weak(s, p, y)
  {
    hide Distinct, Descending, NoDup, CountOk;
    forall k, i | 0 <= k < |s.sems| && 0 <= i < |s.sems[k].q| ensures s.sems[k].q[i] != p {
      assert QueueOk(s.procs, k, s.sems[k].q, NONE) && Waits(s.procs, k, s.sems[k].q[i]);
    }
    forall k | 0 <= k < |s.sems| ensures QueueOk(s.procs, k, s.sems[k].q, p) {
      assert QueueOk(s.procs, k, s.sems[k].q, NONE);
    }
  }

  /** Changing what belongs to p only, while p is set aside. */
  lemma SetSemsOk(procs: seq<Proc>, sems: seq<Sem>, p: int, y: int, pr: Proc)
    requires SemsOk(procs, sems, p, y) && 0 <= p < |procs| && pr.state != Waiting
    ensures SemsOk(procs[p := pr], sems, p, y) && SemsOk(procs[p := pr], sems, NONE, y)
  {
    hide NoDup, CountOk;
    forall k | 0 <= k < |sems| ensures QueueOk(procs[p := pr], k, sems[k].q, p)
      && QueueOk(procs[p := pr], k, sems[k].q, NONE) {
      assert QueueOk(procs, k, sems[k].q, p);
    }
  }

  lemma SetOthers(s: Sched, p: int, y: int, pr: Proc)
    requires Weak(s, p, y) && InTab(s, p) && MINKEY < pr.prio <= MAXKEY && pr.state != Waiting
    requires (pr.state == Curr ==> p == s.curr) && (p == NULLPROC ==> pr.state == Curr || pr.state == Ready)
    ensures Base(s.procs[p := pr], s.curr, NONE)
    ensures SleepOk(s.procs[p := pr], s.sleep, p) && (!Asleep(pr.state) ==> SleepOk(s.procs[p := pr], s.sleep, NONE))
    ensures SemsOk(s.procs[p := pr], s.sems, NONE, y)
    ensures ReadyOk(s.procs[p := pr], s.ready, p) && (pr.state != Ready ==> ReadyOk(s.procs[p := pr], s.ready, NONE))
  {
    SetSemsOk(s.procs, s.sems, p, y, pr);
    hide Distinct, Descending, SemsOk, On;
  }

  /** A process set aside gets a state in which it is on no list. */
  lemma GiveLoose(s: Sched, p: int, y: int, pr: Proc)
    requires Weak(s, p, y) && InTab(s, p) && MINKEY < pr.prio <= MAXKEY && Loose(pr.state)
    requires (pr.state == Curr ==> p == s.curr) && (p == NULLPROC ==> pr.state == Curr)
    ensures Weak(s.(procs := s.procs[p := pr]), NONE, y)
  {
    hide Base, SleepOk, SemsOk, ReadyOk;
    SetOthers(s, p, y, pr);
  }

  /** A process set aside becomes ready. */
  lemma GiveReady(s: Sched, p: int, y: int)
    requires Weak(s, p, y) && InTab(s, p)
    ensures Weak(MakeReady(s, p), NONE, y)
  {
    var pr := s.procs[p].(state := Ready);
    assert Base(s.procs, s.curr, p);
    SetOthers(s, p, y, pr);
    hide Base, SleepOk, SemsOk, Weak;
    WeakParts(s, p, y);
    ReadyInsert(s.procs[p := pr], s.ready, p);
    WeakFrom(MakeReady(s, p), NONE, y);
  }

  lemma WeakParts(s: Sched, x: int, y: int)
    requires Weak(s, x, y)
    ensures Base(s.procs, s.curr, x) && ReadyOk(s.procs, s.ready, x) && SleepOk(s.procs, s.sleep, x)
      && SemsOk(s.procs, s.sems, x, y)
  {}

  lemma WeakFrom(s: Sched, x: int, y: int)
    requires Base(s.procs, s.curr, x) && ReadyOk(s.procs, s.ready, x) && SleepOk(s.procs, s.sleep, x)
      && SemsOk(s.procs, s.sems, x, y)
    ensures Weak(s, x, y)
  {}

  lemma ReadyInsert(procs: seq<Proc>, ready: seq<Ent>, p: int)
    requires ReadyOk(procs, ready, p) && 0 <= p < |procs| && procs[p].state == Ready
    ensures ReadyOk(procs, Insert(ready, p, procs[p].prio), NONE)
  {
    var r := Insert(ready, p, procs[p].prio);
    InsertOrder(ready, p, procs[p].prio);
    assert !On(ready, p);
    forall q ensures On(r, q) <==> On(ready, q) || q == p { InsertOn(ready, p, procs[p].prio, q); }
    InsertOn(ready, p, procs[p].prio, p);
    var i := Slot(ready, procs[p].prio);
    hide Distinct, Descending, On;
    forall j | 0 <= j < |r| ensures ReadyEnt(procs, r[j], NONE) {
      if j != i { assert r[j] == ready[if j < i then j else j - 1]; }
    }
  }

  // ---- taking a process off its list ----

  lemma UnlinkOn(l: seq<Ent>, p: int, q: int)
    requires Distinct(l)
    ensures On(Unlink(l, p), q) <==> On(l, q) && q != p
    ensures Distinct(Unlink(l, p)) && (Descending(l) ==> Descending(Unlink(l, p)))
  {
    var (i, r) := (Place(l, p), Unlink(l, p));
    if i < |l| {
      assert forall j :: 0 <= j < |r| ==> r[j] == l[if j < i then j else j + 1];
      if On(l, q) && q != p {
        var j :| 0 <= j < |l| && l[j].pid == q;
        assert r[if j < i then j else j - 1] == l[j];
      }
    }
  }

  lemma LeaveReady(s: Sched, p: int, y: int)
    requires Weak(s, NONE, y) && InTab(s, p) && s.procs[p].state == Ready
    ensures Weak(s.(ready := Unlink(s.ready, p)), p, y)
  {
    hide SleepOk, SemsOk, Base;
    WeakParts(s, NONE, y);
    var r := Unlink(s.ready, p);
    forall q ensures On(r, q) <==> On(s.ready, q) && q != p { UnlinkOn(s.ready, p, q); }
    UnlinkOn(s.ready, p, p);
    forall j | 0 <= j < |r| ensures ReadyEnt(s.procs, r[j], p) { UnlinkEnt(s.procs, s.ready, p, j); }
    OtherLists(s, p, y);
  }

  lemma UnlinkEnt(procs: seq<Proc>, l: seq<Ent>, p: int, j: nat)
    requires Distinct(l) && (forall i :: 0 <= i < |l| ==> ReadyEnt(procs, l[i], NONE)) && j < |Unlink(l, p)|
    ensures ReadyEnt(procs, Unlink(l, p)[j], p)
  {
    var i := Place(l, p);
    var e := Unlink(l, p)[j];
    assert e == l[if j < i then j else j + 1];
    UnlinkOn(l, p, p);
    assert On(Unlink(l, p), e.pid);
  }

  /** A process on the ready list is on no other list. */
  lemma OtherLists(s: Sched, p: int, y: int)
    requires Weak(s, NONE, y) && InTab(s, p) && s.procs[p].state == Ready
    ensures SleepOk(s.procs, s.sleep, p) && SemsOk(s.procs, s.sems, p, y) && Base(s.procs, s.curr, p)
  {
    hide Distinct, Descending, On, NoDup, CountOk, ReadyOk;
    forall k | 0 <= k < |s.sems| ensures QueueOk(s.procs, k, s.sems[k].q, p) {
      assert QueueOk(s.procs, k, s.sems[k].q, NONE);
      forall i | 0 <= i < |s.sems[k].q| ensures s.sems[k].q[i] != p { assert Waits(s.procs, k, s.sems[k].q[i]); }
    }
  }

  lemma LeaveSleep(s: Sched, p: int, y: int, l: seq<Ent>)
    requires Weak(s, NONE, y) && InTab(s, p) && Asleep(s.procs[p].state)
    requires Distinct(l) && forall q :: On(l, q) <==> On(s.sleep, q) && q != p
    ensures Weak(s.(sleep := l), p, y)
  {
    hide Distinct, Descending, On, NoDup, CountOk;
    assert forall i :: 0 <= i < |s.ready| ==> ReadyEnt(s.procs, s.ready[i], NONE);
    forall k | 0 <= k < |s.sems| ensures QueueOk(s.procs, k, s.sems[k].q, p) {
      assert QueueOk(s.procs, k, s.sems[k].q, NONE);
      forall i | 0 <= i < |s.sems[k].q| ensures s.sems[k].q[i] != p { assert Waits(s.procs, k, s.sems[k].q[i]); }
    }
  }

  /** A process leaves the queue of its semaphore, whose count goes up with it or is left alone. */
  lemma LeaveSem(s: Sched, k: int, p: int, y: int, sem: Sem)
    requires Weak(s, NONE, y) && InTab(s, p) && 0 <= k < |s.sems| && Waits(s.procs, k, p)
    requires NoDup(sem.q) && (forall q :: q in sem.q <==> q in s.sems[k].q && q != p)
    requires k != y ==> CountOk(sem)
    ensures Weak(SetSem(s, k, sem), p, y)
  {
    hide Distinct, Descending, On, CountOk, NoDup;
    forall m | 0 <= m < |s.sems| ensures QueueOk(s.procs, m, SetSem(s, k, sem).sems[m].q, p) {
      var q := SetSem(s, k, sem).sems[m].q;
      assert QueueOk(s.procs, m, s.sems[m].q, NONE) && QueueOk(s.procs, k, s.sems[k].q, NONE);
      forall i | 0 <= i < |q| ensures Waits(s.procs, m, q[i]) && q[i] != p {
        assert q[i] in q;
        var j :| 0 <= j < |s.sems[m].q| && s.sems[m].q[j] == q[i];
        assert Waits(s.procs, m, s.sems[m].q[j]);
      }
    }
    assert forall i :: 0 <= i < |s.ready| ==> ReadyEnt(s.procs, s.ready[i], NONE);
  }

  // ---- a process set aside blocks ----

  lemma GiveSleep(s: Sched, p: int, y: int, key: int, st: PState)
    requires Weak(s, p, y) && InTab(s, p) && p != NULLPROC && Asleep(st)
    ensures Weak(SetState(s.(sleep := InsertD(s.sleep, p, key)), p, st), NONE, y)
  {
    var pr := s.procs[p].(state := st);
    assert Base(s.procs, s.curr, p);
    SetOthers(s, p, y, pr);
    WeakParts(s, p, y);
    assert !On(s.sleep, p);
    InsertDDistinct(s.sleep, p, key);
    forall q { InsertDOn(s.sleep, p, key, q); }
    hide Base, ReadyOk, SemsOk, Distinct, On;
    WeakFrom(SetState(s.(sleep := InsertD(s.sleep, p, key)), p, st), NONE, y);
  }

  /** The process set aside joins the queue of semaphore k, whose count goes below zero with it. */
  lemma GiveWait(s: Sched, p: int, k: int)
    requires Weak(s, p, NONE) && InTab(s, p) && p != NULLPROC && 0 <= k < |s.sems| && s.sems[k].used
      && s.sems[k].count <= 0
    ensures var sem := s.sems[k].(count := s.sems[k].count - 1, q := s.sems[k].q + [p]);
      Weak(SetSem(s.(procs := s.procs[p := s.procs[p].(state := Waiting, sem := k)]), k, sem), NONE, NONE)
  {
    var pr := s.procs[p].(state := Waiting, sem := k);
    var procs := s.procs[p := pr];
    var sem := s.sems[k].(count := s.sems[k].count - 1, q := s.sems[k].q + [p]);
    WaitOthers(s, p, pr);
    hide Distinct, Descending, On;
    var sems := s.sems[k := sem];
    forall m | 0 <= m < |sems| ensures QueueOk(procs, m, sems[m].q, NONE) && CountOk(sems[m]) {
      assert QueueOk(s.procs, m, s.sems[m].q, p) && CountOk(s.sems[m]);
      forall q | Waits(procs, m, q) ensures q in sems[m].q {
        assert q != p ==> Waits(s.procs, m, q);
      }
    }
    hide Base, ReadyOk, SleepOk;
  }

  lemma WaitOthers(s: Sched, p: int, pr: Proc)
    requires Weak(s, p, NONE) && InTab(s, p) && p != NULLPROC && pr.state == Waiting && pr.prio == s.procs[p].prio
    ensures Base(s.procs[p := pr], s.curr, NONE) && ReadyOk(s.procs[p := pr], s.ready, NONE)
      && SleepOk(s.procs[p := pr], s.sleep, NONE)
  {
    hide Distinct, Descending, SemsOk, On;
  }

  // ---- the order of the ready list ----

  ghost predicate Before(l: seq<Ent>, p: int, q: int) {
    exists i, j :: 0 <= i < j < |l| && l[i].pid == p && l[j].pid == q
  }

  /** Processes have joined, the others stand in their order. */
  ghost predicate Grown(l: seq<Ent>, m: seq<Ent>) {
    (forall p :: On(l, p) ==> On(m, p)) && (forall p, q :: Before(l, p, q) ==> Before(m, p, q))
  }

  /** Processes have joined, and then at most one has left. */
  ghost predicate Served(l: seq<Ent>, r: seq<Ent>) { exists m, p :: Grown(l, m) && Distinct(m) && r == Unlink(m, p) }

  lemma InsertGrown(l: seq<Ent>, p: int, key: int)
    ensures Grown(l, Insert(l, p, key))
  {
    var r := Insert(l, p, key);
    forall q | On(l, q) ensures On(r, q) { InsertOn(l, p, key, q); }
    forall x, y | Before(l, x, y) ensures Before(r, x, y) {
      var i, j :| 0 <= i < j < |l| && l[i].pid == x && l[j].pid == y;
      var k := Slot(l, key);
      var (i', j') := (if i < k then i else i + 1, if j < k then j else j + 1);
      assert r[i'] == l[i] && r[j'] == l[j];
    }
  }

  lemma ServedGrown(l: seq<Ent>, m: seq<Ent>, r: seq<Ent>)
    requires Grown(l, m) && Served(m, r)
    ensures Served(l, r)
  {
    hide Before, On, Distinct, Unlink;
    var k: seq<Ent>, p: int :| Grown(m, k) && Distinct(k) && r == Unlink(k, p);
    assert Grown(l, k);
  }

  lemma ServedSame(l: seq<Ent>)
    requires Distinct(l)
    ensures Served(l, l) && Grown(l, l)
  {
    hide Before, On;
    var p := if l == [] then 0 else NotOn(l);
    assert Unlink(l, p) == l;
    assert Grown(l, l);
  }

  /** Some number that is not a process of the list. */
  function NotOn(l: seq<Ent>): (p: int)
    ensures Place(l, p) == |l|
  {
    Above(l, Top(l) + 1);
    Top(l) + 1
  }

  function Top(l: seq<Ent>): (t: int)
    ensures forall i :: 0 <= i < |l| ==> l[i].pid <= t
  {
    if l == [] then 0 else if l[0].pid > Top(l[1..]) then l[0].pid else Top(l[1..])
  }

  lemma Above(l: seq<Ent>, p: int)
    requires forall i :: 0 <= i < |l| ==> l[i].pid < p
    ensures Place(l, p) == |l|
  {}

  lemma ServedUnlink(l: seq<Ent>, p: int)
    requires Distinct(l)
    ensures Served(l, Unlink(l, p)) && (l != [] ==> Served(l, l[1..]))
  {
    ServedSame(l);
    if l != [] { assert Unlink(l, l[0].pid) == l[1..]; }
  }

  /** Of two processes that go on being ready, the one that came first stays first. */
  lemma ServedOrder(l: seq<Ent>, r: seq<Ent>, p: int, q: int)
    requires Served(l, r) && Before(l, p, q) && On(r, p) && On(r, q)
    ensures Before(r, p, q)
  {
    hide Before, On, Distinct, Unlink;
    var m: seq<Ent>, x: int :| Grown(l, m) && Distinct(m) && r == Unlink(m, x);
    UnlinkOn(m, x, p);
    UnlinkOn(m, x, q);
    UnlinkBefore(m, x, p, q);
  }

  lemma UnlinkBefore(m: seq<Ent>, x: int, p: int, q: int)
    requires Before(m, p, q) && p != x && q != x
    ensures Before(Unlink(m, x), p, q)
  {
    var i, j :| 0 <= i < j < |m| && m[i].pid == p && m[j].pid == q;
    var k, r := Place(m, x), Unlink(m, x);
    if k < |m| {
      var i' := if i < k then i else i - 1;
      var j' := if j < k then j else j - 1;
      assert 0 <= i' < j' < |r| && r[i'] == m[i] && r[j'] == m[j];
    }
  }

  lemma ReadyDistinct(s: Sched, x: int, y: int)
    requires Weak(s, x, y)
    ensures Distinct(s.ready)
  {
    hide Base, SleepOk, SemsOk, Distinct;
  }

  // ---- resched ----

  /** The first ready process becomes the current one, when the one before it is not current any
      more. */
  lemma DispatchOk(s: Sched)
    requires Weak(s, NONE, NONE) && s.procs[s.curr].state != Curr && s.ndefers == 0
    ensures s.ready != [] && Inv(Dispatch(s)) && Served(s.ready, Dispatch(s).ready)
    ensures Dispatch(s).sleep == s.sleep && Dispatch(s).sems == s.sems && |Dispatch(s).procs| == |s.procs|
  {
    hide Weak, Served, Distinct, Unlink;
    NullReady(s);
    ReadyDistinct(s, NONE, NONE);
    var p := s.ready[0].pid;
    ServedUnlink(s.ready, p);
    HeadReady(s);
    HeadPrio(s);
    UnlinkHead(s.ready);
    LeaveReady(s, p, NONE);
    var s1 := s.(ready := s.ready[1..], curr := p, preempt := QUANTUM);
    MoveCurr(s.(ready := s.ready[1..]), p);
    GiveLoose(s1, p, NONE, s1.procs[p].(state := Curr));
    assert Dispatch(s) == s1.(procs := s1.procs[p := s1.procs[p].(state := Curr)]);
  }

  lemma UnlinkHead(l: seq<Ent>)
    requires l != []
    ensures Unlink(l, l[0].pid) == l[1..]
  {}

  /** The first ready process has a priority within the bounds, and none behind it has a higher one. */
  lemma HeadPrio(s: Sched)
    requires Weak(s, NONE, NONE) && s.ready != []
    ensures InTab(s, s.ready[0].pid) && MINKEY < s.procs[s.ready[0].pid].prio <= MAXKEY
    ensures forall i :: 0 <= i < |s.ready[1..]| ==> s.ready[1..][i].key <= s.procs[s.ready[0].pid].prio
  {
    hide SleepOk, SemsOk, Distinct, On;
    assert ReadyEnt(s.procs, s.ready[0], NONE);
    assert forall i :: 0 <= i < |s.ready[1..]| ==> s.ready[1..][i] == s.ready[i + 1];
  }

  /** The null process never blocks, so that somebody is ready. */
  lemma NullReady(s: Sched)
    requires Weak(s, NONE, NONE) && s.procs[s.curr].state != Curr
    ensures s.ready != [] && On(s.ready, NULLPROC)
  {
    hide SleepOk, SemsOk, Distinct, Descending;
  }

  lemma HeadReady(s: Sched)
    requires Weak(s, NONE, NONE) && s.ready != []
    ensures InTab(s, s.ready[0].pid) && s.procs[s.ready[0].pid].state == Ready
  {
    hide SleepOk, SemsOk, Distinct, Descending;
    assert ReadyEnt(s.procs, s.ready[0], NONE);
  }

  lemma MoveCurr(s: Sched, p: int)
    requires Weak(s, p, NONE) && InTab(s, p) && s.procs[s.curr].state != Curr
    ensures Weak(s.(curr := p, preempt := QUANTUM), p, NONE)
  {
    hide SleepOk, SemsOk, ReadyOk;
  }

  /** resched finds a process, and the one it finds has the highest priority. */
  lemma ReschedOk(s: Sched)
    requires Weak(s, NONE, NONE) && s.ndefers == 0
    ensures Inv(Resched(s)) && Served(s.ready, Resched(s).ready)
    ensures Resched(s).sleep == s.sleep && Resched(s).sems == s.sems && |Resched(s).procs| == |s.procs|
  {
    assert InTab(s, s.curr) by { hide ReadyOk, SleepOk, SemsOk; }
    if s.procs[s.curr].state == Curr && s.procs[s.curr].prio > FirstKey(s.ready) {
      KeysBelow(s);
      ReadyDistinct(s, NONE, NONE);
      ServedSame(s.ready);
    } else if s.procs[s.curr].state == Curr {
      SetAside(s, s.curr, NONE);
      GiveReady(s, s.curr, NONE);
      InsertGrown(s.ready, s.curr, s.procs[s.curr].prio);
      hide Weak, Served;
      DispatchOk(MakeReady(s, s.curr));
      ServedGrown(s.ready, MakeReady(s, s.curr).ready, Dispatch(MakeReady(s, s.curr)).ready);
    } else {
      DispatchOk(s);
    }
  }

  lemma KeysBelow(s: Sched)
    requires Weak(s, NONE, NONE)
    ensures forall i :: 0 <= i < |s.ready| ==> s.ready[i].key <= FirstKey(s.ready)
  {
    hide SleepOk, SemsOk, Base, Distinct;
  }
}
