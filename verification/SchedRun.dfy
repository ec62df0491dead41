/** Runs of the scheduler: every reachable state satisfies the invariant; what a step does to the time
    that a sleeper has left. */
module SchedRun {
  import opened Seqs
  import opened Delta
  import opened SchedSpec
  import opened SchedInv
  import opened SchedSteps

  /** The calls, all made by the current process, and the clock. */
  datatype Op =
    | OpWait(k: int) | OpSignal(k: int) | OpSignaln(k: int, n: int) | OpSemreset(k: int, n: int)
    | OpSemdelete(k: int) | OpSemcreate(k: int, n: int)
    | OpSend(p: int, msg: int) | OpReceive | OpTakeMsg | OpRecvtime(maxwait: int) | OpSleepms(delay: int) | OpYield
    | OpSuspend(p: int) | OpResume(p: int) | OpCreate(p: int, prio: int) | OpKillEnd(p: int)
    | OpFrameBlock | OpFrameWakeup(ps: seq<int>) | OpTick | OpSlice

  function Step(s: Sched, op: Op): Sched {
    match op
    case OpWait(k) => Wait(s, k)
    case OpSignal(k) => Signal(s, k)
    case OpSignaln(k, n) => Signaln(s, k, n)
    case OpSemreset(k, n) => Semreset(s, k, n)
    case OpSemdelete(k) => Semdelete(s, k)
    case OpSemcreate(k, n) => Semcreate(s, k, n)
    case OpSend(p, msg) => Send(s, p, msg)
    case OpReceive => Receive(s)
    case OpTakeMsg => TakeMsg(s)
    case OpRecvtime(maxwait) => Recvtime(s, maxwait)
    case OpSleepms(delay) => Sleepms(s, delay)
    case OpYield => Resched(s)
    case OpSuspend(p) => Suspend(s, p)
    case OpResume(p) => Resume(s, p)
    case OpCreate(p, prio) => Create(s, p, prio)
    case OpKillEnd(p) => KillEnd(s, p)
    case OpFrameBlock => FrameBlock(s)
    case OpFrameWakeup(ps) => FrameWakeup(s, ps)
    case OpTick => Tick(s)
    case OpSlice => Slice(s)
  }

  /** The null process makes no call that could block, priorities fit their type, and framewakeup finds
      in the block queue what it can deal with (SchedFrames.WakeExact). */
  ghost predicate Enabled(s: Sched, op: Op) {
    match op
    case OpWait(k) => SemUsed(s, k) && s.sems[k].count <= 0 ==> s.curr != NULLPROC
    case OpReceive => s.curr != NULLPROC
    case OpRecvtime(_) => s.curr != NULLPROC
    case OpSleepms(_) => s.curr != NULLPROC
    case OpFrameBlock => s.curr != NULLPROC
    case OpCreate(_, prio) => MINKEY < prio <= MAXKEY
    case OpFrameWakeup(ps) => WakeFits(s.procs, ps)
    case _ => true
  }

  lemma StepOk(s: Sched, op: Op)
    requires Inv(s) && Enabled(s, op)
    ensures Inv(Step(s, op)) && Served(s.ready, Step(s, op).ready)
  {
    hide Weak, Resched, Served;
    match op {
      case OpWait(k) => WaitOk(s, k);
      case OpSignal(k) => SignalOk(s, k);
      case OpSignaln(k, n) => SignalnOk(s, k, n);
      case OpSemreset(k, n) => SemresetOk(s, k, n);
      case OpSemdelete(k) => SemdeleteOk(s, k);
      case OpSemcreate(k, n) => SemcreateOk(s, k, n);
      case OpSend(p, msg) => SendOk(s, p, msg);
      case OpReceive => ReceiveOk(s);
      case OpTakeMsg => TakeMsgOk(s);
      case OpRecvtime(maxwait) => RecvtimeOk(s, maxwait);
      case OpSleepms(delay) => SleepmsOk(s, delay);
      case OpYield => ReschedOk(s);
      case OpSuspend(p) => SuspendOk(s, p);
      case OpResume(p) => ResumeOk(s, p);
      case OpCreate(p, prio) => CreateOk(s, p, prio);
      case OpKillEnd(p) => KillEndOk(s, p);
      case OpFrameBlock => FrameBlockOk(s);
      case OpFrameWakeup(ps) => FrameWakeupOk(s, ps);
      case OpTick => TickOk(s);
      case OpSlice => SliceOk(s);
    }
  }

  ghost predicate Allowed(s: Sched, ops: seq<Op>)
    decreases |ops|
  {
    ops != [] ==> Enabled(s, ops[0]) && Allowed(Step(s, ops[0]), ops[1..])
  }

  function Run(s: Sched, ops: seq<Op>): Sched
    decreases |ops|
  {
    if ops == [] then s else Run(Step(s, ops[0]), ops[1..])
  }

  /** In every reachable state process states agree with the lists, one process is current, and the
      semaphore counts agree with their queues. */
  lemma {:induction false} RunOk(s: Sched, ops: seq<Op>)
    requires Inv(s) && Allowed(s, ops)
    ensures Inv(Run(s, ops))
    decreases |ops|
  {
    hide Inv, Step, Enabled;
    if ops != [] {
      StepOk(s, ops[0]);
      RunOk(Step(s, ops[0]), ops[1..]);
    }
  }

  // ---- what the invariant says ----

  /** No process is on two lists. */
  lemma OneList(s: Sched, p: int, k: int, m: int)
    requires Inv(s) && 0 <= k < m < |s.sems|
    ensures !(On(s.ready, p) && On(s.sleep, p))
    ensures !(On(s.ready, p) && p in s.sems[k].q) && !(On(s.sleep, p) && p in s.sems[k].q)
    ensures !(p in s.sems[k].q && p in s.sems[m].q)
  {
    hide Base, Distinct, Descending, NoDup, CountOk;
    assert QueueOk(s.procs, k, s.sems[k].q, NONE) && QueueOk(s.procs, m, s.sems[m].q, NONE);
    if On(s.ready, p) {
      var i :| 0 <= i < |s.ready| && s.ready[i].pid == p;
      assert ReadyEnt(s.procs, s.ready[i], NONE);
    }
  }

  /** Equal priorities are served in the order of their arrival: of two ready processes that go on
      being ready, the one in front stays in front; insert puts newcomers behind their equals and
      resched takes the front (see InsertOrder and Dispatch). */
  lemma StaysInFront(s: Sched, op: Op, p: int, q: int)
    requires Inv(s) && Enabled(s, op) && Before(s.ready, p, q) && On(Step(s, op).ready, p) && On(Step(s, op).ready, q)
    ensures Before(Step(s, op).ready, p, q)
  {
    hide Inv, Step, Enabled;
    StepOk(s, op);
    ServedOrder(s.ready, Step(s, op).ready, p, q);
  }

  // ---- sleeping ----

  /** The ticks a sleeper has left, or nothing. */
  ghost predicate LeftIs(s: Sched, p: int, d: int) { On(s.sleep, p) && Rem(s.sleep, p) == d }

  /** The delays that insertd can deal with. */
  predicate Timely(op: Op) {
    match op
    case OpRecvtime(maxwait) => 1 <= maxwait <= MAXKEY
    case OpSleepms(delay) => 0 <= delay <= MAXKEY
    case _ => true
  }

  /** The operation takes p off the sleep queue before its time: a message for a process that waits for
      one with a timeout, or its end. A message for a process in sleepms is stored and wakes nobody. */
  predicate Rouses(s: Sched, op: Op, p: int) {
    || (op == OpKillEnd(p))
    || (op.OpSend? && op.p == p && InTab(s, p) && s.procs[p].state == RecTim && !s.procs[p].hasmsg)
  }

  lemma SendStored(s: Sched, p: int, msg: int)
    requires InTab(s, p) && !Rouses(s, OpSend(p, msg), p)
    ensures Send(s, p, msg).sleep == s.sleep
  {
    hide ReadyP;
    if !Bad(s, p) { ReadySleep(s.(procs := s.procs[p := s.procs[p].(hasmsg := true, msg := msg)]), p); }
  }

  lemma SendRouses(s: Sched, p: int, msg: int)
    requires Rouses(s, OpSend(p, msg), p)
    ensures Send(s, p, msg).sleep == RemoveD(s.sleep, p)
  {
    hide ReadyP, RemoveD;
    var s1 := s.(procs := s.procs[p := s.procs[p].(hasmsg := true, msg := msg)]);
    ReadySleep(s1.(sleep := RemoveD(s1.sleep, p)), p);
  }

  lemma KillRouses(s: Sched, p: int)
    requires InTab(s, p) && p != NULLPROC && Asleep(s.procs[p].state)
    ensures KillEnd(s, p).sleep == RemoveD(s.sleep, p)
  {}

  /** Apart from the clock these are the only operations that do. */
  lemma RousesExact(s: Sched, op: Op, p: int)
    requires Inv(s) && Enabled(s, op) && !op.OpTick? && On(s.sleep, p)
    ensures On(Step(s, op).sleep, p) <==> !Rouses(s, op, p)
  {
    SleepAfter(s, op);
    SleepFacts(s, p);
    NotAsleep(s);
    hide Inv, Weak, Distinct, On, Rem, Step, InsertD, RemoveD;
    match op {
      case OpRecvtime(maxwait) => InsertDOn(s.sleep, s.curr, maxwait, p);
      case OpSleepms(delay) => InsertDOn(s.sleep, s.curr, Signed(delay), p);
      case OpSend(q, msg) =>
        RemoveDOn(s.sleep, q, p);
        if q == p { SendOff(s, p, msg); }
      case OpKillEnd(q) =>
        RemoveDOn(s.sleep, q, p);
        if q == p { KillOff(s, p); }
      case _ =>
    }
  }

  lemma SendOff(s: Sched, p: int, msg: int)
    requires InTab(s, p)
    ensures Step(s, OpSend(p, msg)).sleep
      == if Rouses(s, OpSend(p, msg), p) then RemoveD(s.sleep, p) else s.sleep
  {
    hide RemoveD, Send, Rouses;
    if Rouses(s, OpSend(p, msg), p) { SendRouses(s, p, msg); } else { SendStored(s, p, msg); }
  }

  lemma KillOff(s: Sched, p: int)
    requires Inv(s) && InTab(s, p) && Asleep(s.procs[p].state)
    ensures Step(s, OpKillEnd(p)).sleep == RemoveD(s.sleep, p)
  {
    hide ReadyOk, SleepOk, SemsOk, RemoveD;
    KillRouses(s, p);
  }

  lemma GoodStep(s: Sched, op: Op)
    requires Inv(s) && Enabled(s, op) && Timely(op) && Good(s.sleep)
    ensures Good(Step(s, op).sleep)
  {
    SleepAfter(s, op);
    hide Weak, Good;
    match op {
      case OpRecvtime(maxwait) => InsertDGood(s.sleep, s.curr, maxwait);
      case OpSleepms(delay) => if delay > 0 { InsertDGood(s.sleep, s.curr, delay); }
      case OpSend(p, msg) => RemoveDGood(s.sleep, p);
      case OpKillEnd(p) => RemoveDGood(s.sleep, p);
      case OpTick => TickGood(s.sleep);
      case _ =>
    }
  }

  lemma TickGood(l: seq<Ent>)
    requires Good(l)
    ensures Good(Ticked(l))
  {
    if Down(l) != [] && Down(l)[0].key <= 0 {
      assert NonNeg(Down(l));
      UnexpiredGood(Down(l));
    }
  }

  /** A step other than a tick leaves a sleeper's time alone, a tick takes one off, and the tick
      that ends it makes the sleeper ready. */
  lemma LeftStep(s: Sched, op: Op, p: int, d: int)
    requires Inv(s) && Enabled(s, op) && Timely(op) && Good(s.sleep) && LeftIs(s, p, d) && !Rouses(s, op, p)
    ensures !op.OpTick? ==> LeftIs(Step(s, op), p, d)
    ensures op.OpTick? && d > 1 ==> LeftIs(Step(s, op), p, d - 1)
    ensures op.OpTick? && d <= 1 ==> d == 1 && Awake(Step(s, op), p)
  {
    SleepAfter(s, op);
    SleepFacts(s, p);
    hide Inv, Weak, Good, Distinct, On, Rem, Step, InsertD, RemoveD, Ticked;
    match op {
      case OpRecvtime(maxwait) => if Step(s, op).sleep != s.sleep { NotAsleep(s); InsertDRem(s.sleep, s.curr, maxwait,
        p); }
      case OpSleepms(delay) => if delay > 0 { NotAsleep(s); InsertDRem(s.sleep, s.curr, delay, p); }
      case OpSend(q, msg) =>
        if q == p { SendOff(s, p, msg); } else if Step(s, op).sleep != s.sleep { RemoveDRem(s.sleep, q, p); }
      case OpKillEnd(q) => if Step(s, op).sleep != s.sleep { RemoveDRem(s.sleep, q, p); }
      case OpTick =>
        TickExact(s.sleep, p);
        AtLeastOne(s.sleep, p);
        if d == 1 { TickWakes(s, p); }
      case _ =>
    }
  }

  ghost predicate Awake(s: Sched, p: int) { InTab(s, p) && (s.procs[p].state == Ready || s.procs[p].state == Curr)
    && !On(s.sleep, p) }

  lemma SleepFacts(s: Sched, p: int)
    requires Inv(s) && On(s.sleep, p)
    ensures Distinct(s.sleep) && InTab(s, p) && Asleep(s.procs[p].state)
  {
    hide Base, ReadyOk, SemsOk, Distinct, On;
  }

  /** The current process is not asleep. */
  lemma NotAsleep(s: Sched)
    requires Inv(s)
    ensures Distinct(s.sleep) && !On(s.sleep, s.curr)
  {
    hide Base, ReadyOk, SemsOk, Distinct, On;
  }

  lemma TickWakes(s: Sched, p: int)
    requires Inv(s) && Good(s.sleep) && LeftIs(s, p, 1)
    ensures Awake(Step(s, OpTick), p)
  {
    hide Weak, Good, Distinct, On, Rem, Served, Inv, Deferred, Down, Released, Ticked, Tick, WakeLoop, DeferStop,
      Expired;
    SleepFacts(s, p);
    TickExact(s.sleep, p);
    TickOn(s.sleep, p);
    TickOk(s);
    var s1 := s.(sleep := Down(s.sleep));
    DownOk(s);
    DeferStartOk(s1);
    WakeLoopOk(DeferStart(s1));
    ReleasedIs(s.sleep, p);
    TickIs(s);
    StopReady(WakeLoop(DeferStart(s1)), p);
  }

  lemma ReleasedIs(l: seq<Ent>, p: int)
    requires p in Released(l)
    ensures p in Expired(Down(l)) && l != [] && Down(l) != [] && Down(l)[0].key <= 0
  {}

  lemma TickIs(s: Sched)
    requires s.sleep != [] && Down(s.sleep) != [] && Down(s.sleep)[0].key <= 0
    ensures Tick(s) == DeferStop(WakeLoop(DeferStart(s.(sleep := Down(s.sleep)))))
  {
    hide DeferStop, WakeLoop, Down;
  }

  /** A ready process is ready or current after the deferral ends. */
  lemma StopReady(s: Sched, p: int)
    requires Deferred(s, NONE) && InTab(s, p) && s.procs[p].state == Ready
    ensures var r := DeferStop(s); InTab(r, p) && (r.procs[p].state == Ready || r.procs[p].state == Curr)
  {
    hide ReadyOk, SleepOk, SemsOk, Insert;
  }

  /** sleepms takes an unsigned delay and insertd a signed one: the sleep queue stays in order exactly
      for delays below 2^31. */
  lemma DelayExact(l: seq<Ent>, p: int, delay: int)
    requires Good(l) && 1 <= delay < 0x1_0000_0000
    ensures Good(InsertD(l, p, Signed(delay))) <==> delay <= MAXKEY
  {
    InsertDGood(l, p, Signed(delay));
  }

  // ---- runs put together ----

  lemma {:induction false} RunSplit(s: Sched, a: seq<Op>, b: seq<Op>)
    ensures Run(s, a + b) == Run(Run(s, a), b)
    decreases |a|
  {
    hide Step;
    if a == [] {
      assert a + b == b;
    } else {
      assert (a + b)[1..] == a[1..] + b;
      RunSplit(Step(s, a[0]), a[1..], b);
    }
  }

  lemma {:induction false} AllowedSplit(s: Sched, a: seq<Op>, b: seq<Op>)
    requires Allowed(s, a + b)
    ensures Allowed(s, a) && Allowed(Run(s, a), b)
    decreases |a|
  {
    hide Step, Enabled;
    if a == [] {
      assert a + b == b;
    } else {
      assert (a + b)[1..] == a[1..] + b;
      AllowedSplit(Step(s, a[0]), a[1..], b);
    }
  }

  /** What each operation does to the sleep queue. */
  lemma SleepAfter(s: Sched, op: Op)
    requires Inv(s) && Enabled(s, op)
    ensures match op
      case OpRecvtime(maxwait) => Step(s, op).sleep == s.sleep || Step(s, op).sleep == InsertD(s.sleep, s.curr, maxwait)
      case OpSleepms(delay) =>
        if delay == 0 then Step(s, op).sleep == s.sleep
        else Step(s, op).sleep == InsertD(s.sleep, s.curr, Signed(delay))
      case OpSend(p, _) => Step(s, op).sleep == s.sleep || Step(s, op).sleep == RemoveD(s.sleep, p)
      case OpKillEnd(p) => Step(s, op).sleep == s.sleep || Step(s, op).sleep == RemoveD(s.sleep, p)
      case OpTick => Step(s, op).sleep == Ticked(s.sleep)
      case _ => Step(s, op).sleep == s.sleep
  {
    hide Inv, Resched, ReadyP, DeferStop, DeferStart, Ticked, InsertD, RemoveD, Tick, SignalLoop, Drain, ReadyFrames;
    match op {
      case OpWait(k) => WaitSleep(s, k);
      case OpSignal(k) => SignalSleep(s, k);
      case OpSignaln(k, n) => if n >= 0 { SignalLoopSleep(DeferStart(s), k,
        n); StopSleep(SignalLoop(DeferStart(s), k, n)); StartSleep(s); }
      case OpSemreset(k, n) => SemresetSleep(s, k, n);
      case OpSemdelete(k) => SemdeleteSleep(s, k);
      case OpSend(p, msg) => SendSleep(s, p, msg);
      case OpReceive => if InTab(s, s.curr) { ReschedSleep(SetState(s, s.curr, Recv)); }
      case OpRecvtime(maxwait) =>
        if InTab(s, s.curr) { ReschedSleep(SetState(s.(sleep := InsertD(s.sleep, s.curr, maxwait)), s.curr, RecTim)); }
      case OpSleepms(delay) =>
        CurrIn(s);
        ReschedSleep(s);
        ReschedSleep(SetState(s.(sleep := InsertD(s.sleep, s.curr, Signed(delay))), s.curr, Sleep));
      case OpYield => ReschedSleep(s);
      case OpSuspend(p) => if InTab(s, p) { ReschedSleep(SetState(s, p, Susp)); }
      case OpResume(p) => ReadySleep(s, p);
      case OpKillEnd(p) => if InTab(s, p) { ReschedSleep(SetState(s, p, Free)); }
      case OpFrameBlock => if InTab(s, s.curr) { ReschedSleep(SetState(s, s.curr, Frame)); }
      case OpFrameWakeup(ps) =>
        StartSleep(s);
        ReadyFramesSleep(DeferStart(s), ps);
        StopSleep(ReadyFrames(DeferStart(s), ps));
      case OpTick => TickOk(s);
      case OpSlice => ReschedSleep(s.(preempt := QUANTUM));
      case _ =>
    }
  }

  lemma ReschedSleep(s: Sched)
    ensures Resched(s).sleep == s.sleep
  {
    hide Insert;
  }

  lemma ReadySleep(s: Sched, p: int)
    ensures ReadyP(s, p).sleep == s.sleep
  {
    hide Resched, Insert;
    if !Bad(s, p) { ReschedSleep(MakeReady(s, p)); }
  }

  lemma StartSleep(s: Sched)
    ensures DeferStart(s).sleep == s.sleep && DeferStart(s).sems == s.sems
  {}

  lemma StopSleep(s: Sched)
    ensures DeferStop(s).sleep == s.sleep
  {
    hide Resched;
    ReschedSleep(s.(ndefers := s.ndefers - 1));
  }

  lemma ReleaseSleep(s: Sched, k: int)
    requires 0 <= k < |s.sems|
    ensures Release(s, k).sleep == s.sleep
  {
    hide ReadyP;
    if s.sems[k].q != [] { ReadySleep(SetSem(s, k, s.sems[k].(q := s.sems[k].q[1..])), s.sems[k].q[0]); }
  }

  lemma WaitSleep(s: Sched, k: int)
    ensures Wait(s, k).sleep == s.sleep
  {
    hide Resched;
    if SemUsed(s, k) && InTab(s, s.curr) {
      var s1 := SetSem(s, k, s.sems[k].(count := s.sems[k].count - 1, q := s.sems[k].q + [s.curr]));
      ReschedSleep(s1.(procs := s1.procs[s.curr := s1.procs[s.curr].(state := Waiting, sem := k)]));
    }
  }

  lemma SignalSleep(s: Sched, k: int)
    ensures Signal(s, k).sleep == s.sleep
  {
    hide Release;
    if SemUsed(s, k) { ReleaseSleep(SetSem(s, k, s.sems[k].(count := s.sems[k].count + 1)), k); }
  }

  lemma {:induction false} SignalLoopSleep(s: Sched, k: int, n: nat)
    ensures SignalLoop(s, k, n).sleep == s.sleep
    decreases n
  {
    hide Signal;
    if n > 0 {
      SignalSleep(s, k);
      SignalLoopSleep(Signal(s, k), k, n - 1);
    }
  }

  lemma {:induction false} DrainSleep(s: Sched, k: int, n: nat)
    ensures Drain(s, k, n).sleep == s.sleep
    decreases n
  {
    hide Release;
    if n > 0 && 0 <= k < |s.sems| {
      ReleaseSleep(s, k);
      DrainSleep(Release(s, k), k, n - 1);
    }
  }

  lemma {:induction false} ReadyFramesSleep(s: Sched, ps: seq<int>)
    ensures ReadyFrames(s, ps).sleep == s.sleep
    decreases |ps|
  {
    hide ReadyP;
    if ps != [] {
      ReadySleep(s, ps[0]);
      ReadyFramesSleep(ReadyP(s, ps[0]), ps[1..]);
    }
  }

  lemma SemresetSleep(s: Sched, k: int, n: int)
    ensures Semreset(s, k, n).sleep == s.sleep
  {
    hide Drain, DeferStop, DeferStart;
    if n >= 0 && SemUsed(s, k) {
      StartSleep(s);
      DrainSleep(DeferStart(s), k, |s.sems[k].q|);
      var s1 := Drain(DeferStart(s), k, |s.sems[k].q|);
      StopSleep(s1);
      if 0 <= k < |s1.sems| { StopSleep(SetSem(s1, k, s1.sems[k].(count := n))); }
    }
  }

  lemma SemdeleteSleep(s: Sched, k: int)
    ensures Semdelete(s, k).sleep == s.sleep
  {
    hide Drain, DeferStop, DeferStart;
    if SemUsed(s, k) {
      var n := if s.sems[k].count < 0 then -s.sems[k].count else 0;
      var s0 := SetSem(s, k, s.sems[k].(used := false));
      StartSleep(s0);
      DrainSleep(DeferStart(s0), k, n);
      var s1 := Drain(DeferStart(s0), k, n);
      StopSleep(s1);
      if 0 <= k < |s1.sems| { StopSleep(SetSem(s1, k, s1.sems[k].(count := s1.sems[k].count + n + 1))); }
    }
  }

  lemma SendSleep(s: Sched, p: int, msg: int)
    ensures Send(s, p, msg).sleep == s.sleep || Send(s, p, msg).sleep == RemoveD(s.sleep, p)
  {
    hide ReadyP, RemoveD;
    if !Bad(s, p) {
      var s1 := s.(procs := s.procs[p := s.procs[p].(hasmsg := true, msg := msg)]);
      ReadySleep(s1, p);
      ReadySleep(s1.(sleep := RemoveD(s1.sleep, p)), p);
    }
  }

  // ---- the start ----

  /** The null process is current, nothing else exists. */
  function Boot(np: nat, ns: nat): Sched
    requires np > 0
  {
    Sched(seq(np, p => Proc(if p == NULLPROC then Curr else Free, 0, 0, false, 0)), seq(ns, _ => Sem(false, 0, [])), [],
      [],
          NULLPROC, 0, false, QUANTUM)
  }

  lemma BootOk(np: nat, ns: nat)
    requires np > 0
    ensures Inv(Boot(np, ns)) && Good(Boot(np, ns).sleep)
  {
    var s := Boot(np, ns);
    assert forall k :: 0 <= k < |s.sems| ==> QueueOk(s.procs, k, s.sems[k].q, NONE);
  }
}
