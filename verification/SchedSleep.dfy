/** A sleeper is released at exactly the tick its delay asks for, over any run. */
module SchedSleep {
  import opened Delta
  import opened SchedSpec
  import opened SchedInv
  import opened SchedSteps
  import opened SchedRun
  import opened SchedMeaning

  function Ticks(ops: seq<Op>): nat { if ops == [] then 0 else (if ops[0].OpTick? then 1 else 0) + Ticks(ops[1..]) }

  /** No step takes p off the sleep queue before its time. */
  ghost predicate Quiet(s: Sched, ops: seq<Op>, p: int)
    decreases |ops|
  {
    ops != [] ==> Timely(ops[0]) && !Rouses(s, ops[0], p) && Quiet(Step(s, ops[0]), ops[1..], p)
  }

  lemma {:induction false} AsleepBefore(s: Sched, ops: seq<Op>, p: int, d: int)
    requires Inv(s) && Allowed(s, ops) && Good(s.sleep) && LeftIs(s, p, d) && Quiet(s, ops, p) && Ticks(ops) < d
    ensures Inv(Run(s, ops)) && Good(Run(s, ops).sleep) && LeftIs(Run(s, ops), p, d - Ticks(ops))
    decreases |ops|
  {
    hide Inv, Good, LeftIs, Step, Enabled, Rouses;
    if ops != [] {
      var op := ops[0];
      StepOk(s, op);
      GoodStep(s, op);
      LeftStep(s, op, p, d);
      AsleepBefore(Step(s, op), ops[1..], p, if op.OpTick? then d - 1 else d);
    }
  }

  /** Whoever has d ticks left sleeps through d - 1 of them and is released by the d-th. */
  lemma ReleasedExactly(s: Sched, p: int, d: int, ops: seq<Op>)
    requires Inv(s) && Good(s.sleep) && LeftIs(s, p, d)
    requires Allowed(s, ops + [OpTick]) && Quiet(s, ops, p) && Ticks(ops) == d - 1
    ensures LeftIs(Run(s, ops), p, 1) && Awake(Run(s, ops + [OpTick]), p)
  {
    hide Inv, Good, LeftIs, Step, Enabled, Awake, Quiet;
    AllowedSplit(s, ops, [OpTick]);
    AsleepBefore(s, ops, p, d);
    LastTick(s, ops, p);
  }

  lemma LastTick(s: Sched, ops: seq<Op>, p: int)
    requires Inv(Run(s, ops)) && Good(Run(s, ops).sleep) && LeftIs(Run(s, ops), p, 1)
    ensures Awake(Run(s, ops + [OpTick]), p)
  {
    hide Inv, Good, LeftIs, Awake;
    RunSplit(s, ops, [OpTick]);
    TickWakes(Run(s, ops), p);
    assert Run(Run(s, ops), [OpTick]) == Run(Step(Run(s, ops), OpTick), []) by { assert [OpTick][1..] == []; }
  }

  // ---- sleepms ----

  /** What may happen meanwhile: anything but the end of p, also messages for it. */
  ghost predicate Spared(ops: seq<Op>, p: int) {
    forall i :: 0 <= i < |ops| ==> Timely(ops[i]) && ops[i] != OpKillEnd(p)
  }

  /** A process in sleepms that is not killed stays in it until its time is over. */
  lemma StaysAsleep(s: Sched, op: Op, p: int)
    requires Inv(s) && Enabled(s, op) && InTab(s, p) && s.procs[p].state == Sleep && On(Step(s, op).sleep, p)
    ensures var t := Step(s, op); InTab(t, p) && t.procs[p].state == Sleep
  {
    StepOk(s, op);
    StepMeaning(s, op);
    CurrIn(s);
    hide Inv, Step, Enabled, Wakes, On;
    SleepFacts(Step(s, op), p);
    assert Near(Meant(s, op, p), Step(s, op).procs[p]);
  }

  lemma {:induction false} SparedQuiet(s: Sched, ops: seq<Op>, p: int, d: int)
    requires Inv(s) && Allowed(s, ops) && Good(s.sleep) && LeftIs(s, p, d) && Spared(ops, p) && Ticks(ops) < d
    requires InTab(s, p) && s.procs[p].state == Sleep
    ensures Quiet(s, ops, p)
    decreases |ops|
  {
    hide Inv, Good, Step, Enabled, On, Rem;
    if ops != [] {
      var op := ops[0];
      assert Timely(op) && op != OpKillEnd(p);
      StepOk(s, op);
      GoodStep(s, op);
      LeftStep(s, op, p, d);
      StaysAsleep(s, op, p);
      SparedQuiet(Step(s, op), ops[1..], p, if op.OpTick? then d - 1 else d);
    }
  }

  /** A process that calls sleepms for d ticks sleeps through d - 1 ticks and is released by the d-th,
      whatever else happens, also when it is sent messages, unless it is killed. */
  lemma SleepsExactly(s: Sched, delay: int, ops: seq<Op>)
    requires Inv(s) && s.curr != NULLPROC && Good(s.sleep) && 1 <= delay <= MAXKEY
    requires Allowed(Sleepms(s, delay), ops + [OpTick]) && Spared(ops, s.curr) && Ticks(ops) == delay - 1
    ensures LeftIs(Run(Sleepms(s, delay), ops), s.curr, 1)
    ensures Awake(Run(Sleepms(s, delay), ops + [OpTick]), s.curr)
  {
    var s1 := Sleepms(s, delay);
    FallsAsleep(s, delay);
    hide Inv, Good, LeftIs, Step, Enabled, Sleepms, Awake, Quiet, Spared;
    AllowedSplit(s1, ops, [OpTick]);
    SparedQuiet(s1, ops, s.curr, delay);
    ReleasedExactly(s1, s.curr, delay, ops);
  }

  lemma FallsAsleep(s: Sched, delay: int)
    requires Inv(s) && s.curr != NULLPROC && Good(s.sleep) && 1 <= delay <= MAXKEY
    ensures var t := Sleepms(s, delay);
      Inv(t) && Good(t.sleep) && LeftIs(t, s.curr, delay) && InTab(t, s.curr) && t.procs[s.curr].state == Sleep
  {
    var op := OpSleepms(delay);
    StepOk(s, op);
    GoodStep(s, op);
    SleepAfter(s, op);
    NotAsleep(s);
    InsertDRem(s.sleep, s.curr, delay, s.curr);
    StepMeaning(s, op);
    CurrIn(s);
    hide Weak, Good, Distinct, On, Rem, InsertD, Sleepms;
    assert Step(s, op) == Sleepms(s, delay);
    assert Near(Meant(s, op, s.curr), Step(s, op).procs[s.curr]);
  }

  // ---- recvtime ----

  /** What may happen meanwhile: anything but a message for p and its end. */
  ghost predicate Unasked(ops: seq<Op>, p: int) {
    forall i :: 0 <= i < |ops| ==> Timely(ops[i]) && ops[i] != OpKillEnd(p) && !(ops[i].OpSend? && ops[i].p == p)
  }

  lemma {:induction false} UnaskedQuiet(s: Sched, ops: seq<Op>, p: int)
    requires Inv(s) && Allowed(s, ops) && Unasked(ops, p) && InTab(s, p) && !s.procs[p].hasmsg
    ensures Quiet(s, ops, p) && InTab(Run(s, ops), p) && !Run(s, ops).procs[p].hasmsg
    decreases |ops|
  {
    hide Inv, Step, Enabled;
    if ops != [] {
      var op := ops[0];
      assert Timely(op) && op != OpKillEnd(p) && !(op.OpSend? && op.p == p);
      StepOk(s, op);
      StepMeaning(s, op);
      assert Near(Meant(s, op, p), Step(s, op).procs[p]);
      UnaskedQuiet(Step(s, op), ops[1..], p);
    }
  }

  /** A process that waits for a message for at most d ticks, and is sent none and not killed, waits through
      d - 1 ticks and goes on at the d-th, without a message. */
  lemma TimesOutExactly(s: Sched, maxwait: int, ops: seq<Op>)
    requires Inv(s) && s.curr != NULLPROC && Good(s.sleep) && 1 <= maxwait <= MAXKEY
    requires InTab(s, s.curr) && !s.procs[s.curr].hasmsg
    requires Allowed(Recvtime(s, maxwait), ops + [OpTick]) && Unasked(ops, s.curr) && Ticks(ops) == maxwait - 1
    ensures LeftIs(Run(Recvtime(s, maxwait), ops), s.curr, 1)
    ensures var t := Run(Recvtime(s, maxwait), ops + [OpTick]); Awake(t, s.curr) && !t.procs[s.curr].hasmsg
  {
    var s1 := Recvtime(s, maxwait);
    StartsWaiting(s, maxwait);
    hide Inv, Good, LeftIs, Step, Enabled, Recvtime, Quiet, Awake, Unasked;
    AllowedSplit(s1, ops, [OpTick]);
    UnaskedQuiet(s1, ops, s.curr);
    ReleasedExactly(s1, s.curr, maxwait, ops);
    UnaskedTick(ops, s.curr);
    UnaskedQuiet(s1, ops + [OpTick], s.curr);
  }

  lemma UnaskedTick(ops: seq<Op>, p: int)
    requires Unasked(ops, p)
    ensures Unasked(ops + [OpTick], p)
  {}

  lemma StartsWaiting(s: Sched, maxwait: int)
    requires Inv(s) && s.curr != NULLPROC && Good(s.sleep) && 1 <= maxwait <= MAXKEY
    requires InTab(s, s.curr) && !s.procs[s.curr].hasmsg
    ensures var t := Recvtime(s, maxwait);
      Inv(t) && Good(t.sleep) && LeftIs(t, s.curr, maxwait) && InTab(t, s.curr) && !t.procs[s.curr].hasmsg
  {
    var op := OpRecvtime(maxwait);
    StepOk(s, op);
    GoodStep(s, op);
    TimedAfter(s, maxwait);
    NotAsleep(s);
    InsertDRem(s.sleep, s.curr, maxwait, s.curr);
    StepMeaning(s, op);
    CurrIn(s);
    hide Weak, Good, Distinct, On, Rem, InsertD, Recvtime;
    assert Step(s, op) == Recvtime(s, maxwait);
    assert Near(Meant(s, op, s.curr), Step(s, op).procs[s.curr]);
  }

  lemma TimedAfter(s: Sched, maxwait: int)
    requires InTab(s, s.curr) && !s.procs[s.curr].hasmsg && maxwait >= 0
    ensures Recvtime(s, maxwait).sleep == InsertD(s.sleep, s.curr, maxwait)
  {
    hide Resched, InsertD;
    ReschedSleep(SetState(s.(sleep := InsertD(s.sleep, s.curr, maxwait)), s.curr, RecTim));
  }
}
