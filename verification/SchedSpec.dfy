/** The scheduler: process states, the ready list, semaphores, messages, sleepers. Every system
    call, up to the point where it returns or gives up the processor, is a function on the state;
    interrupts are off meanwhile. */
module SchedSpec {
  import opened Kernel
  import opened Delta
  import Seqs

  datatype PState = Free | Curr | Ready | Recv | Sleep | Susp | Waiting | RecTim | Frame

  /** sem is meaningful while the state is Waiting, msg while hasmsg. */
  datatype Proc = Proc(state: PState, prio: int, sem: int, hasmsg: bool, msg: int)

  datatype Sem = Sem(used: bool, count: int, q: seq<int>)

  datatype Sched = Sched(procs: seq<Proc>, sems: seq<Sem>, ready: seq<Ent>, sleep: seq<Ent>, curr: int,
                         ndefers: int, attempt: bool, preempt: int)

  const NULLPROC := 0
  const QUANTUM := 2

  predicate InTab(s: Sched, p: int) { 0 <= p < |s.procs| }

  /** isbadpid */
  predicate Bad(s: Sched, p: int) { !InTab(s, p) || s.procs[p].state == Free }

  /** A semaphore that can be used. */
  predicate SemUsed(s: Sched, k: int) { 0 <= k < |s.sems| && s.sems[k].used }

  function SetState(s: Sched, p: int, st: PState): Sched
    requires InTab(s, p)
  {
    s.(procs := s.procs[p := s.procs[p].(state := st)])
  }

  function SetSem(s: Sched, k: int, sem: Sem): Sched
    requires 0 <= k < |s.sems|
  {
    s.(sems := s.sems[k := sem])
  }

  function FirstKey(l: seq<Ent>): int { if l == [] then MINKEY else l[0].key }

  /** The process becomes ready. */
  function MakeReady(s: Sched, p: int): Sched
    requires InTab(s, p)
  {
    var s1 := SetState(s, p, Ready);
    s1.(ready := Insert(s1.ready, p, s1.procs[p].prio))
  }

  /** resched. With an empty ready list currpid would become EMPTY. */
  function Resched(s: Sched): Sched {
    if s.ndefers > 0 then s.(attempt := true)
    else if !InTab(s, s.curr) then s
    else if s.procs[s.curr].state == Curr && s.procs[s.curr].prio > FirstKey(s.ready) then s
    else Dispatch(if s.procs[s.curr].state == Curr then MakeReady(s, s.curr) else s)
  }

  /** The first ready process becomes the current one. */
  function Dispatch(s: Sched): Sched {
    if s.ready == [] || !InTab(s, s.ready[0].pid) then s.(curr := EMPTY)
    else SetState(s, s.ready[0].pid, Curr).(ready := s.ready[1..], curr := s.ready[0].pid, preempt := QUANTUM)
  }

  /** ready */
  function ReadyP(s: Sched, p: int): Sched { if Bad(s, p) then s else Resched(MakeReady(s, p)) }

  function DeferStart(s: Sched): Sched {
    s.(ndefers := s.ndefers + 1, attempt := if s.ndefers == 0 then false else s.attempt)
  }

  function DeferStop(s: Sched): Sched {
    if s.ndefers <= 0 then s
    else
      var s1 := s.(ndefers := s.ndefers - 1);
      if s1.ndefers == 0 && s1.attempt then Resched(s1) else s1
  }

  // ---- semaphores ----

  /** The first waiting process leaves the queue of semaphore k and becomes ready. */
  function Release(s: Sched, k: int): Sched
    requires 0 <= k < |s.sems|
  {
    if s.sems[k].q == [] then s
    else ReadyP(SetSem(s, k, s.sems[k].(q := s.sems[k].q[1..])), s.sems[k].q[0])
  }

  function Wait(s: Sched, k: int): Sched {
    if !SemUsed(s, k) || !InTab(s, s.curr) then s
    else
      var sem := s.sems[k].(count := s.sems[k].count - 1);
      if sem.count >= 0 then SetSem(s, k, sem)
      else
        var s1 := SetSem(s, k, sem.(q := sem.q + [s.curr]));
        Resched(s1.(procs := s1.procs[s.curr := s1.procs[s.curr].(state := Waiting, sem := k)]))
  }

  function Signal(s: Sched, k: int): Sched {
    if !SemUsed(s, k) then s
    else
      var s1 := SetSem(s, k, s.sems[k].(count := s.sems[k].count + 1));
      if s.sems[k].count < 0 then Release(s1, k) else s1
  }

  function SignalLoop(s: Sched, k: int, n: nat): Sched
    decreases n
  {
    if n == 0 then s else SignalLoop(Signal(s, k), k, n - 1)
  }

  function Signaln(s: Sched, k: int, n: int): Sched {
    if n < 0 || !SemUsed(s, k) then s else DeferStop(SignalLoop(DeferStart(s), k, n))
  }

  /** Everybody who waits is released. */
  function Drain(s: Sched, k: int, n: nat): Sched
    decreases n
  {
    if n == 0 || !(0 <= k < |s.sems|) then s else Drain(Release(s, k), k, n - 1)
  }

  function Semreset(s: Sched, k: int, n: int): Sched {
    if n < 0 || !SemUsed(s, k) then s
    else
      var s1 := Drain(DeferStart(s), k, |s.sems[k].q|);
      DeferStop(if 0 <= k < |s1.sems| then SetSem(s1, k, s1.sems[k].(count := n)) else s1)
  }

  /** The loop of semdelete: one process for each count below zero. */
  function Semdelete(s: Sched, k: int): Sched {
    if !SemUsed(s, k) then s
    else
      var n := if s.sems[k].count < 0 then -s.sems[k].count else 0;
      var s1 := Drain(DeferStart(SetSem(s, k, s.sems[k].(used := false))), k, n);
      DeferStop(if 0 <= k < |s1.sems| then SetSem(s1, k, s1.sems[k].(count := s1.sems[k].count + n + 1)) else s1)
  }

  /** newsem has found entry k. */
  function Semcreate(s: Sched, k: int, n: int): Sched {
    if n < 0 || !(0 <= k < |s.sems|) || s.sems[k].used then s
    else SetSem(s, k, s.sems[k].(used := true, count := n))
  }

  // ---- messages, sleeping, suspending ----

  function Send(s: Sched, p: int, msg: int): Sched {
    if Bad(s, p) || s.procs[p].hasmsg then s
    else
      var s1 := s.(procs := s.procs[p := s.procs[p].(hasmsg := true, msg := msg)]);
      if s.procs[p].state == Recv then ReadyP(s1, p)
      else if s.procs[p].state == RecTim then ReadyP(s1.(sleep := RemoveD(s1.sleep, p)), p)
      else s1
  }

  /** receive up to its resched; taking the message is TakeMsg. */
  function Receive(s: Sched): Sched {
    if !InTab(s, s.curr) || s.procs[s.curr].hasmsg then s else Resched(SetState(s, s.curr, Recv))
  }

  /** The end of receive and recvtime, and recvclr. */
  function TakeMsg(s: Sched): Sched {
    if !InTab(s, s.curr) then s else s.(procs := s.procs[s.curr := s.procs[s.curr].(hasmsg := false)])
  }

  /** A 32-bit unsigned delay as the signed key that insertd gets. */
  function Signed(d: int): int { if d > MAXKEY then d - 0x1_0000_0000 else d }

  function Recvtime(s: Sched, maxwait: int): Sched {
    if maxwait < 0 || !InTab(s, s.curr) || s.procs[s.curr].hasmsg then s
    else Resched(SetState(s.(sleep := InsertD(s.sleep, s.curr, maxwait)), s.curr, RecTim))
  }

  function Sleepms(s: Sched, delay: int): Sched {
    if !InTab(s, s.curr) then s
    else if delay == 0 then Resched(s)
    else Resched(SetState(s.(sleep := InsertD(s.sleep, s.curr, Signed(delay))), s.curr, Sleep))
  }

  /** getitem on the ready list */
  function Unlink(l: seq<Ent>, p: int): seq<Ent> {
    var i := Place(l, p);
    if i == |l| then l else l[..i] + l[i + 1..]
  }

  function Suspend(s: Sched, p: int): Sched {
    if Bad(s, p) || p == NULLPROC then s
    else if s.procs[p].state == Ready then SetState(s.(ready := Unlink(s.ready, p)), p, Susp)
    else if s.procs[p].state == Curr then Resched(SetState(s, p, Susp))
    else s
  }

  function Resume(s: Sched, p: int): Sched {
    if Bad(s, p) || s.procs[p].state != Susp then s else ReadyP(s, p)
  }

  /** create, as far as the scheduler is concerned. */
  function Create(s: Sched, p: int, prio: int): Sched {
    if !InTab(s, p) || s.procs[p].state != Free then s
    else s.(procs := s.procs[p := Proc(Susp, prio, 0, false, 0)])
  }

  /** kill from its switch on; the message to the parent is a Send before it. */
  function KillEnd(s: Sched, p: int): Sched {
    if !InTab(s, p) || p == NULLPROC then s
    else
      match s.procs[p].state
      case Curr => Resched(SetState(s, p, Free))
      case Sleep => SetState(s.(sleep := RemoveD(s.sleep, p)), p, Free)
      case RecTim => SetState(s.(sleep := RemoveD(s.sleep, p)), p, Free)
      case Waiting =>
        var k := s.procs[p].sem;
        if !(0 <= k < |s.sems|) then s
        else SetState(SetSem(s, k, s.sems[k].(count := s.sems[k].count + 1, q := Seqs.Without(s.sems[k].q, p))), p,
          Free)
      case Ready => SetState(s.(ready := Unlink(s.ready, p)), p, Free)
      case _ => SetState(s, p, Free)
  }

  /** frameblock: the current process waits for a frame. */
  function FrameBlock(s: Sched): Sched {
    if !InTab(s, s.curr) then s else Resched(SetState(s, s.curr, Frame))
  }

  function ReadyFrames(s: Sched, ps: seq<int>): Sched
    decreases |ps|
  {
    if ps == [] then s
    else ReadyFrames(ReadyP(s, ps[0]), ps[1..])
  }

  /** framewakeup for the processes of the block queue. */
  function FrameWakeup(s: Sched, ps: seq<int>): Sched { DeferStop(ReadyFrames(DeferStart(s), ps)) }

  // ---- the clock ----

  /** The loop of wakeup. */
  function WakeLoop(s: Sched): Sched
    decreases |s.sleep|
  {
    if s.sleep == [] || s.sleep[0].key > 0 then s
    else
      var s1 := ReadyP(s.(sleep := s.sleep[1..]), s.sleep[0].pid);
      if |s1.sleep| < |s.sleep| then WakeLoop(s1) else s1
  }

  function Wakeup(s: Sched): Sched { DeferStop(WakeLoop(DeferStart(s))) }

  /** clkhandler as far as the sleepers are concerned. */
  function Tick(s: Sched): Sched {
    if s.sleep == [] then s
    else
      var s1 := s.(sleep := Down(s.sleep));
      if s1.sleep[0].key <= 0 then Wakeup(s1) else s1
  }

  /** The end of clkhandler: the time slice. */
  function Slice(s: Sched): Sched {
    var s1 := s.(preempt := s.preempt - 1);
    if s1.preempt <= 0 then Resched(s1.(preempt := QUANTUM)) else s1
  }
}
