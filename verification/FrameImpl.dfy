/** frameblock and framewakeup as the program runs them, on the scheduler's tables and the ring. */
module FrameImpl {
  import opened Kernel
  import opened SchedSpec
  import opened SchedInv
  import opened SchedSteps
  import opened SchedFrames
  import opened SchedRun
  import opened SchedImpl
  import opened BlockQueues
  import S = SchedSpec

  /** The ring is none of the scheduler's arrays, and has a slot for every process. */
  ghost predicate Beside(sched: Scheduler, queue: BlockQueue)
    reads sched, sched.tab, sched.tab.qkey, sched.tab.qnext, sched.tab.qprev, queue
  {
    && sched.Valid() && queue.Valid() && queue.fbqueue.Length == |sched.procs|
    && queue.fbqueue !in {sched.tab.qkey, sched.tab.qnext, sched.tab.qprev}
  }

  ghost function Both(sched: Scheduler, queue: BlockQueue): K
    requires Beside(sched, queue)
    reads sched, sched.tab, sched.tab.qkey, sched.tab.qnext, sched.tab.qprev, queue, queue.fbqueue
  {
    K(sched.View(), queue.Contents())
  }

  /** frameblock: the ring, the state, and the switch. */
  method FrameBlock(sched: Scheduler, queue: BlockQueue)
    requires Beside(sched, queue) && Inv(sched.View()) && sched.currpid != NULLPROC
    modifies sched, sched.tab, sched.tab.qkey, sched.tab.qnext, sched.tab.qprev, queue, queue.fbqueue
    ensures Beside(sched, queue) && Both(sched, queue) == After(old(Both(sched, queue)), OpFrameBlock)
  {
    hide Weak, S.Resched, BlockQueue.Contents, BlockQueue.Valid;
    CurrInTab(sched.View());
    queue.Insert(sched.currpid);
    sched.BlockCurr(Frame);
  }

  /** ready, with its test for a bad number. */
  method Ready(sched: Scheduler, pid: int)
    requires sched.Valid() && Deferred(sched.View(), NONE)
    requires Bad(sched.View(), pid) || Loose(sched.procs[pid].state)
    modifies sched, sched.tab, sched.tab.qkey, sched.tab.qnext, sched.tab.qprev
    ensures sched.Valid() && sched.View() == ReadyP(old(sched.View()), pid)
  {
    hide Weak, S.Resched, MakeReady;
    if 0 <= pid < |sched.procs| && sched.procs[pid].state != Free {
      SetAside(sched.View(), pid, NONE);
      sched.ReadyProc(pid, NONE);
    }
  }

  /** The body of the loop of framewakeup; false when the ring is empty. */
  method WakeNext(sched: Scheduler, queue: BlockQueue) returns (more: bool)
    requires Beside(sched, queue) && Deferred(sched.View(), NONE) && WakeFits(sched.procs, queue.Contents())
    requires queue.Contents() != [] ==> queue.Contents()[0] != SYSERR
    modifies sched, sched.tab, sched.tab.qkey, sched.tab.qnext, sched.tab.qprev, queue
    ensures Beside(sched, queue) && Deferred(sched.View(), NONE) && WakeFits(sched.procs, queue.Contents())
    ensures more <==> old(queue.Contents()) != []
    ensures queue.Contents() == if more then old(queue.Contents())[1..] else []
    ensures ReadyFrames(sched.View(), queue.Contents()) == old(ReadyFrames(sched.View(), queue.Contents()))
  {
    hide Weak, ReadyP, BlockQueue.Contents, BlockQueue.Valid, Deferred, WakeFits;
    var pid := queue.Dequeue();
    if pid == SYSERR { return false; }
    Next(sched.View(), old(queue.Contents()));
    Ready(sched, pid);
    return true;
  }

  /** framewakeup; `room` is whether E1 or E2 has a free frame, which making processes ready does not
      change. */
  method FrameWakeup(sched: Scheduler, queue: BlockQueue, room: bool)
    requires Beside(sched, queue) && Inv(sched.View())
    requires room ==> WakeFits(sched.procs, queue.Contents())
    requires forall i :: 0 <= i < |queue.Contents()| ==> queue.Contents()[i] != SYSERR
    modifies sched, sched.tab, sched.tab.qkey, sched.tab.qnext, sched.tab.qprev, queue
    ensures Beside(sched, queue)
    ensures Both(sched, queue)
      == After(old(Both(sched, queue)), OpFrameWakeup(if room then old(queue.Contents()) else []))
  {
    hide Weak, BlockQueue.Contents, BlockQueue.Valid, Deferred, DeferStop, Inv, WakeFits, Scheduler.View;
    DeferStartOk(sched.View());
    sched.StartDefer();
    while true
      invariant Beside(sched, queue) && Deferred(sched.View(), NONE)
      invariant forall i :: 0 <= i < |queue.Contents()| ==> queue.Contents()[i] != SYSERR
      invariant room ==> WakeFits(sched.procs, queue.Contents())
      invariant room ==>
        ReadyFrames(sched.View(), queue.Contents()) == ReadyFrames(DeferStart(old(sched.View())), old(queue.Contents()))
      invariant !room ==> queue.Contents() == old(queue.Contents()) && sched.View() == DeferStart(old(sched.View()))
      decreases |queue.Contents()|
    {
      if !room { break; }
      var more := WakeNext(sched, queue);
      if !more { break; }
    }
    sched.StopDefer();
  }

  /** The first number of the ring, and the rest of it. */
  lemma Next(s: Sched, ps: seq<int>)
    requires Deferred(s, NONE) && WakeFits(s.procs, ps) && ps != []
    ensures Bad(s, ps[0]) || Loose(s.procs[ps[0]].state)
    ensures Deferred(ReadyP(s, ps[0]), NONE) && WakeFits(ReadyP(s, ps[0]).procs, ps[1..])
    ensures ReadyFrames(s, ps) == ReadyFrames(ReadyP(s, ps[0]), ps[1..])
  {
    hide Deferred, ReadyP;
    FrameLater(s, ps[0]);
    FitsRest(s, ps, ReadyP(s, ps[0]).procs);
  }
}
