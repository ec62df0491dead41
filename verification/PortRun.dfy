/** Runs of the ports: any number of processes send, receive, reset, delete and create, in any order. */
module PortRun {
  import opened PortSpec
  import opened PortInv
  import opened PortSteps

  /** One process runs until it returns, waits, or may have lost the processor. */
  datatype Op =
    | OpSend(p: int, i: int, msg: int) | OpRecv(p: int, i: int) | OpGoOn(p: int)
    | OpClear(p: int, i: int, again: bool) | OpClearOn(p: int) | OpCreate(count: int) | OpKill(p: int)

  predicate Enabled(s: State, op: Op) {
    match op
    case OpSend(p, _, _) => 0 <= p < |s.procs| && s.procs[p] == Idle
    case OpRecv(p, _) => 0 <= p < |s.procs| && s.procs[p] == Idle
    case OpGoOn(p) => 0 <= p < |s.procs|
    case OpClear(p, _, _) => 0 <= p < |s.procs| && s.procs[p] == Idle
    case OpClearOn(p) => 0 <= p < |s.procs|
    case OpCreate(_) => true
    case OpKill(p) => 0 <= p < |s.procs| && !HasPromise(s, p)
  }

  /** After a panic nothing happens. */
  function Step(s: State, op: Op): State
    requires Enabled(s, op)
  {
    if s.panic then s
    else
      match op
      case OpSend(p, i, msg) => Send(s, p, i, msg)
      case OpRecv(p, i) => Recv(s, p, i)
      case OpGoOn(p) => GoOn(s, p)
      case OpClear(p, i, again) => Clear(s, p, i, again)
      case OpClearOn(p) => ClearOn(s, p)
      case OpCreate(count) => Create(s, count)
      case OpKill(p) => Kill(s, p)
  }

  lemma StepOk(s: State, op: Op)
    requires Inv(s) && Enabled(s, op)
    ensures Inv(Step(s, op)) && |Step(s, op).msgs| == |s.msgs|
  {
    StepNodes(s, op);
    hide Core, Send, Recv, GoOn, Clear, ClearOn, Create, Kill, HasPromise;
    if !s.panic {
      match op {
        case OpSend(p, i, msg) => SendOk(s, p, i, msg);
        case OpRecv(p, i) => RecvOk(s, p, i);
        case OpGoOn(p) => GoOnOk(s, p);
        case OpClear(p, i, again) => ClearOk(s, p, i, again);
        case OpClearOn(p) => ClearOnOk(s, p);
        case OpCreate(count) => CreateOk(s, count);
        case OpKill(p) => KillExact(s, p);
      }
    }
  }

  /** No step makes or loses a node. */
  lemma StepNodes(s: State, op: Op)
    requires Enabled(s, op)
    ensures |Step(s, op).msgs| == |s.msgs|
  {
    hide FindFree, WakeAll, Up, Woken, HasPromise, Leave;
  }

  ghost predicate Allowed(s: State, ops: seq<Op>)
    decreases |ops|
  {
    ops != [] ==> Enabled(s, ops[0]) && Allowed(Step(s, ops[0]), ops[1..])
  }

  ghost function Run(s: State, ops: seq<Op>): State
    requires Allowed(s, ops)
    decreases |ops|
  {
    if ops == [] then s else Run(Step(s, ops[0]), ops[1..])
  }

  /** Over all interleavings the places and the messages of every port add up, the queues hold those
      who wait, and every node is on exactly one list. */
  lemma {:induction false} RunOk(s: State, ops: seq<Op>)
    requires Inv(s) && Allowed(s, ops)
    ensures Inv(Run(s, ops)) && |Run(s, ops).msgs| == |s.msgs|
    decreases |ops|
  {
    hide Inv, Step, Enabled;
    if ops != [] {
      StepOk(s, ops[0]);
      RunOk(Step(s, ops[0]), ops[1..]);
    }
  }

  lemma {:induction false} BagNone(ports: seq<Port>)
    requires forall i :: 0 <= i < |ports| ==> ports[i].nodes == []
    ensures Bag(ports) == multiset{}
  {
    if ports != [] {
      assert forall i :: 0 <= i < |ports[1..]| ==> ports[1..][i] == ports[i + 1];
      BagNone(ports[1..]);
    }
  }

  lemma InitOk(nports: nat, nodes: nat, nprocs: nat)
    ensures Core(Init(nports, nodes, nprocs)) && Init(nports, nodes, nprocs).free == Numbers(nodes)
  {
    var s := Init(nports, nodes, nprocs);
    BagNone(s.ports);
    forall i | 0 <= i < |s.ports| ensures PortAt(s, i, NONE, 0, 0) {
      QueueNone(s.procs, i, true);
      QueueNone(s.procs, i, false);
    }
  }

  // ---- the system does not run out of nodes ----

  /** Ports are created only as long as the nodes would do for all of them. */
  predicate Fits(s: State, op: Op) { op.OpCreate? && op.count > 0 ==> CapSum(s.ports) + op.count <= |s.msgs| }

  ghost predicate AllFit(s: State, ops: seq<Op>)
    requires Allowed(s, ops)
    decreases |ops|
  {
    ops != [] ==> Fits(s, ops[0]) && AllFit(Step(s, ops[0]), ops[1..])
  }

  /** What the ports together take grows with a new port only. */
  lemma CapStep(s: State, op: Op)
    requires Core(s) && !s.panic && Enabled(s, op)
    ensures |Step(s, op).msgs| == |s.msgs|
    ensures CapSum(Step(s, op).ports) <= CapSum(s.ports) + if op.OpCreate? && op.count > 0 then op.count else 0
  {
    CapLocal(s, op);
    hide Core, Enabled, Step, CapSum;
    var t := Step(s, op);
    if t.ports != s.ports {
      var i := PortOf(s, op);
      CapSet(s.ports, i, t.ports[i]);
    }
  }

  /** The one port a step is about. */
  function PortOf(s: State, op: Op): int {
    match op
    case OpSend(_, i, _) => i
    case OpRecv(_, i) => i
    case OpClear(_, i, _) => i
    case OpCreate(_) => if 0 <= s.nextid < |s.ports| then FindFree(s.ports, s.nextid, |s.ports|) else -1
    case OpGoOn(p) => PortOfProc(s, p)
    case OpClearOn(p) => PortOfProc(s, p)
    case OpKill(p) => PortOfProc(s, p)
  }

  function PortOfProc(s: State, p: int): int {
    if 0 <= p < |s.procs| && s.procs[p] != Idle then s.procs[p].port else -1
  }

  lemma CapLocal(s: State, op: Op)
    requires Core(s) && !s.panic && Enabled(s, op)
    ensures var t := Step(s, op);
      var i := PortOf(s, op);
      |t.msgs| == |s.msgs| && (t.ports == s.ports || (0 <= i < |s.ports| && |t.ports| == |s.ports|
        && t.ports == s.ports[i := t.ports[i]]
        && (if Counts(t.ports[i]) then t.ports[i].cap else 0)
        <= (if Counts(s.ports[i]) then s.ports[i].cap else 0) + if op.OpCreate? && op.count > 0 then op.count else 0))
  {
    hide Weak, FindFree, WakeAll, Up, Woken, HasPromise, Leave;
    var i := PortOf(s, op);
    if 0 <= i < |s.ports| {
      CapBounds(s, i);
      LocalPorts(s, op, i);
    } else {
      hide Step;
      NoPort(s, op);
    }
  }

  lemma CapBounds(s: State, i: int)
    requires Core(s) && 0 <= i < |s.ports|
    ensures 0 <= s.ports[i].max <= s.ports[i].cap
  {
    At(s, i, NONE, 0, 0);
    hide Weak, QueueOk, Fifo, Count;
  }

  lemma NoPort(s: State, op: Op)
    requires !s.panic && Enabled(s, op) && !(0 <= PortOf(s, op) < |s.ports|)
    ensures Step(s, op).ports == s.ports && |Step(s, op).msgs| == |s.msgs|
  {
    hide FindFree, HasPromise;
  }

  lemma LocalPorts(s: State, op: Op, i: int)
    requires !s.panic && Enabled(s, op) && i == PortOf(s, op) && 0 <= i < |s.ports|
    ensures var t := Step(s, op);
      && |t.ports| == |s.ports| && |t.msgs| == |s.msgs| && t.ports == s.ports[i := t.ports[i]]
      && (t.ports[i].cap == s.ports[i].cap || t.ports[i].cap == s.ports[i].max
        || (op.OpCreate? && op.count >= 0 && t.ports[i].cap == op.count))
      && (Counts(t.ports[i]) && !op.OpCreate? ==> Counts(s.ports[i]))
      && (op.OpCreate? && t.ports[i] != s.ports[i] ==> !Counts(s.ports[i]) && t.ports[i].cap == op.count)
  {
    hide FindFree, WakeAll, Up, Woken, HasPromise, Leave;
  }

  /** ptsend never runs out of nodes when the ports that exist never take more messages than there
      are nodes. */
  lemma {:induction false} NeverPanics(s: State, ops: seq<Op>)
    requires Core(s) && !s.panic && CapSum(s.ports) <= |s.msgs| && Allowed(s, ops) && AllFit(s, ops)
    ensures !Run(s, ops).panic && Core(Run(s, ops))
    decreases |ops|
  {
    hide Core, Step, Enabled, CapSum;
    if ops != [] {
      StepOk(s, ops[0]);
      CapStep(s, ops[0]);
      StepPanic(s, ops[0]);
      NeverPanics(Step(s, ops[0]), ops[1..]);
    }
  }

  lemma StepPanic(s: State, op: Op)
    requires Core(s) && !s.panic && CapSum(s.ports) <= |s.msgs| && Enabled(s, op)
    ensures !Step(s, op).panic
  {
    hide Core, CapSum, Send, Recv, GoOn, Clear, ClearOn, Create, HasPromise, FindFree, WakeAll;
    match op {
      case OpSend(p, i, msg) => SendOk(s, p, i, msg);
      case OpRecv(p, i) => RecvOk(s, p, i);
      case OpGoOn(p) => GoOnOk(s, p);
      case OpClear(p, i, again) => ClearOk(s, p, i, again);
      case OpClearOn(p) => ClearOnOk(s, p);
      case OpCreate(count) => CreateOk(s, count);
      case OpKill(p) =>
    }
  }

  // ---- delivery ----

  /** Unless the port is cleared, its histories only get longer. */
  ghost predicate Grows(s: State, s': State, i: int)
    requires 0 <= i < |s.ports|
  {
    && |s'.ports| == |s.ports| && s.ports[i].seqno <= s'.ports[i].seqno
    && (s'.ports[i].seqno == s.ports[i].seqno ==>
          s.ports[i].sent <= s'.ports[i].sent && s.ports[i].got <= s'.ports[i].got)
  }

  /** A step adds to what a port has taken and given away, or gives the port a new number. */
  lemma HistoryGrows(s: State, op: Op, i: int)
    requires Enabled(s, op) && 0 <= i < |s.ports|
    ensures Grows(s, Step(s, op), i)
  {
    hide FindFree, WakeAll, Up, Woken, HasPromise, Leave, Enabled;
    match op {
      case OpSend(_, _, _) => SendGrows(s, op, i);
      case OpRecv(_, _) => RecvGrows(s, op, i);
      case OpGoOn(_) => GoOnGrows(s, op, i);
      case _ =>
    }
  }

  lemma SendGrows(s: State, op: Op, i: int)
    requires Enabled(s, op) && 0 <= i < |s.ports| && op.OpSend?
    ensures Grows(s, Step(s, op), i)
  {
    hide FindFree, WakeAll, Up, Woken, HasPromise, Leave, Enabled;
  }

  lemma RecvGrows(s: State, op: Op, i: int)
    requires Enabled(s, op) && 0 <= i < |s.ports| && op.OpRecv?
    ensures Grows(s, Step(s, op), i)
  {
    hide FindFree, WakeAll, Up, Woken, HasPromise, Leave, Enabled;
  }

  lemma GoOnGrows(s: State, op: Op, i: int)
    requires Enabled(s, op) && 0 <= i < |s.ports| && op.OpGoOn?
    ensures Grows(s, Step(s, op), i)
  {
    hide FindFree, WakeAll, Up, HasPromise, Leave, Enabled;
  }

  /** As long as the port is not cleared, what receivers have taken since a state, put behind what
      had been taken before, is a prefix of what senders have linked: messages arrive in the order in
      which they were linked, each once. */
  lemma {:induction false} InOrder(s: State, ops: seq<Op>, i: int)
    requires Inv(s) && Allowed(s, ops) && 0 <= i < |s.ports|
    ensures |Run(s, ops).ports| == |s.ports| && s.ports[i].seqno <= Run(s, ops).ports[i].seqno
    ensures var (a, b) := (s.ports[i], Run(s, ops).ports[i]);
      b.seqno == a.seqno && !Run(s, ops).panic ==> a.sent <= b.sent && a.got <= b.got <= b.sent
    decreases |ops|
  {
    hide Core, Step, Enabled;
    if ops == [] {
      if !s.panic { GotSent(s, i); }
    } else {
      HistoryGrows(s, ops[0], i);
      StepOk(s, ops[0]);
      InOrder(Step(s, ops[0]), ops[1..], i);
    }
  }

  lemma GotSent(s: State, i: int)
    requires Core(s) && 0 <= i < |s.ports|
    ensures s.ports[i].got <= s.ports[i].sent
  {
    At(s, i, NONE, 0, 0);
    hide Weak, PortOk;
  }

  // ---- what the invariant says ----

  /** Nobody waits in vain: while somebody waits to receive, every message on the list is promised to
      a receiver that is awake, and while somebody waits to send, the port is full up to places that
      are promised to senders that are awake. */
  lemma NoneForgotten(s: State, i: int)
    requires Core(s) && Usable(s, i)
    ensures var port := s.ports[i];
      && (port.rsem.q != [] ==> Count(s.procs, i, port.seqno, false) == |port.nodes|)
      && (port.ssem.q != [] ==> Count(s.procs, i, port.seqno, true) + |port.nodes| == port.cap)
  {
    At(s, i, NONE, 0, 0);
    hide Weak, QueueOk, Fifo, Count;
  }

  /** A receiver that gets past its checks finds a message, whether it has waited or not. */
  lemma ReceiverFinds(s: State, p: int, i: int)
    requires Core(s) && Usable(s, i) && 0 <= p < |s.procs|
    requires s.ports[i].rsem.count > 0 || Awake(s.procs[p], i, s.ports[i].seqno, false)
    ensures s.ports[i].nodes != []
  {
    At(s, i, NONE, 0, 0);
    if Awake(s.procs[p], i, s.ports[i].seqno, false) { CountSome(s.procs, p, i, s.ports[i].seqno, false); }
    hide Weak, QueueOk, Fifo, Count;
  }

  /** ptcount counts the messages on the list, less those promised to awakened receivers, and the
      senders that wait; or, below zero, the receivers that wait. */
  lemma PtCountIs(s: State, i: int)
    requires Core(s) && Usable(s, i)
    ensures var port := s.ports[i];
      PtCount(s, i) == if port.rsem.q == [] then |port.nodes| - Count(s.procs, i, port.seqno, false) + |port.ssem.q|
      else -|port.rsem.q|
  {
    At(s, i, NONE, 0, 0);
    hide Weak, QueueOk, Fifo, Count;
  }

  /** A reset leaves the capacity of a new port as it was exactly when the capacity fits 16 bits. */
  lemma ResetCapacity(s: State, count: nat, p: int)
    requires Core(s) && !s.panic && 0 <= p < |s.procs| && s.procs[p] == Idle && 0 <= s.nextid < |s.ports|
    requires FindFree(s.ports, s.nextid, |s.ports|) >= 0
    ensures var i := FindFree(s.ports, s.nextid, |s.ports|);
      var t := ClearOn(ClearOn(Clear(Create(s, count), p, i, true), p), p);
      Usable(t, i) && (t.ports[i].ssem.count == count && t.ports[i].cap == count <==> count < COUNTS)
  {
    hide Weak, FindFree, WakeAll;
    var i := FindFree(s.ports, s.nextid, |s.ports|);
    var s1 := Create(s, count);
    assert s1.ports[i] == NewPort(s.ports[i], count);
    var s2 := Clear(s1, p, i, true);
    var s3 := ClearOn(s2, p);
    assert s3.procs[p] == Clearing(i, true);
  }

  /** ptcreate fails exactly when no entry is free, or the capacity is negative. */
  lemma {:induction false} FindFreeIff(ports: seq<Port>, k: nat, n: nat, j: nat)
    requires k < |ports| && j < n && (k + j < |ports| || k + j - |ports| < |ports|)
    requires FindFree(ports, k, n) == -1
    ensures ports[if k + j < |ports| then k + j else k + j - |ports|].state != Free
    decreases n
  {
    if j > 0 {
      if k + 1 < |ports| { FindFreeIff(ports, k + 1, n - 1, j - 1); }
      else { FindFreeIff(ports, 0, n - 1, j - 1); }
    }
  }

  lemma CreateExact(s: State, count: int)
    requires Core(s) && s.ports != []
    ensures Create(s, count) != s <==> count >= 0 && exists i :: 0 <= i < |s.ports| && s.ports[i].state == Free
  {
    ProcsAt(s, NONE, 0, 0);
    hide Weak, NodesOk, OneClears;
    var r := FindFree(s.ports, s.nextid, |s.ports|);
    if r < 0 {
      forall i | 0 <= i < |s.ports| ensures s.ports[i].state != Free {
        FindFreeIff(s.ports, s.nextid, |s.ports|, if i >= s.nextid then i - s.nextid else i + |s.ports| - s.nextid);
      }
    } else {
      assert s.ports[r].state == Free;
      if count >= 0 { assert Create(s, count).ports[r].state == Alloc; }
    }
  }
}
