/** Every step of every process keeps the ports in order. */
module PortSteps {
  import opened Seqs
  import opened PortSpec
  import opened PortInv

  /** A step has to do with one port, and its processes, only. */
  lemma Assemble(s: State, t: State, i: int, ds0: int, dr0: int, ds: int, dr: int)
    requires Weak(s, i, ds0, dr0) && 0 <= i < |s.ports| == |t.ports| && |s.msgs| == |t.msgs|
    requires forall j :: 0 <= j < |s.ports| && j != i ==> t.ports[j] == s.ports[j]
    requires OnlyAbout(s.procs, t.procs, i) && PortAt(t, i, i, ds, dr)
    requires forall j, x :: 0 <= j < |s.ports| && j != i && x in s.ports[j].nodes && 0 <= x < |s.msgs| ==>
      t.msgs[x] == s.msgs[x]
    requires forall p :: 0 <= p < |t.procs| && OnPort(t.procs[p], i) ==> ProcOk(t.ports, t.procs[p])
    requires OneClears(t.procs) && NodesOk(t) && 0 <= t.nextid < |t.ports|
    ensures Weak(t, i, ds, dr) && (ds == dr == 0 ==> Core(t))
  {
    hide PortOk, NodesOk, OneClears;
    forall j | 0 <= j < |t.ports| && j != i ensures PortAt(t, j, i, ds, dr) {
      assert PortAt(s, j, i, ds0, dr0);
      OtherPort(s.ports[j], s.procs, t.procs, i, j);
      FifoSame(s.ports[j], s.msgs, t.msgs);
    }
    forall p | 0 <= p < |t.procs| ensures ProcOk(t.ports, t.procs[p]) {
      assert ProcOk(s.ports, s.procs[p]);
    }
    if ds == dr == 0 { CoreWeak(t, i); }
  }

  lemma FifoSame(port: Port, m1: seq<int>, m2: seq<int>)
    requires Fifo(port, m1) && |m1| == |m2| && forall x :: x in port.nodes && 0 <= x < |m1| ==> m2[x] == m1[x]
    ensures Fifo(port, m2)
  {
    assert forall j :: 0 <= j < |port.nodes| ==> port.nodes[j] in port.nodes;
    assert Messages(port.nodes, m1) == Messages(port.nodes, m2);
  }

  lemma At(s: State, i: int, k: int, ds: int, dr: int)
    requires Weak(s, k, ds, dr) && 0 <= i < |s.ports|
    ensures PortAt(s, i, k, ds, dr)
  {
    hide PortAt, ProcOk, OneClears, NodesOk;
  }

  lemma CoreWeak(s: State, i: int)
    ensures Core(s) <==> Weak(s, i, 0, 0)
  {
    hide PortOk, Fifo, ProcOk, OneClears, NodesOk;
    assert forall j :: 0 <= j < |s.ports| ==> (PortAt(s, j, i, 0, 0) <==> PortAt(s, j, NONE, 0, 0));
  }

  lemma ProcsAt(s: State, k: int, ds: int, dr: int)
    requires Weak(s, k, ds, dr)
    ensures forall p :: 0 <= p < |s.procs| ==> ProcOk(s.ports, s.procs[p])
    ensures OneClears(s.procs) && NodesOk(s) && (s.ports != [] ==> 0 <= s.nextid < |s.ports|)
  {
    hide PortAt, ProcOk, OneClears, NodesOk;
  }

  // ---- signal ----

  /** Everybody who waits on one side knows the port by the number n. */
  predicate KnowBy(procs: seq<Proc>, i: int, n: int) {
    forall p :: 0 <= p < |procs| ==>
      (Blocked(procs[p], i, true) ==> procs[p].seqno == n) && (Blocked(procs[p], i, false) ==> procs[p].seqno == n)
  }

  /** A signal gives away one more place: it is free, or it is promised to the process it wakes. */
  lemma SignalPort(procs: seq<Proc>, sem: Sem, i: int, n: int, send: bool)
    requires QueueOk(procs, sem.q, i, send) && CountOk(sem) && KnowBy(procs, i, n)
    ensures var b := WakeAll(procs, Woken(sem));
      && QueueOk(b, Up(sem).q, i, send) && CountOk(Up(sem))
      && Pos(Up(sem).count) + Count(b, i, n, send) == Pos(sem.count) + Count(procs, i, n, send) + 1
  {
    var b := WakeAll(procs, Woken(sem));
    if sem.count < 0 {
      var p := sem.q[0];
      assert b == procs[p := Wake(procs[p])];
      CountSet(procs, p, Wake(procs[p]), i, n, send);
      hide NoDup;
      QueuePop(procs, b, sem.q, i, send);
    } else {
      assert b == procs;
    }
  }

  lemma SignalOther(procs: seq<Proc>, sem: Sem, q: seq<int>, i: int, n: int, send: bool)
    requires QueueOk(procs, sem.q, i, send) && QueueOk(procs, q, i, !send)
    ensures var b := WakeAll(procs, Woken(sem));
      QueueOk(b, q, i, !send) && Count(b, i, n, !send) == Count(procs, i, n, !send) && OnlyAbout(procs, b, i)
  {
    var b := WakeAll(procs, Woken(sem));
    hide NoDup;
    forall p | 0 <= p < |procs|
      ensures b[p] == procs[p] || (Blocked(procs[p], i, send) && OnPort(b[p], i) && b[p] == Wake(procs[p])) {
      if p in Woken(sem) { assert p == sem.q[0]; }
    }
    CountSame(procs, b, i, n, !send);
    QueueSame(procs, b, q, i, !send);
  }

  /** Waking a process says nothing new about it. */
  lemma WakeProcs(ports: seq<Port>, procs: seq<Proc>, q: seq<int>)
    requires forall p :: 0 <= p < |procs| ==> ProcOk(ports, procs[p])
    ensures forall p :: 0 <= p < |procs| ==> ProcOk(ports, WakeAll(procs, q)[p])
    ensures OneClears(procs) ==> OneClears(WakeAll(procs, q))
  {
    forall p | 0 <= p < |procs| ensures ProcOk(ports, WakeAll(procs, q)[p]) {
      assert ProcOk(ports, procs[p]);
    }
    assert forall p :: 0 <= p < |procs| ==>
      (WakeAll(procs, q)[p].Clearing? <==> procs[p].Clearing?)
        && (procs[p].Clearing? ==> WakeAll(procs, q)[p] == procs[p]);
  }

  /** A change of a usable port that keeps its number does not matter to the processes. */
  lemma ProcsSame(ports: seq<Port>, i: int, port: Port, x: Proc)
    requires 0 <= i < |ports| && ports[i].state == Alloc && port.state == Alloc && port.seqno == ports[i].seqno
    ensures ProcOk(ports, x) <==> ProcOk(ports[i := port], x)
  {}

  lemma KnownBy(s: State, i: int, k: int, ds: int, dr: int)
    requires Weak(s, k, ds, dr) && Usable(s, i)
    ensures KnowBy(s.procs, i, s.ports[i].seqno)
  {
    hide PortAt, OneClears, NodesOk;
    assert forall p :: 0 <= p < |s.procs| ==> ProcOk(s.ports, s.procs[p]);
  }

  // ---- ptsend after its wait ----

  lemma LinkNodes(s: State, i: int, port: Port, t: State)
    requires NodesOk(s) && 0 <= i < |s.ports| && s.free != [] && |t.msgs| == |s.msgs|
    requires t.ports == s.ports[i := port] && t.free == s.free[1..] && port.nodes == s.ports[i].nodes + [s.free[0]]
    ensures NodesOk(t) && 0 <= s.free[0] < |s.msgs|
    ensures forall j :: 0 <= j < |s.ports| ==> s.free[0] !in s.ports[j].nodes
  {
    FreeApart(s, 0);
    BagSet(s.ports, i, port);
    assert s.free == [s.free[0]] + s.free[1..];
    LinkBags(multiset(s.free[1..]), multiset{s.free[0]}, multiset(s.ports[i].nodes), Bag(s.ports), Bag(t.ports));
  }

  lemma LinkBags(f: multiset<int>, n: multiset<int>, l: multiset<int>, b: multiset<int>, c: multiset<int>)
    requires c + l == b + (l + n)
    ensures c == b + n && f + c == (n + f) + b
  {
    forall x ensures c[x] == b[x] + n[x] { assert (c + l)[x] == (b + (l + n))[x]; }
  }

  lemma LinkFifo(port: Port, msgs: seq<int>, n: int, msg: int, port1: Port)
    requires Fifo(port, msgs) && 0 <= n < |msgs| && n !in port.nodes
    requires port1.nodes == port.nodes + [n] && port1.sent == port.sent + [msg] && port1.got == port.got
    ensures Fifo(port1, msgs[n := msg])
  {
    assert forall j :: 0 <= j < |port.nodes| ==> port.nodes[j] in port.nodes;
    assert Messages(port1.nodes, msgs[n := msg]) == Messages(port.nodes, msgs) + [msg];
  }

  lemma LinkPort(port: Port, procs: seq<Proc>, i: int, n: int, msg: int)
    requires PortOk(port, procs, i, 1, 0) && port.state == Alloc && KnowBy(procs, i, port.seqno)
    ensures PortOk(port.(nodes := port.nodes + [n], sent := port.sent + [msg], rsem := Up(port.rsem)),
      WakeAll(procs, Woken(port.rsem)), i, 0, 0)
    ensures OnlyAbout(procs, WakeAll(procs, Woken(port.rsem)), i)
  {
    hide QueueOk, CountOk, Up, Woken, KnowBy;
    SignalPort(procs, port.rsem, i, port.seqno, false);
    SignalOther(procs, port.rsem, port.ssem.q, i, port.seqno, false);
  }

  /** The messages that the ports in use, or about to be used again, take. */
  function CapSum(ports: seq<Port>): (c: int) {
    if ports == [] then 0 else (if Counts(ports[0]) then ports[0].cap else 0) + CapSum(ports[1..])
  }

  predicate Counts(port: Port) { port.state == Alloc || port.state == Limbo(true) }

  /** Every list is within its port's capacity, and one has room left. */
  lemma {:induction false} BagSize(ports: seq<Port>, i: int)
    requires forall j :: 0 <= j < |ports| ==> |ports[j].nodes| <= if Counts(ports[j]) then ports[j].cap else 0
    requires 0 <= i < |ports| ==> Counts(ports[i]) && |ports[i].nodes| < ports[i].cap
    ensures |Bag(ports)| <= CapSum(ports) && (0 <= i < |ports| ==> |Bag(ports)| < CapSum(ports))
  {
    if ports != [] {
      assert forall j :: 0 <= j < |ports[1..]| ==> ports[1..][j] == ports[j + 1];
      BagSize(ports[1..], i - 1);
    }
  }

  /** The free list is empty only when the ports together take more messages than there are nodes. */
  lemma NoRoom(s: State, i: int)
    requires Weak(s, i, 1, 0) && Usable(s, i) && s.free == []
    ensures CapSum(s.ports) > |s.msgs|
  {
    forall j | 0 <= j < |s.ports| ensures |s.ports[j].nodes| <= if Counts(s.ports[j]) then s.ports[j].cap else 0 {
      assert PortAt(s, j, i, 1, 0);
    }
    assert PortAt(s, i, i, 1, 0);
    hide PortOk, QueueOk, ProcOk, OneClears;
    BagSize(s.ports, i);
    assert |multiset(Numbers(|s.msgs|))| == |s.msgs|;
  }

  /** With room promised, and a free node, the message is linked and everything is in order. */
  lemma LinkOk(s: State, i: int, msg: int)
    requires Weak(s, i, 1, 0) && Usable(s, i)
    ensures Link(s, i, msg).panic ==> s.panic || s.free == []
    ensures s.free != [] ==> Core(Link(s, i, msg)) && Link(s, i, msg).panic == s.panic
    ensures s.free == [] ==> CapSum(s.ports) > |s.msgs|
  {
    hide PortOk, NodesOk, OneClears, ProcOk, KnowBy, Fifo, OnlyAbout;
    if s.free == [] {
      NoRoom(s, i);
    } else {
      var port := s.ports[i];
      At(s, i, i, 1, 0);
      KnownBy(s, i, i, 1, 0);
      ProcsAt(s, i, 1, 0);
      FreeApart(s, 0);
      LinkPort(port, s.procs, i, s.free[0], msg);
      var t := Link(s, i, msg);
      var port1 := t.ports[i];
      LinkNodes(s, i, port1, t);
      LinkFifo(port, s.msgs, s.free[0], msg, port1);
      WakeProcs(s.ports, s.procs, Woken(port.rsem));
      forall p | 0 <= p < |t.procs| ensures ProcOk(t.ports, t.procs[p]) {
        ProcsSame(s.ports, i, port1, t.procs[p]);
      }
      Assemble(s, t, i, 1, 0, 0, 0);
    }
  }

  // ---- ptrecv after its wait ----

  lemma TakeNodes(s: State, i: int, port: Port, t: State)
    requires NodesOk(s) && 0 <= i < |s.ports| && s.ports[i].nodes != [] && |t.msgs| == |s.msgs|
    requires t.ports == s.ports[i := port] && port.nodes == s.ports[i].nodes[1..]
      && t.free == [s.ports[i].nodes[0]] + s.free
    ensures NodesOk(t)
  {
    var l := s.ports[i].nodes;
    BagSet(s.ports, i, port);
    assert l == [l[0]] + l[1..];
    TakeBags(multiset(s.free), multiset{l[0]}, multiset(l[1..]), Bag(s.ports), Bag(t.ports));
  }

  lemma TakeBags(f: multiset<int>, n: multiset<int>, l: multiset<int>, b: multiset<int>, c: multiset<int>)
    requires c + (n + l) == b + l
    ensures (n + f) + c == f + b
  {
    forall x ensures n[x] + c[x] == b[x] { assert (c + (n + l))[x] == (b + l)[x]; }
  }

  lemma TakePort(port: Port, procs: seq<Proc>, i: int, msg: int)
    requires PortOk(port, procs, i, 0, 1) && port.state == Alloc && KnowBy(procs, i, port.seqno)
    ensures port.nodes != []
    ensures PortOk(port.(nodes := port.nodes[1..], got := port.got + [msg], ssem := Up(port.ssem)),
      WakeAll(procs, Woken(port.ssem)), i, 0, 0)
    ensures OnlyAbout(procs, WakeAll(procs, Woken(port.ssem)), i)
  {
    hide QueueOk, CountOk, Up, Woken, KnowBy;
    SignalPort(procs, port.ssem, i, port.seqno, true);
    SignalOther(procs, port.ssem, port.rsem.q, i, port.seqno, true);
  }

  lemma TakeFifo(port: Port, msgs: seq<int>, port1: Port)
    requires Fifo(port, msgs) && port.nodes != []
    requires port1.nodes == port.nodes[1..] && port1.got == port.got + [msgs[port.nodes[0]]] && port1.sent == port.sent
    ensures Fifo(port1, msgs)
  {
    assert forall j :: 0 <= j < |port1.nodes| ==> port1.nodes[j] == port.nodes[j + 1];
    assert Messages(port.nodes, msgs) == [msgs[port.nodes[0]]] + Messages(port1.nodes, msgs);
  }

  /** A receiver to which a message is promised always finds one. */
  lemma TakeOk(s: State, i: int)
    requires Weak(s, i, 0, 1) && Usable(s, i)
    ensures s.ports[i].nodes != [] && Core(Take(s, i)) && Take(s, i).panic == s.panic
  {
    hide PortOk, NodesOk, OneClears, ProcOk, KnowBy, OnlyAbout;
    var port := s.ports[i];
    At(s, i, i, 0, 1);
    KnownBy(s, i, i, 0, 1);
    ProcsAt(s, i, 0, 1);
    ListsApart(s, i);
    TakePort(port, s.procs, i, if port.nodes != [] then s.msgs[port.nodes[0]] else 0);
    var t := Take(s, i);
    var port1 := t.ports[i];
    TakeNodes(s, i, port1, t);
    TakeFifo(port, s.msgs, port1);
    hide Fifo;
    WakeProcs(s.ports, s.procs, Woken(port.ssem));
    forall p | 0 <= p < |t.procs| ensures ProcOk(t.ports, t.procs[p]) {
      ProcsSame(s.ports, i, port1, t.procs[p]);
    }
    Assemble(s, t, i, 0, 1, 0, 0);
  }

  // ---- ptsend and ptrecv up to their wait ----

  function SetSem(port: Port, send: bool, sem: Sem): Port { if send then port.(ssem := sem) else port.(rsem := sem) }

  function SemOf(port: Port, send: bool): Sem { if send then port.ssem else port.rsem }

  /** One of the free places is promised to the running process. */
  lemma PassPort(port: Port, procs: seq<Proc>, i: int, send: bool)
    requires PortOk(port, procs, i, 0, 0) && port.state == Alloc && SemOf(port, send).count > 0
    ensures var sem := SemOf(port, send);
      PortOk(SetSem(port, send, sem.(count := sem.count - 1)), procs, i, if send then 1 else 0, if send then 0 else 1)
  {
    hide QueueOk, Count;
  }

  /** A port changes, nothing else. */
  lemma ChangePort(s: State, i: int, port: Port, ds: int, dr: int)
    requires Core(s) && Usable(s, i) && port.state == Alloc && port.seqno == s.ports[i].seqno
      && port.nodes == s.ports[i].nodes
    requires PortOk(port, s.procs, i, ds, dr) && port.sent == s.ports[i].sent && port.got == s.ports[i].got
    ensures Weak(SetPort(s, i, port), i, ds, dr)
  {
    hide PortOk, NodesOk, OneClears, ProcOk, KnowBy;
    CoreWeak(s, i);
    At(s, i, i, 0, 0);
    ProcsAt(s, i, 0, 0);
    var t := SetPort(s, i, port);
    KeepNodes(s, i, port, t);
    hide Fifo;
    forall p | 0 <= p < |t.procs| ensures ProcOk(t.ports, t.procs[p]) {
      ProcsSame(s.ports, i, port, t.procs[p]);
    }
    Assemble(s, t, i, 0, 0, ds, dr);
  }

  lemma KeepNodes(s: State, i: int, port: Port, t: State)
    requires NodesOk(s) && 0 <= i < |s.ports| && port.nodes == s.ports[i].nodes
    requires t.ports == s.ports[i := port] && t.free == s.free && |t.msgs| == |s.msgs|
    ensures NodesOk(t)
  {
    BagSet(s.ports, i, port);
    SameBags(multiset(port.nodes), Bag(s.ports), Bag(t.ports));
  }

  lemma SameBags(l: multiset<int>, b: multiset<int>, c: multiset<int>)
    requires c + l == b + l
    ensures c == b
  {
    forall x ensures c[x] == b[x] { assert (c + l)[x] == (b + l)[x]; }
  }

  /** The process joins the queue. */
  lemma WaitPort(port: Port, procs: seq<Proc>, p: int, i: int, send: bool, x: Proc)
    requires PortOk(port, procs, i, 0, 0) && port.state == Alloc && SemOf(port, send).count <= 0
    requires 0 <= p < |procs| && procs[p] == Idle && Blocked(x, i, send) && x.seqno == port.seqno
    ensures var sem := SemOf(port, send);
      PortOk(SetSem(port, send, Sem(sem.count - 1, sem.q + [p])), procs[p := x], i, 0, 0)
  {
    var b := procs[p := x];
    CountSet(procs, p, x, i, port.seqno, true);
    CountSet(procs, p, x, i, port.seqno, false);
    hide NoDup, Count;
    QueuePush(procs, b, SemOf(port, send).q, i, send, p);
    QueueSame(procs, b, SemOf(port, !send).q, i, !send);
    hide QueueOk;
  }

  lemma WaitOk(s: State, p: int, i: int, send: bool, x: Proc)
    requires Core(s) && Usable(s, i) && SemOf(s.ports[i], send).count <= 0
    requires 0 <= p < |s.procs| && s.procs[p] == Idle && Blocked(x, i, send) && x.seqno == s.ports[i].seqno
    ensures var sem := SemOf(s.ports[i], send);
      Core(SetPort(s, i, SetSem(s.ports[i], send, Sem(sem.count - 1, sem.q + [p]))).(procs := s.procs[p := x]))
  {
    hide PortOk, NodesOk, ProcOk, KnowBy;
    CoreWeak(s, i);
    At(s, i, i, 0, 0);
    ProcsAt(s, i, 0, 0);
    WaitPort(s.ports[i], s.procs, p, i, send, x);
    var port := SetSem(s.ports[i], send, Sem(SemOf(s.ports[i], send).count - 1, SemOf(s.ports[i], send).q + [p]));
    var t := SetPort(s, i, port).(procs := s.procs[p := x]);
    KeepNodes(s, i, port, t);
    hide Fifo, OneClears;
    forall r | 0 <= r < |t.procs| ensures ProcOk(t.ports, t.procs[r]) {
      if r != p { ProcsSame(s.ports, i, port, s.procs[r]); } else { JoinProc(t.ports, x); }
    }
    ReplaceOne(s.procs, p, x);
    Assemble(s, t, i, 0, 0, 0, 0);
  }

  lemma JoinProc(ports: seq<Port>, x: Proc)
    requires (x.Sending? || x.Receiving?) && 0 <= x.port < |ports| && ports[x.port].state == Alloc
      && x.seqno == ports[x.port].seqno
    ensures ProcOk(ports, x)
  {}

  lemma ReplaceOne(procs: seq<Proc>, p: int, x: Proc)
    requires OneClears(procs) && 0 <= p < |procs| && !x.Clearing?
    ensures OneClears(procs[p := x])
  {}

  lemma {:induction false} CapSet(ports: seq<Port>, i: nat, port: Port)
    requires i < |ports|
    ensures CapSum(ports[i := port]) == CapSum(ports) - (if Counts(ports[i]) then ports[i].cap else 0)
      + (if Counts(port) then port.cap else 0)
  {
    if i == 0 {
      assert ports[i := port][1..] == ports[1..];
    } else {
      assert ports[i := port][1..] == ports[1..][i - 1 := port];
      CapSet(ports[1..], i - 1, port);
    }
  }

  lemma SendOk(s: State, p: int, i: int, msg: int)
    requires Core(s) && 0 <= p < |s.procs| && s.procs[p] == Idle
    ensures Inv(Send(s, p, i, msg))
    ensures Send(s, p, i, msg).panic <==> s.panic || (Usable(s, i) && s.ports[i].ssem.count > 0 && s.free == [])
    ensures Send(s, p, i, msg).panic ==> s.panic || CapSum(s.ports) > |s.msgs|
  {
    hide Weak, CapSum;
    if Usable(s, i) {
      CoreWeak(s, i);
      At(s, i, i, 0, 0);
      var port := s.ports[i];
      if port.ssem.count > 0 {
        PassPort(port, s.procs, i, true);
        hide PortOk, Link;
        ChangePort(s, i, port.(ssem := port.ssem.(count := port.ssem.count - 1)), 1, 0);
        var s1 := SetPort(s, i, port.(ssem := port.ssem.(count := port.ssem.count - 1)));
        LinkOk(s1, i, msg);
        LinkPanics(s1, i, msg);
        CapSet(s.ports, i, s1.ports[i]);
      } else {
        hide PortOk;
        WaitOk(s, p, i, true, Sending(i, port.seqno, msg, false));
      }
    }
  }

  /** ptrecv never finds the list empty. */
  lemma RecvOk(s: State, p: int, i: int)
    requires Core(s) && 0 <= p < |s.procs| && s.procs[p] == Idle
    ensures Core(Recv(s, p, i)) && Recv(s, p, i).panic == s.panic
  {
    hide Weak;
    if Usable(s, i) {
      CoreWeak(s, i);
      At(s, i, i, 0, 0);
      var port := s.ports[i];
      if port.rsem.count > 0 {
        PassPort(port, s.procs, i, false);
        hide PortOk, Take;
        ChangePort(s, i, port.(rsem := port.rsem.(count := port.rsem.count - 1)), 0, 1);
        TakeOk(SetPort(s, i, port.(rsem := port.rsem.(count := port.rsem.count - 1))), i);
      } else {
        hide PortOk;
        WaitOk(s, p, i, false, Receiving(i, port.seqno, false));
      }
    }
  }

  // ---- a process that was made ready goes on ----

  /** What was promised to the process is promised to the one that runs. */
  lemma IdlePort(port: Port, procs: seq<Proc>, p: int, i: int)
    requires PortOk(port, procs, i, 0, 0) && 0 <= p < |procs| && !Blocked(procs[p], i, true)
      && !Blocked(procs[p], i, false)
    ensures PortOk(port, procs[p := Idle], i, if Awake(procs[p], i, port.seqno, true) then 1 else 0,
      if Awake(procs[p], i, port.seqno, false) then 1 else 0)
  {
    var b := procs[p := Idle];
    CountSet(procs, p, Idle, i, port.seqno, true);
    CountSet(procs, p, Idle, i, port.seqno, false);
    hide NoDup, Count;
    QueueSame(procs, b, port.ssem.q, i, true);
    QueueSame(procs, b, port.rsem.q, i, false);
    hide QueueOk;
  }

  /** The process p has nothing to do with the ports any more. */
  lemma IdleOk(s: State, p: int, i: int)
    requires Core(s) && 0 <= p < |s.procs| && OnPort(s.procs[p], i)
    requires !Blocked(s.procs[p], i, true) && !Blocked(s.procs[p], i, false)
    ensures 0 <= i < |s.ports|
    ensures Weak(s.(procs := s.procs[p := Idle]), i, if Awake(s.procs[p], i, s.ports[i].seqno, true) then 1 else 0,
      if Awake(s.procs[p], i, s.ports[i].seqno, false) then 1 else 0)
  {
    hide PortOk;
    CoreWeak(s, i);
    ProcsAt(s, i, 0, 0);
    assert ProcOk(s.ports, s.procs[p]);
    At(s, i, i, 0, 0);
    hide Fifo, OneClears;
    IdlePort(s.ports[i], s.procs, p, i);
    ReplaceOne(s.procs, p, Idle);
    Assemble(s, s.(procs := s.procs[p := Idle]), i, 0, 0, if Awake(s.procs[p], i, s.ports[i].seqno, true) then 1 else 0,
             if Awake(s.procs[p], i, s.ports[i].seqno, false) then 1 else 0);
  }

  /** An awakened receiver that finds its port in use finds a message. */
  lemma GoOnOk(s: State, p: int)
    requires Core(s) && 0 <= p < |s.procs|
    ensures Inv(GoOn(s, p)) && (GoOn(s, p).panic ==>
      s.panic || (s.free == [] && s.procs[p].Sending? && CapSum(s.ports) > |s.msgs|))
  {
    hide Weak, CapSum, Link, Take, NodesOk;
    match s.procs[p] {
      case Sending(i, n, msg, true) =>
        IdleOk(s, p, i);
        var s1 := s.(procs := s.procs[p := Idle]);
        AwakeOr(s, p, i);
        if Usable(s, i) && s.ports[i].seqno == n {
          LinkOk(s1, i, msg);
          LinkPanics(s1, i, msg);
        } else {
          CoreWeak(s1, i);
        }
      case Receiving(i, n, true) =>
        IdleOk(s, p, i);
        var s1 := s.(procs := s.procs[p := Idle]);
        AwakeOr(s, p, i);
        if Usable(s, i) && s.ports[i].seqno == n {
          TakeOk(s1, i);
        } else {
          CoreWeak(s1, i);
        }
      case _ =>
    }
  }

  lemma LinkPanics(s: State, i: int, msg: int)
    requires 0 <= i < |s.ports|
    ensures s.free == [] ==> Link(s, i, msg).panic
  {}

  /** An awakened process that knows its port by the current number finds it in use. */
  lemma AwakeOr(s: State, p: int, i: int)
    requires Core(s) && 0 <= p < |s.procs| && 0 <= i < |s.ports| && OnPort(s.procs[p], i)
    ensures Awake(s.procs[p], i, s.ports[i].seqno, true) || Awake(s.procs[p], i, s.ports[i].seqno, false) ==>
      Usable(s, i)
  {
    ProcsAt(s, NONE, 0, 0);
    hide Weak;
    assert ProcOk(s.ports, s.procs[p]);
  }

  // ---- ptreset and ptdelete ----

  lemma WakeQueue(procs: seq<Proc>, q: seq<int>, i: int, send: bool, p: int, x: Proc, r: seq<int>)
    requires QueueOk(procs, q, i, send) && QueueOk(procs, r, i, !send) && 0 <= p < |procs| && (x.Clearing? || x.Idle?)
      && OnPort(x, i)
    requires !Blocked(procs[p], i, true) && !Blocked(procs[p], i, false) && (procs[p].Idle? || OnPort(procs[p], i))
    ensures var b := WakeAll(procs, q)[p := x];
      QueueOk(b, [], i, send) && QueueOk(b, r, i, !send) && OnlyAbout(procs, b, i)
  {
    hide NoDup;
    var b := WakeAll(procs, q)[p := x];
    assert forall k :: 0 <= k < |procs| && k in q ==> Blocked(procs[k], i, send);
    QueueNone(b, i, send);
    QueueSame(procs, b, r, i, !send);
  }

  lemma ClearPort(port: Port, procs: seq<Proc>, p: int, i: int, again: bool)
    requires PortOk(port, procs, i, 0, 0) && 0 <= p < |procs| && procs[p] == Idle
    ensures PortOk(Port(Limbo(again), Sem(if again then port.max else 0, []), port.rsem, port.seqno + 1, port.max,
      port.max, [], [], []),
      WakeAll(procs, port.ssem.q)[p := Clearing(i, false)], i, 0, 0)
    ensures OnlyAbout(procs, WakeAll(procs, port.ssem.q)[p := Clearing(i, false)], i)
  {
    WakeQueue(procs, port.ssem.q, i, true, p, Clearing(i, false), port.rsem.q);
    hide QueueOk, Count;
  }

  lemma ClearNodes(s: State, i: int, port: Port, t: State)
    requires NodesOk(s) && 0 <= i < |s.ports| && |t.msgs| == |s.msgs|
    requires t.ports == s.ports[i := port] && port.nodes == [] && t.free == s.ports[i].nodes + s.free
    ensures NodesOk(t)
  {
    BagSet(s.ports, i, port);
    var l := multiset(s.ports[i].nodes);
    assert multiset(t.free) == l + multiset(s.free);
    assert Bag(t.ports) + l == Bag(s.ports);
  }

  /** All messages and all who wait to send are gone; those who come back find a newer number. */
  lemma ClearOk(s: State, p: int, i: int, again: bool)
    requires Core(s) && 0 <= p < |s.procs| && s.procs[p] == Idle
    ensures Core(Clear(s, p, i, again)) && Clear(s, p, i, again).panic == s.panic
  {
    hide PortOk, NodesOk;
    if Usable(s, i) {
      CoreWeak(s, i);
      At(s, i, i, 0, 0);
      ProcsAt(s, i, 0, 0);
      ClearPort(s.ports[i], s.procs, p, i, again);
      var t := Clear(s, p, i, again);
      ClearNodes(s, i, t.ports[i], t);
      ClearProcs(s, t, p, i);
      hide Weak, OneClears, OnlyAbout, ProcOk, Clear, WakeAll;
      ClearFifo(t.ports[i], t.msgs);
      Assemble(s, t, i, 0, 0, 0, 0);
    }
  }

  lemma ClearFifo(port: Port, msgs: seq<int>)
    requires port.nodes == port.sent == port.got == []
    ensures Fifo(port, msgs)
  {}

  lemma ClearProcs(s: State, t: State, p: int, i: int)
    requires OneClears(s.procs) && forall r :: 0 <= r < |s.procs| ==> ProcOk(s.ports, s.procs[r])
    requires 0 <= p < |s.procs| && s.procs[p] == Idle && Usable(s, i) && |t.ports| == |s.ports|
    requires forall j :: 0 <= j < |s.ports| && j != i ==> t.ports[j] == s.ports[j]
    requires t.ports[i].state.Limbo? && t.ports[i].seqno == s.ports[i].seqno + 1
    requires t.procs == WakeAll(s.procs, s.ports[i].ssem.q)[p := Clearing(i, false)]
    ensures OneClears(t.procs) && forall r :: 0 <= r < |t.procs| ==> ProcOk(t.ports, t.procs[r])
  {
    forall r | 0 <= r < |t.procs| ensures ProcOk(t.ports, t.procs[r]) {
      assert ProcOk(s.ports, s.procs[r]);
    }
    forall r | 0 <= r < |t.procs| && r != p && t.procs[r].Clearing?
      ensures t.procs[r] == s.procs[r] && t.procs[r].port != i {
      assert ProcOk(s.ports, s.procs[r]);
    }
  }

  // ---- the rest of _ptclear ----

  /** All who have waited for the port are awake and know it by an older number. */
  predicate Forgotten(procs: seq<Proc>, i: int, n: int) {
    forall r :: 0 <= r < |procs| && (procs[r].Sending? || procs[r].Receiving?) && procs[r].port == i ==>
      procs[r].awake && procs[r].seqno < n
  }

  lemma ForgottenCount(procs: seq<Proc>, i: int, n: int, m: int, send: bool)
    requires Forgotten(procs, i, n) && n <= m
    ensures Count(procs, i, m, send) == 0
  {
    CountNone(procs, i, m, send);
  }

  lemma SecondPort(port: Port, procs: seq<Proc>, p: int, i: int)
    requires PortOk(port, procs, i, 0, 0) && port.state.Limbo? && 0 <= p < |procs| && procs[p] == Clearing(i, false)
    ensures PortOk(port.(rsem := Sem(0, [])), WakeAll(procs, port.rsem.q)[p := Clearing(i, true)], i, 0, 0)
    ensures OnlyAbout(procs, WakeAll(procs, port.rsem.q)[p := Clearing(i, true)], i)
  {
    WakeQueue(procs, port.rsem.q, i, false, p, Clearing(i, true), port.ssem.q);
    hide QueueOk, Count;
  }

  /** The port is what it is to be, and nobody who waited for it before will take part. */
  lemma LastPort(port: Port, procs: seq<Proc>, p: int, i: int)
    requires PortOk(port, procs, i, 0, 0) && port.state.Limbo? && port.rsem == Sem(0, []) && 0 <= p < |procs|
      && procs[p] == Clearing(i, true)
    requires Forgotten(procs, i, port.seqno)
    ensures PortOk(port.(state := if port.state.again then Alloc else Free), procs[p := Idle], i, 0, 0)
  {
    ForgottenCount(procs[p := Idle], i, port.seqno, port.seqno, true);
    ForgottenCount(procs[p := Idle], i, port.seqno, port.seqno, false);
    hide Count, NoDup;
    QueueSame(procs, procs[p := Idle], port.ssem.q, i, true);
    QueueSame(procs, procs[p := Idle], port.rsem.q, i, false);
    hide QueueOk;
  }

  /** Nobody waits for a port whose queues are empty, and all who have waited know an older number. */
  lemma OldProcs(s: State, i: int)
    requires Core(s) && 0 <= i < |s.ports| && s.ports[i].state != Alloc && s.ports[i].ssem.q == s.ports[i].rsem.q == []
    ensures Forgotten(s.procs, i, s.ports[i].seqno)
  {
    ProcsAt(s, NONE, 0, 0);
    At(s, i, NONE, 0, 0);
    hide Weak, NodesOk, OneClears, NoDup, Count, Fifo;
    forall r | 0 <= r < |s.procs| && (s.procs[r].Sending? || s.procs[r].Receiving?) && s.procs[r].port == i
      ensures s.procs[r].awake && s.procs[r].seqno < s.ports[i].seqno {
      assert ProcOk(s.ports, s.procs[r]);
      assert !Blocked(s.procs[r], i, true) && !Blocked(s.procs[r], i, false);
    }
  }

  lemma ClearOnProcs(s: State, t: State, p: int, i: int)
    requires OneClears(s.procs) && forall r :: 0 <= r < |s.procs| ==> ProcOk(s.ports, s.procs[r])
    requires 0 <= p < |s.procs| == |t.procs| && s.procs[p].Clearing? && s.procs[p].port == i
      && 0 <= i < |s.ports| == |t.ports|
    requires forall j :: 0 <= j < |s.ports| && j != i ==> t.ports[j] == s.ports[j]
    requires t.ports[i].seqno == s.ports[i].seqno
    requires t.procs[p].Clearing? ==> t.procs[p].port == i
    requires forall r :: 0 <= r < |s.procs| && r != p ==> t.procs[r] == s.procs[r] || t.procs[r] == Wake(s.procs[r])
    requires t.ports[i].state == Alloc ==> Forgotten(s.procs, i, s.ports[i].seqno)
    requires ProcOk(t.ports, t.procs[p]) && s.ports[i].state != Alloc
    ensures OneClears(t.procs) && forall r :: 0 <= r < |t.procs| ==> ProcOk(t.ports, t.procs[r])
  {
    forall r | 0 <= r < |t.procs| ensures ProcOk(t.ports, t.procs[r]) {
      assert ProcOk(s.ports, s.procs[r]);
      if r != p && s.procs[r].Clearing? { assert s.procs[r].port != i; }
    }
    assert forall r :: 0 <= r < |t.procs| && r != p ==> (t.procs[r].Clearing? ==> t.procs[r] == s.procs[r]);
  }

  lemma ClearOnOk(s: State, p: int)
    requires Core(s) && 0 <= p < |s.procs|
    ensures Core(ClearOn(s, p)) && ClearOn(s, p).panic == s.panic
  {
    hide PortOk, NodesOk, QueueOk;
    if s.procs[p].Clearing? {
      var i := s.procs[p].port;
      ProcsAt(s, NONE, 0, 0);
      assert ProcOk(s.ports, s.procs[p]);
      CoreWeak(s, i);
      At(s, i, i, 0, 0);
      if !s.procs[p].last {
        SecondOk(s, p, i);
      } else {
        LastOk(s, p, i);
      }
    }
  }

  lemma SecondOk(s: State, p: int, i: int)
    requires Core(s) && 0 <= p < |s.procs| && s.procs[p] == Clearing(i, false)
    ensures Core(ClearOn(s, p))
  {
    hide PortOk;
    ProcsAt(s, NONE, 0, 0);
    assert ProcOk(s.ports, s.procs[p]);
    CoreWeak(s, i);
    At(s, i, i, 0, 0);
    hide Weak;
    var t := ClearOn(s, p);
    SecondPort(s.ports[i], s.procs, p, i);
    KeepNodes(s, i, t.ports[i], t);
    ClearOnProcs(s, t, p, i);
    FifoKept(s.ports[i], t.ports[i], s.msgs);
    hide OneClears, OnlyAbout, ProcOk, NodesOk, WakeAll, Fifo;
    Assemble(s, t, i, 0, 0, 0, 0);
  }

  lemma FifoKept(port: Port, port1: Port, msgs: seq<int>)
    requires Fifo(port, msgs) && port1.nodes == port.nodes && port1.sent == port.sent && port1.got == port.got
    ensures Fifo(port1, msgs)
  {}

  lemma LastOk(s: State, p: int, i: int)
    requires Core(s) && 0 <= p < |s.procs| && s.procs[p] == Clearing(i, true)
    ensures Core(ClearOn(s, p))
  {
    hide Weak, NoDup, QueueOk, Count;
    ProcsAt(s, NONE, 0, 0);
    assert ProcOk(s.ports, s.procs[p]);
    CoreWeak(s, i);
    At(s, i, i, 0, 0);
    var t := ClearOn(s, p);
    OldProcs(s, i);
    hide PortOk;
    LastPort(s.ports[i], s.procs, p, i);
    KeepNodes(s, i, t.ports[i], t);
    ClearOnProcs(s, t, p, i);
    FifoKept(s.ports[i], t.ports[i], s.msgs);
    hide OneClears, ProcOk, NodesOk, Fifo;
    Assemble(s, t, i, 0, 0, 0, 0);
  }

  // ---- ptcreate ----

  lemma NewPortOk(port: Port, procs: seq<Proc>, i: int, count: int)
    requires PortOk(port, procs, i, 0, 0) && port.state == Free && count >= 0
    requires Forgotten(procs, i, port.seqno)
    ensures PortOk(NewPort(port, count), procs, i, 0, 0)
  {
    hide QueueOk;
    ForgottenCount(procs, i, port.seqno, port.seqno + 1, true);
    ForgottenCount(procs, i, port.seqno, port.seqno + 1, false);
    hide Count;
  }

  /** A new port has all its places free, and nobody from before knows it. */
  lemma CreateOk(s: State, count: int)
    requires Core(s)
    ensures Core(Create(s, count)) && Create(s, count).panic == s.panic
  {
    hide Weak, NoDup, QueueOk, Count, FindFree;
    var t := Create(s, count);
    if t != s {
      var i := FindFree(s.ports, s.nextid, |s.ports|);
      ProcsAt(s, NONE, 0, 0);
      CoreWeak(s, i);
      At(s, i, i, 0, 0);
      OldProcs(s, i);
      hide PortOk;
      NewPortOk(s.ports[i], s.procs, i, count);
      NewFifo(s.ports[i], count, s.msgs);
      FreeEmpty(s, i);
      KeepNodes(s, i, t.ports[i], t);
      NewProcs(s, i, t.ports[i]);
      hide OneClears, ProcOk, NodesOk, Fifo;
      Assemble(s, t, i, 0, 0, 0, 0);
    }
  }

  lemma FreeEmpty(s: State, i: int)
    requires Core(s) && 0 <= i < |s.ports| && s.ports[i].state != Alloc
    ensures s.ports[i].nodes == []
  {
    At(s, i, NONE, 0, 0);
    hide Weak, QueueOk, Fifo;
  }

  lemma NewFifo(was: Port, count: int, msgs: seq<int>)
    ensures Fifo(NewPort(was, count), msgs)
  {}

  lemma NewProcs(s: State, i: int, port: Port)
    requires forall r :: 0 <= r < |s.procs| ==> ProcOk(s.ports, s.procs[r])
    requires 0 <= i < |s.ports| && s.ports[i].state == Free && port.state == Alloc && port.seqno == s.ports[i].seqno + 1
    requires Forgotten(s.procs, i, s.ports[i].seqno)
    ensures forall r :: 0 <= r < |s.procs| ==> ProcOk(s.ports[i := port], s.procs[r])
  {
    forall r | 0 <= r < |s.procs| ensures ProcOk(s.ports[i := port], s.procs[r]) {
      assert ProcOk(s.ports, s.procs[r]);
    }
  }

  // ---- kill ----

  lemma LeavePort(port: Port, procs: seq<Proc>, p: int, i: int, send: bool)
    requires PortOk(port, procs, i, 0, 0) && 0 <= p < |procs| && Blocked(procs[p], i, send)
    ensures PortOk(SetSem(port, send, Leave(SemOf(port, send), p)), procs[p := Idle], i, 0, 0)
      && SemOf(port, send).q != []
  {
    hide Without;
    var b := procs[p := Idle];
    CountSet(procs, p, Idle, i, port.seqno, true);
    CountSet(procs, p, Idle, i, port.seqno, false);
    hide NoDup, Count, Without;
    QueueLeave(procs, b, SemOf(port, send).q, i, send, p);
    QueueSame(procs, b, SemOf(port, !send).q, i, !send);
    hide QueueOk;
  }

  lemma LeaveOk(s: State, p: int, i: int, send: bool)
    requires Core(s) && 0 <= p < |s.procs| && Blocked(s.procs[p], i, send)
    ensures Core(Kill(s, p))
  {
    hide PortOk, Leave;
    ProcsAt(s, NONE, 0, 0);
    assert ProcOk(s.ports, s.procs[p]);
    CoreWeak(s, i);
    At(s, i, i, 0, 0);
    hide Weak;
    var port := SetSem(s.ports[i], send, Leave(SemOf(s.ports[i], send), p));
    var t := Kill(s, p);
    LeavePort(s.ports[i], s.procs, p, i, send);
    KeepNodes(s, i, port, t);
    FifoKept(s.ports[i], port, s.msgs);
    ReplaceOne(s.procs, p, Idle);
    LeaveProcs(s, t, p, i, port);
    hide OneClears, ProcOk, NodesOk, Fifo, Kill;
    Assemble(s, t, i, 0, 0, 0, 0);
  }

  lemma LeaveProcs(s: State, t: State, p: int, i: int, port: Port)
    requires forall r :: 0 <= r < |s.procs| ==> ProcOk(s.ports, s.procs[r])
    requires 0 <= p < |s.procs| && 0 <= i < |s.ports| && t.procs == s.procs[p := Idle] && t.ports == s.ports[i := port]
    requires port.state == s.ports[i].state && port.seqno == s.ports[i].seqno
      && (s.ports[i].rsem == Sem(0, []) ==> port.rsem == Sem(0, []))
    ensures forall r :: 0 <= r < |t.procs| ==> ProcOk(t.ports, t.procs[r])
  {
    forall r | 0 <= r < |t.procs| ensures ProcOk(t.ports, t.procs[r]) {
      assert ProcOk(s.ports, s.procs[r]);
    }
  }

  predicate HasPromise(s: State, p: int)
    requires 0 <= p < |s.procs|
  {
    var x := s.procs[p];
    (x.Sending? || x.Receiving?) && x.awake && Usable(s, x.port) && s.ports[x.port].seqno == x.seqno
  }

  /** A killed process may have waited, and may have been woken for nothing; but when it has been
      promised a place or a message, that is lost for ever. */
  lemma KillExact(s: State, p: int)
    requires Core(s) && 0 <= p < |s.procs|
    ensures Core(Kill(s, p)) <==> !HasPromise(s, p)
  {
    hide Weak, Leave;
    var x := s.procs[p];
    if x == Idle {
      assert s.procs[p := Idle] == s.procs;
    } else {
      var i := x.port;
      if Blocked(x, i, true) {
        LeaveOk(s, p, i, true);
      } else if Blocked(x, i, false) {
        LeaveOk(s, p, i, false);
      } else {
        IdleOk(s, p, i);
        AwakeOr(s, p, i);
        var t := Kill(s, p);
        if HasPromise(s, p) {
          if Core(t) { Twice(t, i, if x.Sending? then 1 else 0, if x.Sending? then 0 else 1); }
        } else {
          CoreWeak(t, i);
        }
      }
    }
  }

  /** One promise cannot be two. */
  lemma Twice(t: State, i: int, ds: int, dr: int)
    requires Core(t) && Weak(t, i, ds, dr) && Usable(t, i)
    ensures ds == 0 && dr == 0
  {
    At(t, i, NONE, 0, 0);
    At(t, i, i, ds, dr);
    hide Weak, QueueOk, Fifo, Count;
  }
}
