/** What holds of the ports whatever the order in which the processes run. */
module PortInv {
  import opened Seqs
  import opened PortSpec

  // ---- processes and ports ----

  predicate OnPort(x: Proc, i: int) { !x.Idle? && x.port == i }

  /** The process waits for the send, or receive, semaphore of port i. */
  predicate Blocked(x: Proc, i: int, send: bool) {
    if send then x.Sending? && x.port == i && !x.awake else x.Receiving? && x.port == i && !x.awake
  }

  /** It has been made ready and will find that the port is still the one it has waited for. */
  predicate Awake(x: Proc, i: int, n: int, send: bool) {
    if send then x.Sending? && x.port == i && x.seqno == n && x.awake
    else x.Receiving? && x.port == i && x.seqno == n && x.awake
  }

  function Count(procs: seq<Proc>, i: int, n: int, send: bool): (c: nat)
    ensures c <= |procs|
  {
    if procs == [] then 0 else (if Awake(procs[0], i, n, send) then 1 else 0) + Count(procs[1..], i, n, send)
  }

  function Pos(n: int): nat { if n > 0 then n else 0 }

  /** The queue holds exactly those who wait. */
  ghost predicate QueueOk(procs: seq<Proc>, q: seq<int>, i: int, send: bool) {
    && NoDup(q)
    && (forall j :: 0 <= j < |q| ==> 0 <= q[j] < |procs| && Blocked(procs[q[j]], i, send))
    && (forall p :: 0 <= p < |procs| && Blocked(procs[p], i, send) ==> p in q)
  }

  /** As many wait as the count is below zero. */
  predicate CountOk(sem: Sem) { |sem.q| == Pos(-sem.count) }

  function Messages(nodes: seq<int>, msgs: seq<int>): (s: seq<int>)
    requires forall j :: 0 <= j < |nodes| ==> 0 <= nodes[j] < |msgs|
    ensures |s| == |nodes|
  {
    seq(|nodes|, j requires 0 <= j < |nodes| => msgs[nodes[j]])
  }

  /** The bounded buffer: room that is free, room that is promised to an awakened sender, and room
      that is used make up the capacity; messages that are free to be taken and messages that are
      promised to an awakened receiver make up the list. ds and dr are what is promised to the
      process that is running. */
  predicate Balanced(port: Port, procs: seq<Proc>, i: int, ds: int, dr: int) {
    && Pos(port.ssem.count) + Count(procs, i, port.seqno, true) + ds + |port.nodes| == port.cap
    && Pos(port.rsem.count) + Count(procs, i, port.seqno, false) + dr == |port.nodes|
  }

  ghost predicate PortOk(port: Port, procs: seq<Proc>, i: int, ds: int, dr: int) {
    && 0 <= port.max <= port.cap && QueueOk(procs, port.ssem.q, i, true) && QueueOk(procs, port.rsem.q, i, false)
    && (port.state == Alloc ==> CountOk(port.ssem) && CountOk(port.rsem) && Balanced(port, procs, i, ds, dr))
    && (port.state != Alloc ==> port.ssem.q == [] && port.nodes == [])
    && (port.state == Free ==> port.rsem.q == [])
    && (port.state.Limbo? ==>
      port.sent == port.got == [] && port.cap == port.max && (port.state.again ==> port.ssem.count == port.max))
  }

  /** First in, first out: what has been sent is what has been received and what is on the list. */
  ghost predicate Fifo(port: Port, msgs: seq<int>) {
    && (forall j :: 0 <= j < |port.nodes| ==> 0 <= port.nodes[j] < |msgs|)
    && port.sent == port.got + Messages(port.nodes, msgs)
  }

  /** A process knows the port by a number that is not newer than the port's, and older when the port
      is not in use; while it waits, it is the port's. */
  predicate ProcOk(ports: seq<Port>, x: Proc) {
    match x
    case Idle => true
    case Clearing(i, last) => 0 <= i < |ports| && ports[i].state.Limbo? && (last ==> ports[i].rsem == Sem(0, []))
    case _ =>
      && 0 <= x.port < |ports| && x.seqno <= ports[x.port].seqno
      && (ports[x.port].state != Alloc ==> x.seqno < ports[x.port].seqno)
      && (ports[x.port].state == Alloc && !x.awake ==> x.seqno == ports[x.port].seqno)
  }

  /** At most one process clears a port. */
  predicate OneClears(procs: seq<Proc>) {
    forall p, r :: 0 <= p < r < |procs| && procs[p].Clearing? && procs[r].Clearing? ==> procs[p].port != procs[r].port
  }

  // ---- the nodes ----

  function Bag(ports: seq<Port>): multiset<int> {
    if ports == [] then multiset{} else multiset(ports[0].nodes) + Bag(ports[1..])
  }

  /** Every node is on exactly one list. */
  ghost predicate NodesOk(s: State) { multiset(s.free) + Bag(s.ports) == multiset(Numbers(|s.msgs|)) }

  const NONE := -1

  /** The running process has been promised something by port k. */
  ghost predicate Weak(s: State, k: int, ds: int, dr: int) {
    && (forall i :: 0 <= i < |s.ports| ==> PortAt(s, i, k, ds, dr))
    && (forall p :: 0 <= p < |s.procs| ==> ProcOk(s.ports, s.procs[p]))
    && OneClears(s.procs) && NodesOk(s) && (s.ports != [] ==> 0 <= s.nextid < |s.ports|)
  }

  ghost predicate PortAt(s: State, i: int, k: int, ds: int, dr: int)
    requires 0 <= i < |s.ports|
  {
    PortOk(s.ports[i], s.procs, i, if i == k then ds else 0, if i == k then dr else 0) && Fifo(s.ports[i], s.msgs)
  }

  ghost predicate Core(s: State) { Weak(s, NONE, 0, 0) }

  /** As long as the system has not given up. */
  ghost predicate Inv(s: State) { s.panic || Core(s) }

  // ---- counting ----

  lemma {:induction false} CountSet(procs: seq<Proc>, p: nat, x: Proc, i: int, n: int, send: bool)
    requires p < |procs|
    ensures Count(procs[p := x], i, n, send) ==
      Count(procs, i, n, send) - (if Awake(procs[p], i, n, send) then 1 else 0)
        + (if Awake(x, i, n, send) then 1 else 0)
  {
    if p == 0 {
      assert procs[p := x][1..] == procs[1..];
    } else {
      assert procs[p := x][1..] == procs[1..][p - 1 := x];
      CountSet(procs[1..], p - 1, x, i, n, send);
    }
  }

  lemma {:induction false} CountSame(a: seq<Proc>, b: seq<Proc>, i: int, n: int, send: bool)
    requires |a| == |b| && forall p :: 0 <= p < |a| ==> (Awake(a[p], i, n, send) <==> Awake(b[p], i, n, send))
    ensures Count(a, i, n, send) == Count(b, i, n, send)
  {
    if a != [] {
      assert forall p :: 0 <= p < |a[1..]| ==> a[1..][p] == a[p + 1] && b[1..][p] == b[p + 1];
      CountSame(a[1..], b[1..], i, n, send);
    }
  }

  lemma {:induction false} CountNone(a: seq<Proc>, i: int, n: int, send: bool)
    requires forall p :: 0 <= p < |a| ==> !Awake(a[p], i, n, send)
    ensures Count(a, i, n, send) == 0
  {
    if a != [] {
      assert forall p :: 0 <= p < |a[1..]| ==> a[1..][p] == a[p + 1];
      CountNone(a[1..], i, n, send);
    }
  }

  lemma CountSome(a: seq<Proc>, p: nat, i: int, n: int, send: bool)
    requires p < |a| && Awake(a[p], i, n, send)
    ensures Count(a, i, n, send) >= 1
  {
    CountSet(a, p, Idle, i, n, send);
  }

  // ---- what one process or one port does, the others do not see ----

  /** Only processes that have to do with port i have changed. */
  ghost predicate OnlyAbout(a: seq<Proc>, b: seq<Proc>, i: int) {
    |a| == |b| && forall p :: 0 <= p < |a| ==>
      b[p] == a[p] || ((a[p] == Idle || OnPort(a[p], i)) && (b[p] == Idle || OnPort(b[p], i)))
  }

  lemma OtherPort(port: Port, a: seq<Proc>, b: seq<Proc>, i: int, j: int)
    requires PortOk(port, a, j, 0, 0) && OnlyAbout(a, b, i) && i != j
    ensures PortOk(port, b, j, 0, 0)
  {
    forall send ensures Count(a, j, port.seqno, send) == Count(b, j, port.seqno, send) {
      CountSame(a, b, j, port.seqno, send);
    }
    assert forall p, send :: 0 <= p < |a| ==> (Blocked(a[p], j, send) <==> Blocked(b[p], j, send));
    hide NoDup, Count;
    QueueSame(a, b, port.ssem.q, j, true);
    QueueSame(a, b, port.rsem.q, j, false);
  }

  lemma QueueSame(a: seq<Proc>, b: seq<Proc>, q: seq<int>, i: int, send: bool)
    requires QueueOk(a, q, i, send) && |a| == |b|
    requires forall p :: 0 <= p < |a| ==> (Blocked(a[p], i, send) <==> Blocked(b[p], i, send))
    ensures QueueOk(b, q, i, send)
  {}

  // ---- queues ----

  lemma QueuePush(a: seq<Proc>, b: seq<Proc>, q: seq<int>, i: int, send: bool, p: int)
    requires QueueOk(a, q, i, send) && |a| == |b| && 0 <= p < |a| && !Blocked(a[p], i, send)
    requires forall r :: 0 <= r < |a| && r != p ==> (Blocked(a[r], i, send) <==> Blocked(b[r], i, send))
    requires Blocked(b[p], i, send)
    ensures QueueOk(b, q + [p], i, send)
  {
    assert p !in q;
    var r := q + [p];
    forall j | 0 <= j < |r| ensures 0 <= r[j] < |b| && Blocked(b[r[j]], i, send) {
      if j < |q| { assert q[j] in q && Blocked(a[q[j]], i, send); }
    }
    forall k | 0 <= k < |b| && Blocked(b[k], i, send) ensures k in r {
      if k != p { assert k in q; }
    }
  }

  lemma QueuePop(a: seq<Proc>, b: seq<Proc>, q: seq<int>, i: int, send: bool)
    requires QueueOk(a, q, i, send) && |a| == |b| && q != [] && !Blocked(b[q[0]], i, send)
    requires forall r :: 0 <= r < |a| && r != q[0] ==> (Blocked(a[r], i, send) <==> Blocked(b[r], i, send))
    ensures QueueOk(b, q[1..], i, send)
  {
    TailMembers(q);
    assert forall j :: 0 <= j < |q[1..]| ==> q[1..][j] == q[j + 1];
  }

  lemma QueueLeave(a: seq<Proc>, b: seq<Proc>, q: seq<int>, i: int, send: bool, p: int)
    requires QueueOk(a, q, i, send) && |a| == |b| && p in q && !Blocked(b[p], i, send)
    requires forall r :: 0 <= r < |a| && r != p ==> (Blocked(a[r], i, send) <==> Blocked(b[r], i, send))
    ensures QueueOk(b, Without(q, p), i, send) && |Without(q, p)| == |q| - 1
  {
    hide NoDup, Blocked;
    WithoutMembers(q, p);
    var w := Without(q, p);
    forall j | 0 <= j < |w| ensures 0 <= w[j] < |b| && Blocked(b[w[j]], i, send) {
      assert w[j] in w;
    }
  }

  lemma QueueNone(b: seq<Proc>, i: int, send: bool)
    requires forall r :: 0 <= r < |b| ==> !Blocked(b[r], i, send)
    ensures QueueOk(b, [], i, send)
  {}

  // ---- nodes ----

  lemma {:induction false} BagSet(ports: seq<Port>, i: nat, port: Port)
    requires i < |ports|
    ensures Bag(ports[i := port]) + multiset(ports[i].nodes) == Bag(ports) + multiset(port.nodes)
  {
    if i == 0 {
      assert ports[i := port][1..] == ports[1..];
    } else {
      assert ports[i := port][1..] == ports[1..][i - 1 := port];
      BagSet(ports[1..], i - 1, port);
      var a, b, c, d := Bag(ports[1..][i - 1 := port]), multiset(ports[i].nodes), Bag(ports[1..]), multiset(port.nodes);
      assert ports[1..][i - 1] == ports[i];
      assert a + b == c + d;
      var x := multiset(ports[0].nodes);
      assert (x + a) + b == x + (a + b) && (x + c) + d == x + (c + d);
    }
  }

  lemma {:induction false} BagIn(ports: seq<Port>, i: nat)
    requires i < |ports|
    ensures multiset(ports[i].nodes) <= Bag(ports)
  {
    if i > 0 { BagIn(ports[1..], i - 1); }
  }

  lemma {:induction false} NumbersBag(n: nat, x: int)
    ensures multiset(Numbers(n))[x] == if 0 <= x < n then 1 else 0
  {
    if n > 0 {
      assert Numbers(n) == Numbers(n - 1) + [n - 1];
      NumbersBag(n - 1, x);
    }
  }

  /** A free node is on no port's list, and a node number. */
  lemma FreeApart(s: State, j: nat)
    requires NodesOk(s) && j < |s.free|
    ensures 0 <= s.free[j] < |s.msgs| && s.free[j] !in s.free[..j] && s.free[j] !in s.free[j + 1..]
    ensures forall i :: 0 <= i < |s.ports| ==> s.free[j] !in s.ports[i].nodes
  {
    var x := s.free[j];
    NumbersBag(|s.msgs|, x);
    assert s.free == s.free[..j] + [x] + s.free[j + 1..];
    forall i | 0 <= i < |s.ports| ensures x !in s.ports[i].nodes {
      BagIn(s.ports, i);
      assert multiset(s.ports[i].nodes)[x] <= Bag(s.ports)[x] == 0;
    }
  }

  /** No node is on a list twice. */
  lemma ListsApart(s: State, i: nat)
    requires NodesOk(s) && i < |s.ports|
    ensures NoDup(s.ports[i].nodes) && forall j :: 0 <= j < |s.ports[i].nodes| ==> 0 <= s.ports[i].nodes[j] < |s.msgs|
  {
    BagIn(s.ports, i);
    var l := s.ports[i].nodes;
    forall j | 0 <= j < |l| ensures 0 <= l[j] < |s.msgs| && l[j] !in l[..j] {
      NumbersBag(|s.msgs|, l[j]);
      assert l == l[..j] + [l[j]] + l[j + 1..];
    }
    forall j, k | 0 <= j < k < |l| ensures l[j] != l[k] { assert l[j] in l[..k]; }
  }
}
