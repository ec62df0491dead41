/** The port table and the message nodes as the program keeps them: singly linked lists threaded
    through one array of nodes, changed in place. */
module PortImpl {
  import opened Seqs
  import opened PortInv
  import opened PortSteps
  import opened PortSpec
  import opened PortRun
  import P = PortSpec

  const NULL := -1

  /** An entry of porttab; head and tail are meaningful while the port is in use or about to be used
      again. */
  datatype PtEnt = PtEnt(state: PtState, ssem: Sem, rsem: Sem, seqno: int, max: int, head: int, tail: int)

  function HeadOf(l: seq<int>): int { if l == [] then NULL else l[0] }

  function TailOf(l: seq<int>): int { if l == [] then NULL else l[|l| - 1] }

  function After(l: seq<int>, j: int): int { if 0 <= j && j + 1 < |l| then l[j + 1] else NULL }

  /** The nodes of l are linked in this order. */
  ghost predicate Chain(next: seq<int>, l: seq<int>) {
    forall j :: 0 <= j < |l| ==> 0 <= l[j] < |next| && next[l[j]] == After(l, j)
  }

  ghost predicate EntOk(e: PtEnt, port: Port) {
    && e.state == port.state && e.ssem == port.ssem && e.rsem == port.rsem && e.seqno == port.seqno && e.max == port.max
    && (e.state == Alloc || e.state == Limbo(true) ==> e.head == HeadOf(port.nodes) && e.tail == TailOf(port.nodes))
  }

  lemma ChainFrame(n0: seq<int>, n1: seq<int>, l: seq<int>)
    requires Chain(n0, l) && |n0| == |n1| && forall x :: x in l && 0 <= x < |n0| ==> n1[x] == n0[x]
    ensures Chain(n1, l)
  {
    assert forall j :: 0 <= j < |l| ==> l[j] in l;
  }

  lemma ChainTail(next: seq<int>, l: seq<int>)
    requires Chain(next, l) && l != []
    ensures Chain(next, l[1..]) && next[l[0]] == HeadOf(l[1..]) && (|l| > 1 ==> TailOf(l[1..]) == TailOf(l))
  {
    assert forall j :: 0 <= j < |l[1..]| ==> l[1..][j] == l[j + 1] && After(l[1..], j) == After(l, j + 1);
  }

  /** A chain linked in front of another, where its last node pointed nowhere. */
  lemma ChainJoin(next: seq<int>, a: seq<int>, b: seq<int>, n1: seq<int>)
    requires Chain(next, a) && Chain(next, b) && a != [] && NoDup(a) && a[|a| - 1] !in b
    requires n1 == next[a[|a| - 1] := HeadOf(b)]
    ensures Chain(n1, a + b)
  {
    var l := a + b;
    forall j | 0 <= j < |l| ensures 0 <= l[j] < |n1| && n1[l[j]] == After(l, j) {
      if j < |a| {
        assert l[j] == a[j] && next[a[j]] == After(a, j);
      } else {
        assert l[j] == b[j - |a|] && b[j - |a|] in b && next[b[j - |a|]] == After(b, j - |a|);
      }
    }
  }

  class PortTab {
    const msgs: array<int>
    const next: array<int>
    var ptfree: int
    var porttab: seq<PtEnt>
    var procs: seq<Proc>
    var ptnextid: int
    var panicked: bool
    ghost var free: seq<int>
    ghost var ports: seq<Port>

    ghost predicate Valid() reads this, msgs, next {
      && msgs != next && msgs.Length == next.Length && |porttab| == |ports|
      && Chain(next[..], free) && ptfree == HeadOf(free)
      && forall i :: 0 <= i < |ports| ==> EntOk(porttab[i], ports[i]) && Chain(next[..], ports[i].nodes)
    }

    ghost function View(): State reads this, msgs { State(ports, free, msgs[..], procs, ptnextid, panicked) }

    /** ptinit */
    constructor (nports: nat, maxmsgs: nat, nprocs: nat)
      requires maxmsgs >= 1
      ensures Valid() && View() == P.Init(nports, maxmsgs, nprocs)
    {
      hide After, Numbers;
      msgs, next := new int[maxmsgs](_ => 0), new int[maxmsgs](_ => 0);
      ptfree, ptnextid, panicked := 0, 0, false;
      porttab := seq(nports, _ => PtEnt(Free, Sem(0, []), Sem(0, []), 0, 0, NULL, NULL));
      ports := seq(nports, _ => Port(Free, Sem(0, []), Sem(0, []), 0, 0, 0, [], [], []));
      procs := seq(nprocs, _ => Idle);
      free := Numbers(maxmsgs);
      new;
      var curr, nx, left := 0, 0, maxmsgs - 1;
      while left > 0
        modifies next
        invariant 0 <= left < maxmsgs && curr == nx == maxmsgs - 1 - left
        invariant forall j :: 0 <= j < curr ==> next[j] == j + 1
      {
        nx := nx + 1;
        next[curr] := nx;
        curr := nx;
        left := left - 1;
      }
      next[curr] := NULL;
      assert msgs[..] == P.Init(nports, maxmsgs, nprocs).msgs;
      InitChain(next[..], maxmsgs);
    }

    /** The processes of q are made ready, in turn. */
    method WakeUp(q: seq<int>)
      requires forall j :: 0 <= j < |q| ==> 0 <= q[j] < |procs|
      modifies this`procs
      ensures procs == WakeAll(old(procs), q)
    {
      var k := 0;
      assert procs == WakeAll(procs, q[..0]);
      while k < |q|
        invariant 0 <= k <= |q| && procs == WakeAll(old(procs), q[..k]) && |procs| == |old(procs)|
      {
        procs := procs[q[k] := Wake(procs[q[k]])];
        assert forall p :: p in q[..k + 1] <==> p in q[..k] || p == q[k];
        k := k + 1;
      }
      assert q[..k] == q;
    }

    /** signal on a semaphore of port i */
    method SignalSem(i: nat, send: bool)
      requires Valid() && i < |ports|
      requires QueueOk(procs, SemOf(ports[i], send).q, i, send)
      modifies this`porttab, this`procs, this`ports
      ensures Valid() && ports == old(ports)[i := SetSem(old(ports)[i], send, Up(SemOf(old(ports)[i], send)))]
      ensures procs == WakeAll(old(procs), Woken(SemOf(old(ports)[i], send)))
    {
      hide Chain, NoDup, Blocked;
      assert EntOk(porttab[i], ports[i]);
      var sem := if send then porttab[i].ssem else porttab[i].rsem;
      var count, q := sem.count + 1, sem.q;
      if sem.count < 0 && q != [] {
        WakeUp(q[..1]);
        q := q[1..];
      } else {
        WakeUp([]);
      }
      porttab := porttab[i := if send then porttab[i].(ssem := Sem(count, q)) else porttab[i].(rsem := Sem(count, q))];
      ports := ports[i := SetSem(ports[i], send, Sem(count, q))];
    }

    /** The part of ptsend behind its wait. */
    method LinkMsg(i: nat, msg: int)
      requires Valid() && Weak(View(), i, 1, 0) && Usable(View(), i)
      modifies this, msgs, next
      ensures Valid() && View() == P.Link(old(View()), i, msg)
    {
      hide Weak, Chain, QueueOk, NodesOk, WakeAll, Up, Woken;
      if ptfree == NULL {
        panicked := true;
        FreeHead();
        return;
      }
      FreeHead();
      Queues(i);
      ProcsAt(View(), i, 1, 0);
      LinkNode(i, msg);
      SignalSem(i, false);
    }

    /** The first free node goes behind the last one of port i. */
    method LinkNode(i: nat, msg: int)
      requires Valid() && i < |ports| && free != [] && NodesOk(View()) && ports[i].state == Alloc
      modifies this`ptfree, this`porttab, this`free, this`ports, msgs, next
      ensures Valid() && free == old(free)[1..] && 0 <= old(free)[0] < msgs.Length
      ensures msgs[..] == old(msgs[..])[old(free)[0] := msg]
      ensures ports == old(ports)[i := old(ports)[i].(nodes := old(ports)[i].nodes + [old(free)[0]],
                                                      sent := old(ports)[i].sent + [msg])]
    {
      hide Chain, NodesOk;
      FreeHead();
      Unlinked(i);
      var msgnode := ptfree;
      ptfree := next[msgnode];
      next[msgnode] := NULL;
      msgs[msgnode] := msg;
      var tailnode := porttab[i].tail;
      if tailnode == NULL {
        porttab := porttab[i := porttab[i].(head := msgnode, tail := msgnode)];
      } else {
        next[tailnode] := msgnode;
        porttab := porttab[i := porttab[i].(tail := msgnode)];
      }
      ghost var l := ports[i].nodes;
      assert next[..] == Linked(old(next[..]), l, msgnode);
      free := free[1..];
      ports := ports[i := ports[i].(nodes := l + [msgnode], sent := ports[i].sent + [msg])];
    }

    lemma FreeHead()
      requires Valid()
      ensures ptfree == NULL <==> free == []
      ensures free != [] ==> ptfree == free[0] && 0 <= free[0] < next.Length && next[free[0]] == HeadOf(free[1..])
    {
      if free != [] { ChainTail(next[..], free); }
    }

    lemma Queues(i: nat)
      requires Weak(View(), i, 1, 0) && i < |ports|
      ensures QueueOk(procs, ports[i].rsem.q, i, false)
    {
      At(View(), i, i, 1, 0);
      hide Weak, QueueOk, Fifo, Count;
    }

    /** Where the lists are after the first free node has gone to the end of the list of port i. */
    lemma Unlinked(i: nat)
      requires Valid() && i < |ports| && free != [] && NodesOk(View()) && ports[i].state == Alloc
      ensures porttab[i].tail == TailOf(ports[i].nodes)
        && (ports[i].nodes != [] ==> 0 <= TailOf(ports[i].nodes) < next.Length)
      ensures TailOf(ports[i].nodes) != free[0] && 0 <= free[0] < next.Length
      ensures var n1 := Linked(next[..], ports[i].nodes, free[0]);
        && Chain(n1, free[1..]) && Chain(n1, ports[i].nodes + [free[0]])
        && forall j :: 0 <= j < |ports| && j != i ==> Chain(n1, ports[j].nodes)
    {
      hide NodesOk, Linked;
      FreeApart(View(), 0);
      assert EntOk(porttab[i], ports[i]);
      hide EntOk, Chain;
      LastIn(next[..], ports[i].nodes);
      LinkedAll(View(), next[..], i);
    }

    /** The part of ptrecv behind its wait: there is a message. */
    method TakeMsg(i: nat) returns (msg: int)
      requires Valid() && Weak(View(), i, 0, 1) && Usable(View(), i)
      modifies this, next
      ensures Valid() && View() == P.Take(old(View()), i)
      ensures old(ports[i].nodes) != [] && ports[i].got == old(ports[i].got) + [msg]
    {
      hide Weak, Chain, QueueOk, NodesOk, WakeAll;
      HasMessage(i);
      ProcsAt(View(), i, 0, 1);
      Moved(i);
      var msgnode := porttab[i].head;
      msg := msgs[msgnode];
      if porttab[i].head == porttab[i].tail {
        porttab := porttab[i := porttab[i].(head := NULL, tail := NULL)];
      } else {
        porttab := porttab[i := porttab[i].(head := next[msgnode])];
      }
      next[msgnode] := ptfree;
      ptfree := msgnode;
      ghost var l := ports[i].nodes;
      assert next[..] == old(next[..])[l[0] := HeadOf(free)];
      free := [l[0]] + free;
      ports := ports[i := ports[i].(nodes := l[1..], got := ports[i].got + [msg])];
      SignalSem(i, true);
    }

    lemma HasMessage(i: nat)
      requires Weak(View(), i, 0, 1) && i < |ports| && ports[i].state == Alloc
      ensures ports[i].nodes != [] && QueueOk(procs, ports[i].ssem.q, i, true)
    {
      At(View(), i, i, 0, 1);
      hide Weak, QueueOk, Fifo, Count;
    }

    /** Where the lists are after the first node of port i has gone to the front of the free list. */
    lemma Moved(i: nat)
      requires Valid() && i < |ports| && ports[i].nodes != [] && NodesOk(View()) && ports[i].state == Alloc
      ensures porttab[i].head == ports[i].nodes[0] && 0 <= porttab[i].head < next.Length
      ensures next[porttab[i].head] == HeadOf(ports[i].nodes[1..])
      ensures (porttab[i].head == porttab[i].tail <==> |ports[i].nodes| == 1)
        && (|ports[i].nodes| > 1 ==> porttab[i].tail == TailOf(ports[i].nodes[1..]))
      ensures var n1 := next[..][ports[i].nodes[0] := HeadOf(free)];
        && Chain(n1, [ports[i].nodes[0]] + free) && Chain(n1, ports[i].nodes[1..])
        && forall j :: 0 <= j < |ports| && j != i ==> Chain(n1, ports[j].nodes)
    {
      hide NodesOk, NoDup;
      assert EntOk(porttab[i], ports[i]);
      hide Chain;
      ChainTail(next[..], ports[i].nodes);
      FirstIn(next[..], ports[i].nodes);
      ListsApart(View(), i);
      LastApart(ports[i].nodes);
      hide EntOk;
      MovedAll(View(), next[..], i);
    }

    // ---- the calls ----

    method LowerSem(i: nat, send: bool)
      requires Valid() && i < |ports|
      modifies this`porttab, this`ports
      ensures Valid() && |ports| == old(|ports|)
      ensures View() == SetPort(old(View()), i, SetSem(old(ports)[i], send,
        SemOf(old(ports)[i], send).(count := SemOf(old(ports)[i], send).count - 1)))
    {
      hide Chain;
      assert EntOk(porttab[i], ports[i]);
      var sem := if send then porttab[i].ssem else porttab[i].rsem;
      sem := sem.(count := sem.count - 1);
      porttab := porttab[i := if send then porttab[i].(ssem := sem) else porttab[i].(rsem := sem)];
      ports := ports[i := SetSem(ports[i], send, sem)];
    }

    /** The process joins the queue of the semaphore. */
    method Await(i: nat, send: bool, p: nat, x: Proc)
      requires Valid() && i < |ports| && p < |procs|
      modifies this`porttab, this`ports, this`procs
      ensures Valid() && |ports| == old(|ports|)
      ensures var sem := SemOf(old(ports)[i], send);
        View() == SetPort(old(View()), i, SetSem(old(ports)[i], send,
          Sem(sem.count - 1, sem.q + [p]))).(procs := old(procs)[p := x])
    {
      hide Chain;
      assert EntOk(porttab[i], ports[i]);
      var sem := if send then porttab[i].ssem else porttab[i].rsem;
      sem := Sem(sem.count - 1, sem.q + [p]);
      porttab := porttab[i := if send then porttab[i].(ssem := sem) else porttab[i].(rsem := sem)];
      ports := ports[i := SetSem(ports[i], send, sem)];
      procs := procs[p := x];
    }

    /** ptsend, up to its end or its wait. */
    method Send(p: nat, i: int, msg: int) returns (ok: bool)
      requires Valid() && Core(View()) && p < |procs| && procs[p] == Idle
      modifies this, msgs, next
      ensures Valid() && View() == P.Send(old(View()), p, i, msg)
      ensures ok <==> Usable(old(View()), i)
    {
      hide Core, Weak, Chain, PortOk, P.Link;
      if !(0 <= i < |porttab|) {
        return false;
      }
      assert EntOk(porttab[i], ports[i]);
      if porttab[i].state != Alloc {
        return false;
      }
      if porttab[i].ssem.count > 0 {
        Passing(i, true);
        LowerSem(i, true);
        LinkMsg(i, msg);
      } else {
        Await(i, true, p, Sending(i, porttab[i].seqno, msg, false));
      }
      return true;
    }

    /** What the running process has been promised when it does not have to wait. */
    lemma Passing(i: nat, send: bool)
      requires Core(View()) && Usable(View(), i) && SemOf(ports[i], send).count > 0
      ensures Weak(SetPort(View(), i, SetSem(ports[i], send,
        SemOf(ports[i], send).(count := SemOf(ports[i], send).count - 1))), i,
        if send then 1 else 0, if send then 0 else 1)
    {
      var v := View();
      CoreWeak(v, i);
      At(v, i, i, 0, 0);
      hide Weak;
      PassPort(ports[i], procs, i, send);
      hide PortOk;
      ChangePort(v, i, SetSem(ports[i], send, SemOf(ports[i], send).(count := SemOf(ports[i], send).count - 1)),
                 if send then 1 else 0, if send then 0 else 1);
    }

    /** ptrecv, up to its end or its wait; a message is returned when it did not have to wait. */
    method Recv(p: nat, i: int) returns (r: seq<int>)
      requires Valid() && Core(View()) && p < |procs| && procs[p] == Idle
      modifies this, next
      ensures Valid() && View() == P.Recv(old(View()), p, i)
      ensures |r| == (if Usable(old(View()), i) && old(View()).ports[i].rsem.count > 0 then 1 else 0)
      ensures 0 <= i < |ports| == |old(ports)| ==> ports[i].got == old(ports)[i].got + r
    {
      hide Core, Weak, Chain, PortOk, P.Take;
      r := [];
      if !(0 <= i < |porttab|) {
        return;
      }
      assert EntOk(porttab[i], ports[i]);
      if porttab[i].state != Alloc {
        return;
      }
      if porttab[i].rsem.count > 0 {
        Passing(i, false);
        LowerSem(i, false);
        var msg := TakeMsg(i);
        r := [msg];
      } else {
        Await(i, false, p, Receiving(i, porttab[i].seqno, false));
      }
    }

    /** ptsend or ptrecv after the wait has returned: the port must be in use and its number the one
        the process has kept. */
    method GoOn(p: nat) returns (r: seq<int>)
      requires Valid() && Core(View()) && p < |procs|
      modifies this, msgs, next
      ensures Valid() && View() == P.GoOn(old(View()), p)
      ensures r != [] ==> |r| == 1 && old(procs)[p].Receiving?
      ensures old(procs)[p].Receiving? && 0 <= old(procs)[p].port < |ports| == |old(ports)| ==>
        ports[old(procs)[p].port].got == old(ports)[old(procs)[p].port].got + r
    {
      hide Core, Weak, Chain, PortOk, P.Take, P.Link;
      r := [];
      var x := procs[p];
      if (x.Sending? && x.awake) || (x.Receiving? && x.awake) {
        IdleOk(View(), p, x.port);
        AwakeOr(View(), p, x.port);
        procs := procs[p := Idle];
        var i := x.port;
        assert EntOk(porttab[i], ports[i]);
        if porttab[i].state == Alloc && porttab[i].seqno == x.seqno {
          if x.Sending? {
            LinkMsg(i, x.msg);
          } else {
            var msg := TakeMsg(i);
            r := [msg];
          }
        }
      }
    }

    /** The walk of _ptclear over the messages, which are handed to the function given. */
    method Dispose(i: nat) returns (disposed: seq<int>)
      requires Valid() && i < |ports| && ports[i].state == Alloc && Fifo(ports[i], msgs[..])
      ensures disposed == Messages(ports[i].nodes, msgs[..])
    {
      hide Fifo;
      assert EntOk(porttab[i], ports[i]);
      var walk := porttab[i].head;
      ghost var l := ports[i].nodes;
      ghost var k := 0;
      disposed := [];
      while walk != NULL
        invariant 0 <= k <= |l| && walk == (if k < |l| then l[k] else NULL) && disposed == Messages(l, msgs[..])[..k]
        decreases |l| - k
      {
        disposed := disposed + [msgs[walk]];
        walk := next[walk];
        k := k + 1;
      }
    }

    /** The whole list of port i goes to the front of the free list, and the port is in limbo. */
    method Splice(i: nat, again: bool)
      requires Valid() && NodesOk(View()) && i < |ports| && ports[i].state == Alloc
      modifies this`ptfree, this`free, this`ports, this`porttab, next
      ensures Valid() && free == old(ports)[i].nodes + old(free)
      ensures ports == old(ports)[i := Cleared(old(ports)[i], again)]
    {
      hide Chain, NodesOk, NoDup;
      Spliced(i);
      ChainNone();
      ghost var l := ports[i].nodes;
      if porttab[i].head != NULL {
        next[porttab[i].tail] := ptfree;
        ptfree := porttab[i].head;
      }
      assert next[..] == Joined(old(next[..]), l, HeadOf(free));
      free := l + free;
      assert EntOk(porttab[i], ports[i]);
      ports := ports[i := Cleared(ports[i], again)];
      var sem := Sem(if again then porttab[i].max else 0, []);
      porttab := porttab[i := porttab[i].(state := Limbo(again), seqno := porttab[i].seqno + 1, ssem := sem)];
      if again {
        porttab := porttab[i := porttab[i].(head := NULL, tail := NULL)];
      }
    }

    /** _ptclear, up to the end of the first semreset or semdelete. */
    method Clear(p: nat, i: int, again: bool) returns (disposed: seq<int>)
      requires Valid() && Core(View()) && p < |procs| && procs[p] == Idle
      modifies this, next
      ensures Valid() && View() == P.Clear(old(View()), p, i, again)
      ensures Usable(old(View()), i) ==> old(ports)[i].sent == old(ports)[i].got + disposed
    {
      hide Core, Chain, NodesOk, NoDup, WakeAll;
      disposed := [];
      if !(0 <= i < |porttab|) {
        return;
      }
      assert EntOk(porttab[i], ports[i]);
      if porttab[i].state != Alloc {
        return;
      }
      ClearFacts(i);
      disposed := Dispose(i);
      var q := porttab[i].ssem.q;
      Splice(i, again);
      WakeUp(q);
      procs := procs[p := Clearing(i, false)];
    }

    lemma ClearFacts(i: nat)
      requires Core(View()) && i < |ports|
      ensures Fifo(ports[i], msgs[..]) && QueueOk(procs, ports[i].ssem.q, i, true) && NodesOk(View())
    {
      At(View(), i, NONE, 0, 0);
      ProcsAt(View(), NONE, 0, 0);
      hide Weak, QueueOk, Fifo, NodesOk;
    }

    /** Where the lists are after the whole list of port i has gone to the front of the free list. */
    lemma Spliced(i: nat)
      requires Valid() && i < |ports| && NodesOk(View()) && ports[i].state == Alloc
      ensures porttab[i].head == HeadOf(ports[i].nodes) && porttab[i].tail == TailOf(ports[i].nodes)
      ensures ports[i].nodes != [] ==> 0 <= TailOf(ports[i].nodes) < next.Length && 0 <= HeadOf(ports[i].nodes)
      ensures var n1 := Joined(next[..], ports[i].nodes, HeadOf(free));
        && Chain(n1, ports[i].nodes + free) && forall j :: 0 <= j < |ports| && j != i ==> Chain(n1, ports[j].nodes)
    {
      hide NodesOk, NoDup;
      assert EntOk(porttab[i], ports[i]);
      hide EntOk, Chain;
      LastIn(next[..], ports[i].nodes);
      FirstIn(next[..], ports[i].nodes);
      SplicedAll(View(), next[..], i);
    }

    /** The rest of _ptclear. */
    method ClearOn(p: nat)
      requires Valid() && Core(View()) && p < |procs|
      modifies this
      ensures Valid() && View() == P.ClearOn(old(View()), p)
    {
      hide Core, Chain, WakeAll, NodesOk;
      if !procs[p].Clearing? {
        return;
      }
      var i := procs[p].port;
      InLimbo(p);
      assert EntOk(porttab[i], ports[i]);
      if !procs[p].last {
        var q := porttab[i].rsem.q;
        porttab := porttab[i := porttab[i].(rsem := Sem(0, []))];
        ports := ports[i := ports[i].(rsem := Sem(0, []))];
        WakeUp(q);
        procs := procs[p := Clearing(i, true)];
      } else {
        var again := porttab[i].state.again;
        porttab := porttab[i := porttab[i].(state := if again then Alloc else Free)];
        ports := ports[i := ports[i].(state := if again then Alloc else Free)];
        procs := procs[p := Idle];
        if !again {
          ptnextid := i;
        }
      }
    }

    lemma InLimbo(p: nat)
      requires Core(View()) && p < |procs| && procs[p].Clearing?
      ensures var i := procs[p].port;
        0 <= i < |ports| && ports[i].state.Limbo? && QueueOk(procs, ports[i].rsem.q, i, false)
    {
      ProcsAt(View(), NONE, 0, 0);
      assert ProcOk(ports, procs[p]);
      At(View(), procs[p].port, NONE, 0, 0);
      hide Weak, QueueOk, Fifo, NodesOk, OneClears;
    }

    /** Looks at every entry once, beginning with the next one, for a free one. */
    method FindEntry() returns (id: int)
      requires |porttab| == |ports| && 0 <= ptnextid < |ports| && forall i :: 0 <= i < |ports| ==>
        porttab[i].state == ports[i].state
      modifies this`ptnextid
      ensures id == FindFree(ports, old(ptnextid), |ports|)
      ensures ptnextid == if id < 0 then old(ptnextid) else Around(id, |ports|)
    {
      var k, n, i := ptnextid, |porttab|, 0;
      while i < n
        invariant 0 <= i <= n && 0 <= ptnextid < n && ptnextid == (if k + i < n then k + i else k + i - n)
        invariant FindFree(ports, ptnextid, n - i) == FindFree(ports, k, n)
      {
        var ptnum := ptnextid;
        ptnextid := ptnextid + 1;
        if ptnextid >= n {
          ptnextid := 0;
        }
        if porttab[ptnum].state == Free {
          return ptnum;
        }
        i := i + 1;
      }
      return -1;
    }

    /** ptcreate */
    method Create(count: int) returns (id: int)
      requires Valid() && Core(View()) && |ports| > 0
      modifies this
      ensures Valid() && View() == P.Create(old(View()), count)
      ensures id == -1 <==> count < 0 || forall i :: 0 <= i < |old(ports)| ==> old(ports)[i].state != Free
      ensures id != -1 ==> 0 <= id < |ports| && ports[id].state == Alloc && ports[id].seqno == old(ports)[id].seqno + 1
    {
      hide Core, Chain, NewPort, EntOk, FindFree;
      InTable();
      CreateExact(View(), count);
      FreeNone();
      SameStates();
      if count < 0 {
        return -1;
      }
      id := FindEntry();
      if id >= 0 {
        Occupy(id, count);
      }
    }

    lemma InTable()
      requires Core(View()) && |ports| > 0
      ensures 0 <= ptnextid < |ports|
    {
      ProcsAt(View(), NONE, 0, 0);
      hide Weak;
    }

    /** A free entry has no messages. */
    lemma FreeNone()
      requires Core(View())
      ensures forall i :: 0 <= i < |ports| && ports[i].state == Free ==> ports[i].nodes == []
    {
      forall i | 0 <= i < |ports| && ports[i].state == Free ensures ports[i].nodes == [] { FreeEmpty(View(), i); }
    }

    lemma SameStates()
      requires Valid()
      ensures forall i :: 0 <= i < |ports| ==> porttab[i].state == ports[i].state
    {
      hide Chain;
      assert forall i :: 0 <= i < |ports| ==> EntOk(porttab[i], ports[i]);
    }

    /** The entry found is taken. */
    method Occupy(i: nat, count: nat)
      requires Valid() && i < |ports| && ports[i].nodes == []
      modifies this`ports, this`porttab
      ensures Valid() && ports == old(ports)[i := NewPort(old(ports)[i], count)]
      ensures ports[i].state == Alloc && ports[i].seqno == old(ports)[i].seqno + 1
    {
      assert EntOk(porttab[i], ports[i]);
      hide Chain;
      ports := ports[i := NewPort(ports[i], count)];
      porttab := porttab[i := PtEnt(Alloc, Sem(count, []), Sem(0, []), porttab[i].seqno + 1, count % COUNTS, NULL,
        NULL)];
    }
  }

  /** The port while it is cleared. */
  function Cleared(port: Port, again: bool): Port {
    Port(Limbo(again), Sem(if again then port.max else 0, []), port.rsem, port.seqno + 1, port.max, port.max, [], [],
      [])
  }

  lemma ChainNone()
    ensures forall next :: Chain(next, [])
  {}

  lemma InitChain(next: seq<int>, n: nat)
    requires |next| == n && n >= 1 && next[n - 1] == NULL && forall j :: 0 <= j < n - 1 ==> next[j] == j + 1
    ensures Chain(next, Numbers(n)) && HeadOf(Numbers(n)) == 0
  {}

  lemma LastIn(next: seq<int>, l: seq<int>)
    requires Chain(next, l)
    ensures l != [] ==> 0 <= TailOf(l) < |next| && TailOf(l) in l
  {}

  lemma LinkedAll(s: State, next: seq<int>, i: nat)
    requires NodesOk(s) && s.free != [] && i < |s.ports| && 0 <= s.free[0] < |next| == |s.msgs|
    requires Chain(next, s.free) && forall j :: 0 <= j < |s.ports| ==> Chain(next, s.ports[j].nodes)
    requires s.ports[i].nodes != [] ==> 0 <= TailOf(s.ports[i].nodes) < |next|
    ensures var n1 := Linked(next, s.ports[i].nodes, s.free[0]);
      && Chain(n1, s.free[1..]) && Chain(n1, s.ports[i].nodes + [s.free[0]])
      && forall j :: 0 <= j < |s.ports| && j != i ==> Chain(n1, s.ports[j].nodes)
  {
    hide NodesOk, NoDup, Chain;
    var l, x := s.ports[i].nodes, s.free[0];
    FreeApart(s, 0);
    ListsApart(s, i);
    FreeOff(s, i);
    ChainTail(next, s.free);
    LastIn(next, l);
    var n1 := Linked(next, l, x);
    forall j | 0 <= j < |s.ports| && j != i ensures Chain(n1, s.ports[j].nodes) {
      ListsDisjoint(s, i, j);
      ChainFrame(next, n1, s.ports[j].nodes);
    }
    assert forall y :: y in s.free[1..] ==> y in s.free;
    ChainFrame(next, n1, s.free[1..]);
    LinkedChain(next, l, x);
  }

  /** The links after node x has been put behind the list l. */
  function Linked(next: seq<int>, l: seq<int>, x: int): seq<int>
    requires 0 <= x < |next| && (l != [] ==> 0 <= l[|l| - 1] < |next|)
  {
    if l == [] then next[x := NULL] else next[x := NULL][l[|l| - 1] := x]
  }

  lemma LinkedChain(next: seq<int>, l: seq<int>, x: int)
    requires Chain(next, l) && NoDup(l) && x !in l && 0 <= x < |next|
    ensures Chain(Linked(next, l, x), l + [x])
  {
    var m := l + [x];
    forall j | 0 <= j < |m| ensures 0 <= m[j] < |next| && Linked(next, l, x)[m[j]] == After(m, j) {
      if j < |l| { assert m[j] == l[j] && l[j] in l && next[l[j]] == After(l, j); }
    }
  }

  /** No node is on two lists. */
  lemma ListsDisjoint(s: State, i: nat, j: nat)
    requires NodesOk(s) && i < |s.ports| && j < |s.ports| && i != j
    ensures forall x :: x in s.ports[i].nodes ==> x !in s.ports[j].nodes
  {
    forall x | x in s.ports[i].nodes ensures x !in s.ports[j].nodes {
      NumbersBag(|s.msgs|, x);
      TwoIn(s.ports, i, j, x);
    }
  }

  lemma {:induction false} TwoIn(ports: seq<Port>, i: nat, j: nat, x: int)
    requires i < |ports| && j < |ports| && i != j
    ensures multiset(ports[i].nodes)[x] + multiset(ports[j].nodes)[x] <= Bag(ports)[x]
    decreases i + j
  {
    if i == 0 {
      BagIn(ports[1..], j - 1);
    } else if j == 0 {
      BagIn(ports[1..], i - 1);
    } else {
      TwoIn(ports[1..], i - 1, j - 1, x);
    }
  }

  /** No free node is on the list of port i. */
  lemma FreeOff(s: State, i: nat)
    requires NodesOk(s) && i < |s.ports|
    ensures forall x :: x in s.free ==> x !in s.ports[i].nodes
  {
    forall x | x in s.free ensures x !in s.ports[i].nodes {
      var k :| 0 <= k < |s.free| && s.free[k] == x;
      FreeApart(s, k);
    }
  }

  lemma FirstIn(next: seq<int>, l: seq<int>)
    requires Chain(next, l)
    ensures l != [] ==> 0 <= HeadOf(l) < |next|
  {}

  lemma LastApart(l: seq<int>)
    requires NoDup(l) && l != []
    ensures HeadOf(l) == TailOf(l) <==> |l| == 1
  {}

  lemma MovedAll(s: State, next: seq<int>, i: nat)
    requires NodesOk(s) && i < |s.ports| && s.ports[i].nodes != [] && |next| == |s.msgs|
    requires Chain(next, s.free) && forall j :: 0 <= j < |s.ports| ==> Chain(next, s.ports[j].nodes)
    requires 0 <= s.ports[i].nodes[0] < |next|
    ensures var n1 := next[s.ports[i].nodes[0] := HeadOf(s.free)];
      && Chain(n1, [s.ports[i].nodes[0]] + s.free) && Chain(n1, s.ports[i].nodes[1..])
      && forall j :: 0 <= j < |s.ports| && j != i ==> Chain(n1, s.ports[j].nodes)
  {
    hide NodesOk, Chain;
    var l := s.ports[i].nodes;
    var x := l[0];
    ListsApart(s, i);
    FreeOff(s, i);
    ChainTail(next, l);
    TailMembers(l);
    hide NoDup;
    var n1 := next[x := HeadOf(s.free)];
    forall j | 0 <= j < |s.ports| && j != i ensures Chain(n1, s.ports[j].nodes) {
      ListsDisjoint(s, i, j);
      ChainFrame(next, n1, s.ports[j].nodes);
    }
    ChainFrame(next, n1, l[1..]);
    ChainFrame(next, n1, s.free);
    ChainFront(n1, x, s.free);
  }

  lemma ChainFront(next: seq<int>, x: int, l: seq<int>)
    requires Chain(next, l) && 0 <= x < |next| && next[x] == HeadOf(l)
    ensures Chain(next, [x] + l)
  {
    var m := [x] + l;
    forall j | 0 <= j < |m| ensures 0 <= m[j] < |next| && next[m[j]] == After(m, j) {
      if j > 0 { assert m[j] == l[j - 1] && next[l[j - 1]] == After(l, j - 1); }
    }
  }

  /** The links after the list l has been put in front of the list that begins at head. */
  function Joined(next: seq<int>, l: seq<int>, head: int): seq<int>
    requires l != [] ==> 0 <= l[|l| - 1] < |next|
  {
    if l == [] then next else next[l[|l| - 1] := head]
  }

  lemma SplicedAll(s: State, next: seq<int>, i: nat)
    requires NodesOk(s) && i < |s.ports| && |next| == |s.msgs|
    requires Chain(next, s.free) && forall j :: 0 <= j < |s.ports| ==> Chain(next, s.ports[j].nodes)
    requires s.ports[i].nodes != [] ==> 0 <= TailOf(s.ports[i].nodes) < |next|
    ensures var n1 := Joined(next, s.ports[i].nodes, HeadOf(s.free));
      && Chain(n1, s.ports[i].nodes + s.free) && forall j :: 0 <= j < |s.ports| && j != i ==>
        Chain(n1, s.ports[j].nodes)
  {
    hide NodesOk, Chain, NoDup;
    var l := s.ports[i].nodes;
    var n1 := Joined(next, l, HeadOf(s.free));
    ListsApart(s, i);
    FreeOff(s, i);
    LastIn(next, l);
    forall j | 0 <= j < |s.ports| && j != i ensures Chain(n1, s.ports[j].nodes) {
      ListsDisjoint(s, i, j);
      ChainFrame(next, n1, s.ports[j].nodes);
    }
    if l == [] {
      assert l + s.free == s.free;
    } else {
      ChainJoin(next, l, s.free, n1);
    }
  }
}
