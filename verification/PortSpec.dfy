/** Message ports: bounded buffers on two semaphores each, all fed from one free list of message
    nodes. Every function is what one process does until it returns, blocks, or can lose the
    processor. */
module PortSpec {
  import opened Seqs

  /** Limbo tells what the port will be after it has been cleared: usable again, or free. */
  datatype PtState = Free | Alloc | Limbo(again: bool)

  /** A semaphore with the processes that wait for it. */
  datatype Sem = Sem(count: int, q: seq<int>)

  /** An entry of porttab. cap is the number of messages the port takes at the moment; sent and got
      are the messages linked to the port and taken off it since it was created or reset. */
  datatype Port = Port(state: PtState, ssem: Sem, rsem: Sem, seqno: int, max: int, cap: int,
                       nodes: seq<int>, sent: seq<int>, got: seq<int>)

  /** Where a process is: waiting for a semaphore of a port, awake after it has waited but not yet
      back from wait, or between the two semaphores that _ptclear resets. */
  datatype Proc =
    | Idle
    | Sending(port: int, seqno: int, msg: int, awake: bool)
    | Receiving(port: int, seqno: int, awake: bool)
    | Clearing(port: int, last: bool)

  datatype State = State(ports: seq<Port>, free: seq<int>, msgs: seq<int>, procs: seq<Proc>, nextid: int, panic: bool)

  /** ptmaxcnt has 16 bits. */
  const COUNTS := 0x1_0000

  predicate Usable(s: State, i: int) { 0 <= i < |s.ports| && s.ports[i].state == Alloc }

  function SetPort(s: State, i: int, port: Port): State
    requires 0 <= i < |s.ports|
  {
    s.(ports := s.ports[i := port])
  }

  // ---- semaphores ----

  function Up(sem: Sem): Sem {
    Sem(sem.count + 1, if sem.count < 0 && sem.q != [] then sem.q[1..] else sem.q)
  }

  /** The process that signal makes ready. */
  function Woken(sem: Sem): seq<int> { if sem.count < 0 && sem.q != [] then sem.q[..1] else [] }

  function Wake(x: Proc): Proc {
    match x
    case Sending(i, n, msg, _) => Sending(i, n, msg, true)
    case Receiving(i, n, _) => Receiving(i, n, true)
    case _ => x
  }

  function WakeAll(procs: seq<Proc>, q: seq<int>): (r: seq<Proc>)
    ensures |r| == |procs|
  {
    seq(|procs|, p requires 0 <= p < |procs| => if p in q then Wake(procs[p]) else procs[p])
  }

  // ---- sending and receiving ----

  /** ptsend after its wait: the first free node goes to the end of the port's list. */
  function Link(s: State, i: int, msg: int): State
    requires 0 <= i < |s.ports|
  {
    if s.free == [] || !(0 <= s.free[0] < |s.msgs|) then s.(panic := true)
    else
      var (n, port) := (s.free[0], s.ports[i]);
      State(s.ports[i := port.(nodes := port.nodes + [n], sent := port.sent + [msg], rsem := Up(port.rsem))],
            s.free[1..], s.msgs[n := msg], WakeAll(s.procs, Woken(port.rsem)), s.nextid, s.panic)
  }

  /** ptrecv after its wait: the first node of the port goes back to the free list. */
  function Take(s: State, i: int): State
    requires 0 <= i < |s.ports|
  {
    if s.ports[i].nodes == [] || !(0 <= s.ports[i].nodes[0] < |s.msgs|) then s.(panic := true)
    else
      var port := s.ports[i];
      var n := port.nodes[0];
      State(s.ports[i := port.(nodes := port.nodes[1..], got := port.got + [s.msgs[n]], ssem := Up(port.ssem))],
            [n] + s.free, s.msgs, WakeAll(s.procs, Woken(port.ssem)), s.nextid, s.panic)
  }

  /** ptsend by process p */
  function Send(s: State, p: int, i: int, msg: int): State
    requires 0 <= p < |s.procs|
  {
    if !Usable(s, i) then s
    else
      var port := s.ports[i];
      if port.ssem.count > 0 then Link(SetPort(s, i, port.(ssem := port.ssem.(count := port.ssem.count - 1))), i, msg)
      else
        SetPort(s, i, port.(ssem := Sem(port.ssem.count - 1, port.ssem.q + [p])))
          .(procs := s.procs[p := Sending(i, port.seqno, msg, false)])
  }

  /** ptrecv by process p */
  function Recv(s: State, p: int, i: int): State
    requires 0 <= p < |s.procs|
  {
    if !Usable(s, i) then s
    else
      var port := s.ports[i];
      if port.rsem.count > 0 then Take(SetPort(s, i, port.(rsem := port.rsem.(count := port.rsem.count - 1))), i)
      else
        SetPort(s, i, port.(rsem := Sem(port.rsem.count - 1, port.rsem.q + [p])))
          .(procs := s.procs[p := Receiving(i, port.seqno, false)])
  }

  /** A process that was made ready comes back from wait, and looks whether the port is still the one
      it has waited for. */
  function GoOn(s: State, p: int): State
    requires 0 <= p < |s.procs|
  {
    var s1 := s.(procs := s.procs[p := Idle]);
    match s.procs[p]
    case Sending(i, n, msg, true) => if Usable(s, i) && s.ports[i].seqno == n then Link(s1, i, msg) else s1
    case Receiving(i, n, true) => if Usable(s, i) && s.ports[i].seqno == n then Take(s1, i) else s1
    case _ => s
  }

  // ---- ptreset and ptdelete ----

  /** _ptclear up to the end of the first semreset or semdelete: everybody who waits to send is made
      ready, and all messages are thrown away. */
  function Clear(s: State, p: int, i: int, again: bool): State
    requires 0 <= p < |s.procs|
  {
    if !Usable(s, i) then s
    else
      var port := s.ports[i];
      State(s.ports[i := Port(Limbo(again), Sem(if again then port.max else 0, []), port.rsem, port.seqno + 1, port.max,
        port.max, [], [], [])],
            port.nodes + s.free, s.msgs, WakeAll(s.procs, port.ssem.q)[p := Clearing(i, false)], s.nextid, s.panic)
  }

  /** The rest of _ptclear: the second semaphore, then the new state. */
  function ClearOn(s: State, p: int): State
    requires 0 <= p < |s.procs|
  {
    match s.procs[p]
    case Clearing(i, last) =>
      if !(0 <= i < |s.ports|) || !s.ports[i].state.Limbo? then s
      else
        var port := s.ports[i];
        if !last
        then SetPort(s, i, port.(rsem := Sem(0, []))).(procs := WakeAll(s.procs, port.rsem.q)[p := Clearing(i, true)])
        else
          SetPort(s, i, port.(state := if port.state.again then Alloc else Free)).(
            procs := s.procs[p := Idle], nextid := if port.state.again then s.nextid else i)
    case _ => s
  }

  // ---- creating a port ----

  /** The first free entry, looking at n entries from k on, around the table. */
  function FindFree(ports: seq<Port>, k: nat, n: nat): (r: int)
    requires ports != [] ==> k < |ports|
    ensures r == -1 || (0 <= r < |ports| && ports[r].state == Free)
    decreases n
  {
    if n == 0 || ports == [] then -1
    else if ports[k].state == Free then k
    else FindFree(ports, Around(k, |ports|), n - 1)
  }

  function Around(k: nat, n: nat): nat { if k + 1 >= n then 0 else k + 1 }

  function NewPort(was: Port, count: int): Port {
    Port(Alloc, Sem(count, []), Sem(0, []), was.seqno + 1, count % COUNTS, count, [], [], [])
  }

  /** ptcreate */
  function Create(s: State, count: int): State {
    if count < 0 || !(0 <= s.nextid < |s.ports|) then s
    else
      var i := FindFree(s.ports, s.nextid, |s.ports|);
      if i < 0 then s else SetPort(s, i, NewPort(s.ports[i], count)).(nextid := Around(i, |s.ports|))
  }

  // ---- kill ----

  /** A process that waits leaves the queue of its semaphore, which is counted up. */
  function Leave(sem: Sem, p: int): Sem { Sem(sem.count + 1, Without(sem.q, p)) }

  function Kill(s: State, p: int): State
    requires 0 <= p < |s.procs|
  {
    var s1 := s.(procs := s.procs[p := Idle]);
    match s.procs[p]
    case Sending(i, _, _, false) => if 0 <= i < |s.ports|
      then SetPort(s1, i, s.ports[i].(ssem := Leave(s.ports[i].ssem, p))) else s1
    case Receiving(i, _, false) => if 0 <= i < |s.ports|
      then SetPort(s1, i, s.ports[i].(rsem := Leave(s.ports[i].rsem, p))) else s1
    case _ => s1
  }

  // ---- the start ----

  function Numbers(n: nat): (s: seq<int>) { seq(n, i => i) }

  /** ptinit: all entries free, all nodes on the free list. */
  function Init(nports: nat, nodes: nat, nprocs: nat): State {
    State(seq(nports, _ => Port(Free, Sem(0, []), Sem(0, []), 0, 0, 0, [], [], [])), Numbers(nodes), seq(nodes, _ => 0),
          seq(nprocs, _ => Idle), 0, false)
  }

  /** ptcount */
  function PtCount(s: State, i: int): int
    requires Usable(s, i)
  {
    var (r, n) := (s.ports[i].rsem.count, s.ports[i].ssem.count);
    if r >= 0 && n < 0 then r - n else r
  }
}
