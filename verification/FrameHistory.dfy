/** The eviction order over whole histories of taking and freeing frames. */
module FrameHistory {
  import opened Kernel
  import opened Seqs
  import opened Frames
  import opened PagerMachine

  datatype Op = TakeFrom(r: Region, pid: int, pte: PtePtr) | GiveBack(g: int)

  /** A frame table with, for every frame, the time at which it was last taken. */
  datatype Hist = Hist(st: FrameSt, clock: nat, taken: map<int, nat>)

  ghost predicate CanDo(h: Hist, op: Op) {
    Shape(h.st) && match op case TakeFrom(r, _, _) => HasFree(h.st, r) case GiveBack(g) => InTable(h.st.cfg, g)
  }

  ghost function Do(h: Hist, op: Op): Hist
    requires CanDo(h, op)
  {
    match op
    case TakeFrom(r, pid, pte) =>
      var (st', g) := Alloc(h.st, r, pid, pte);
      Hist(st', h.clock + 1, h.taken[g := h.clock])
    case GiveBack(g) => h.(st := Free(h.st, g).0, clock := h.clock + 1)
  }

  /** The list is in the order of the times. */
  ghost predicate InOrder(fifo: seq<int>, taken: map<int, nat>, clock: nat) {
    && (forall i :: 0 <= i < |fifo| ==> fifo[i] in taken && taken[fifo[i]] < clock)
    && (forall i, j :: 0 <= i < j < |fifo| ==> taken[fifo[i]] < taken[fifo[j]])
  }

  /** Only region E1 matters: whatever becomes of E2 frames that invtakeframe refuses, the stack of E1
      and the list stay exact. */
  ghost predicate HInv(h: Hist) {
    && Shape(h.st) && Low(h.st.cfg) && Exact(h.st) && InOrder(h.st.fifo, h.taken, h.clock)
  }

  ghost predicate Exact(st: FrameSt)
    requires Shape(st)
  {
    Lists(st, st.free[E1], E1, false) && Lists(st, st.fifo, E1, true)
  }

  /** Every history starts like this, under any bound that covers D and E1. */
  lemma BootHist(c: Cfg)
    requires ValidCfg(c) && Low(c)
    ensures HInv(Hist(Boot(c), 0, map[]))
  {
    hide Boot, Lists;
    BootFrames(c);
  }

  lemma TakeKeeps(st: FrameSt, r: Region, pid: int, pte: PtePtr)
    requires Shape(st) && Low(st.cfg) && Exact(st) && HasFree(st, r)
    ensures var (st', g) := Alloc(st, r, pid, pte);
      && Exact(st') && g == st.free[r][0] && g !in st.fifo
      && st'.fifo == if r == E1 then st.fifo + [g] else st.fifo
  {
    hide Exact, Lists, AllIn;
    var g := st.free[r][0];
    TopIn(st, r);
    if r == E1 {
      TakeE1(st, Alloc(st, r, pid, pte).0, pid, pte);
    } else {
      OtherFrame(st, Alloc(st, r, pid, pte).0, g);
    }
  }

  lemma TopIn(st: FrameSt, r: Region)
    requires Shape(st) && HasFree(st, r) && Exact(st)
    ensures InRegion(st.cfg, r, st.free[r][0]) && (r == E1 ==> !IsUsed(st, st.free[r][0]))
  {
    assert AllIn(st.cfg, r, st.free[r]);
  }

  /** The top of the E1 stack joins the end of the list. */
  lemma TakeE1(st: FrameSt, st': FrameSt, pid: int, pte: PtePtr)
    requires Shape(st) && Shape(st') && Exact(st) && HasFree(st, E1) && st'.cfg == st.cfg
    requires var g := st.free[E1][0];
      && st'.ent == st.ent[g := Ent(pid, true, pte)] && st'.fifo == st.fifo + [g]
      && st'.free == st.free[E1 := st.free[E1][1..]]
    ensures Exact(st') && st.free[E1][0] !in st.fifo
  {
    TailMembers(st.free[E1]);
    assert st.free[E1][0] !in st.fifo;
  }

  /** What happens to a frame of another region does not matter. */
  lemma OtherFrame(st: FrameSt, st': FrameSt, g: int)
    requires Shape(st) && Shape(st') && Exact(st) && st'.cfg == st.cfg && !InRegion(st.cfg, E1, g)
    requires st'.free[E1] == st.free[E1] && st'.fifo == st.fifo
    requires forall x :: x != g ==> IsUsed(st', x) == IsUsed(st, x)
    ensures Exact(st') && g !in st.fifo
  {}

  lemma GiveKeeps(st: FrameSt, g: int)
    requires Shape(st) && Exact(st) && InTable(st.cfg, g)
    ensures Exact(Free(st, g).0)
    ensures Free(st, g).0.fifo == st.fifo || Free(st, g).0.fifo == Without(st.fifo, g)
  {
    hide Without, AllIn;
    var st' := Free(st, g).0;
    if InRegion(st.cfg, E1, g) && IsUsed(st, g) {
      var s := st.free[E1];
      PigeonholeMissing(s, Lo(st.cfg, E1), Hi(st.cfg, E1), g);
      WithoutMembers(st.fifo, g);
      var w := Without(st.fifo, g);
      forall i | 0 <= i < |w| ensures w[i] in st.fifo && w[i] != g { assert w[i] in w; }
      assert forall x :: x in s ==> x in [g] + s;
    }
  }

  lemma WithoutInOrder(fifo: seq<int>, taken: map<int, nat>, clock: nat, g: int)
    requires InOrder(fifo, taken, clock)
    ensures InOrder(Without(fifo, g), taken, clock)
  {
    var k := IndexOf(fifo, g);
    var w := Without(fifo, g);
    forall i | 0 <= i < |w| ensures w[i] == fifo[if i < k then i else i + 1] {}
  }

  lemma DoKeeps(h: Hist, op: Op)
    requires HInv(h) && CanDo(h, op)
    ensures HInv(Do(h, op))
  {
    hide Exact, Alloc, Free, Without;
    match op
    case TakeFrom(r, pid, pte) =>
      TakeKeeps(h.st, r, pid, pte);
      assert forall i :: 0 <= i < |h.st.fifo| ==> h.st.fifo[i] != h.st.free[r][0];
    case GiveBack(g) =>
      GiveKeeps(h.st, g);
      WithoutInOrder(h.st.fifo, h.taken, h.clock, g);
  }

  ghost function DoAll(h: Hist, ops: seq<Op>): (h': Hist)
    requires forall i :: 0 <= i < |ops| ==> Possible(h, ops, i)
    decreases |ops|
  {
    if ops == [] then h
    else
      assert Possible(h, ops, 0);
      if CanDo(h, ops[0]) then
        var h1 := Do(h, ops[0]);
        assert forall i :: 0 <= i < |ops[1..]| ==> Possible(h1, ops[1..], i) by {
          forall i | 0 <= i < |ops[1..]| ensures Possible(h1, ops[1..], i) { assert Possible(h, ops, i + 1); }
        }
        DoAll(h1, ops[1..])
      else h
  }

  /** Operation i of the history can be done when its turn comes. */
  ghost predicate Possible(h: Hist, ops: seq<Op>, i: nat)
    requires i < |ops|
    decreases i
  {
    CanDo(h, ops[0]) && (i > 0 ==> Possible(Do(h, ops[0]), ops[1..], i - 1))
  }

  /** Whatever was taken and freed, in whatever order and also from the middle of the list, the
      frame that evictframe picks is the one that has been in use longest. */
  lemma {:induction false} VictimIsOldest(h: Hist, ops: seq<Op>, g: int)
    requires HInv(h) && forall i :: 0 <= i < |ops| ==> Possible(h, ops, i)
    ensures var h' := DoAll(h, ops);
      && HInv(h')
      && (InRegion(h'.st.cfg, E1, g) && IsUsed(h'.st, g) ==>
            var victim := GetUsedE1(h'.st);
            && victim != SYSERR && g in h'.taken && victim in h'.taken
            && (g == victim || h'.taken[victim] < h'.taken[g]))
    decreases |ops|
  {
    hide Do;
    if ops == [] {
      assert Lists(h.st, h.st.fifo, E1, true);
    } else {
      assert Possible(h, ops, 0);
      DoKeeps(h, ops[0]);
      var h1 := Do(h, ops[0]);
      forall i | 0 <= i < |ops[1..]| ensures Possible(h1, ops[1..], i) { assert Possible(h, ops, i + 1); }
      VictimIsOldest(h1, ops[1..], g);
    }
  }
}
