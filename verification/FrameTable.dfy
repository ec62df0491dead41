/** The in-place frame tables of framemgmt.c: arrays with stack pointers, and the list of used
    E1 frames threaded through the inverted page table. Each method is proved to do to its
    arrays what the function of the same purpose in module Frames does to the value View(). */
module FrameTables {
  import opened Kernel
  import opened Seqs
  import opened Frames

  const NULL := -1

  /** An inverted page table entry with its list links, kept as frame numbers. The table is
      indexed by the frame number itself, where the C array is indexed by INIDX of it. */
  datatype Slot = Slot(ent: Ent, next: int, prev: int)

  ghost function Ents(c: Cfg, slots: seq<Slot>): map<int, Ent>
    requires ValidCfg(c) && |slots| == c.f
  {
    map g | c.d0 <= g < c.f && InTable(c, g) :: slots[g].ent
  }

  /** The links spell out the sequence fifo, in both directions. */
  ghost predicate Chain(c: Cfg, slots: seq<Slot>, fifo: seq<int>, head: int, tail: int) {
    && ValidCfg(c) && |slots| == c.f
    && NoDup(fifo) && AllIn(c, E1, fifo)
    && head == (if fifo == [] then NULL else fifo[0])
    && tail == (if fifo == [] then NULL else fifo[|fifo| - 1])
    && (forall i :: 0 <= i < |fifo| && InTable(c, fifo[i]) ==>
          && slots[fifo[i]].next == (if i + 1 < |fifo| then fifo[i + 1] else NULL)
          && slots[fifo[i]].prev == (if i > 0 then fifo[i - 1] else NULL))
  }

  /** ... and fifo has exactly the used E1 frames. */
  ghost predicate Linked(c: Cfg, slots: seq<Slot>, fifo: seq<int>, head: int, tail: int) {
    Chain(c, slots, fifo, head, tail) && ListsUsed(c, Ents(c, slots), fifo)
  }

  ghost predicate ListsUsed(c: Cfg, ents: map<int, Ent>, fifo: seq<int>) {
    forall g :: InRegion(c, E1, g) && g in ents ==> (ents[g].used <==> g in fifo)
  }

  lemma SetEnt(c: Cfg, slots: seq<Slot>, fifo: seq<int>, head: int, tail: int, g: int, e: Ent)
    requires Chain(c, slots, fifo, head, tail) && InTable(c, g)
    ensures Chain(c, slots[g := slots[g].(ent := e)], fifo, head, tail)
    ensures Ents(c, slots[g := slots[g].(ent := e)]) == Ents(c, slots)[g := e]
  {}

  lemma ChainAt(c: Cfg, slots: seq<Slot>, fifo: seq<int>, head: int, tail: int, i: nat)
    requires ValidCfg(c) && Chain(c, slots, fifo, head, tail) && i < |fifo|
    ensures InTable(c, fifo[i]) && InRegion(c, E1, fifo[i])
    ensures slots[fifo[i]].next == (if i + 1 < |fifo| then fifo[i + 1] else NULL)
    ensures slots[fifo[i]].prev == (if i > 0 then fifo[i - 1] else NULL)
  {}

  /** The table after g is linked in behind `tail`. */
  ghost function Inserted(c: Cfg, slots: seq<Slot>, tail: int, g: int): (s': seq<Slot>)
    requires ValidCfg(c) && |slots| == c.f && InTable(c, g) && (tail == NULL || InTable(c, tail))
    ensures |s'| == |slots|
  {
    var s1 := slots[g := slots[g].(prev := tail, next := NULL)];
    if tail == NULL then s1 else s1[tail := s1[tail].(next := g)]
  }

  /** What Chain says of position i. */
  ghost predicate LinkAt(c: Cfg, slots: seq<Slot>, fifo: seq<int>, i: nat)
    requires ValidCfg(c) && |slots| == c.f && i < |fifo| && InTable(c, fifo[i])
  {
    && slots[fifo[i]].next == (if i + 1 < |fifo| then fifo[i + 1] else NULL)
    && slots[fifo[i]].prev == (if i > 0 then fifo[i - 1] else NULL)
  }

  lemma InsertedAt(c: Cfg, slots: seq<Slot>, fifo: seq<int>, head: int, tail: int, g: int, i: nat)
    requires ValidCfg(c) && Chain(c, slots, fifo, head, tail) && InRegion(c, E1, g) && g !in fifo && i <= |fifo|
    ensures (tail == NULL || InTable(c, tail)) && InTable(c, (fifo + [g])[i])
    ensures LinkAt(c, Inserted(c, slots, tail, g), fifo + [g], i)
  {
    if fifo != [] { ChainAt(c, slots, fifo, head, tail, |fifo| - 1); }
    if i < |fifo| {
      ChainAt(c, slots, fifo, head, tail, i);
      assert fifo[i] != g && (i < |fifo| - 1 ==> fifo[i] != fifo[|fifo| - 1]);
    }
    hide Chain;
  }

  lemma InsertedChain(c: Cfg, slots: seq<Slot>, fifo: seq<int>, head: int, tail: int, g: int)
    requires ValidCfg(c) && Chain(c, slots, fifo, head, tail) && InRegion(c, E1, g) && g !in fifo
    ensures tail == NULL || InTable(c, tail)
    ensures Chain(c, Inserted(c, slots, tail, g), fifo + [g], if head == NULL then g else head, g)
  {
    var f' := fifo + [g];
    InsertedAt(c, slots, fifo, head, tail, g, 0);
    assert NoDup(f') && AllIn(c, E1, f');
    hide Inserted;
    forall i | 0 <= i < |f'| ensures LinkAt(c, Inserted(c, slots, tail, g), f', i) {
      InsertedAt(c, slots, fifo, head, tail, g, i);
    }
  }

  /** The table after g is unlinked. */
  ghost function Removed(c: Cfg, slots: seq<Slot>, g: int): (s': seq<Slot>)
    requires ValidCfg(c) && |slots| == c.f && InTable(c, g)
    requires Inside(c, slots, g)
    ensures |s'| == |slots|
    ensures forall i :: 0 <= i < |slots| ==>
      && s'[i].ent == slots[i].ent
      && s'[i].next == (if i == g then NULL else if i == slots[g].prev then slots[g].next
                        else slots[i].next)
      && s'[i].prev == (if i == g then NULL else if i == slots[g].next then slots[g].prev
                        else slots[i].prev)
  {
    var (p, n) := (slots[g].prev, slots[g].next);
    var s1 := if p == NULL then slots else slots[p := slots[p].(next := n)];
    var s2 := if n == NULL then s1 else s1[n := s1[n].(prev := p)];
    s2[g := s2[g].(next := NULL, prev := NULL)]
  }

  /** The entry for g points to entries of the table. */
  ghost predicate Inside(c: Cfg, slots: seq<Slot>, g: int)
    requires ValidCfg(c) && |slots| == c.f && InTable(c, g)
  {
    var s := slots[g];
    (s.prev == NULL || InTable(c, s.prev)) && (s.next == NULL || InTable(c, s.next))
  }

  lemma RemovedAt(c: Cfg, slots: seq<Slot>, fifo: seq<int>, head: int, tail: int, k: nat, i: nat)
    requires ValidCfg(c) && Chain(c, slots, fifo, head, tail) && k < |fifo| && i < |fifo| - 1
    ensures var g := fifo[k]; InTable(c, g) && Inside(c, slots, g)
    ensures var f' := fifo[..k] + fifo[k + 1..]; InTable(c, f'[i]) && LinkAt(c, Removed(c, slots, fifo[k]), f', i)
  {
    hide Removed, AllIn, InRegion, InTable, NoDup;
    var j := if i < k then i else i + 1;
    ChainAt(c, slots, fifo, head, tail, k);
    ChainAt(c, slots, fifo, head, tail, j);
    if k > 0 { ChainAt(c, slots, fifo, head, tail, k - 1); }
    if k + 1 < |fifo| { ChainAt(c, slots, fifo, head, tail, k + 1); }
    assert NoDup(fifo);
    hide Chain;
    var f' := fifo[..k] + fifo[k + 1..];
    assert f'[i] == fifo[j];
    assert i > 0 ==> f'[i - 1] == fifo[if i - 1 < k then i - 1 else i];
    assert i + 1 < |f'| ==> f'[i + 1] == fifo[if i + 1 < k then i + 1 else i + 2];
    Neighbours(fifo, j, k);
    hide NoDup;
  }

  /** In a duplicate-free list only the two neighbours of k point to k or are pointed to by it. */
  lemma Neighbours(fifo: seq<int>, j: nat, k: nat)
    requires NoDup(fifo) && j < |fifo| && k < |fifo| && j != k
    ensures fifo[j] != fifo[k]
    ensures k > 0 && j != k - 1 ==> fifo[j] != fifo[k - 1]
    ensures k + 1 < |fifo| && j != k + 1 ==> fifo[j] != fifo[k + 1]
  {}

  lemma RemovedEnds(c: Cfg, slots: seq<Slot>, fifo: seq<int>, head: int, tail: int, k: nat)
    requires ValidCfg(c) && Chain(c, slots, fifo, head, tail) && k < |fifo|
    ensures InTable(c, fifo[k]) && Inside(c, slots, fifo[k])
    ensures var (f', g) := (fifo[..k] + fifo[k + 1..], fifo[k]);
      && AllIn(c, E1, f') && NoDup(f')
      && (if head == g then slots[g].next else head) == (if f' == [] then NULL else f'[0])
      && (if tail == g then slots[g].prev else tail) == (if f' == [] then NULL else f'[|f'| - 1])
  {
    ChainAt(c, slots, fifo, head, tail, k);
    if k > 0 { ChainAt(c, slots, fifo, head, tail, k - 1); }
    if k + 1 < |fifo| { ChainAt(c, slots, fifo, head, tail, k + 1); }
    assert k > 0 ==> fifo[0] != fifo[k];
    assert k + 1 < |fifo| ==> fifo[|fifo| - 1] != fifo[k];
  }

  lemma RemovedChainAt(c: Cfg, slots: seq<Slot>, fifo: seq<int>, head: int, tail: int, k: nat)
    requires ValidCfg(c) && Chain(c, slots, fifo, head, tail) && k < |fifo|
    ensures InTable(c, fifo[k]) && Inside(c, slots, fifo[k])
    ensures var (f', g) := (fifo[..k] + fifo[k + 1..], fifo[k]);
      Chain(c, Removed(c, slots, g), f',
            if head == g then slots[g].next else head, if tail == g then slots[g].prev else tail)
  {
    RemovedEnds(c, slots, fifo, head, tail, k);
    var (f', g) := (fifo[..k] + fifo[k + 1..], fifo[k]);
    hide Removed, NoDup, AllIn, Inside;
    forall i | 0 <= i < |f'| && InTable(c, f'[i]) ensures LinkAt(c, Removed(c, slots, g), f', i) {
      RemovedAt(c, slots, fifo, head, tail, k, i);
    }
  }

  lemma RemovedChain(c: Cfg, slots: seq<Slot>, fifo: seq<int>, head: int, tail: int, g: int)
    requires ValidCfg(c) && Chain(c, slots, fifo, head, tail) && InTable(c, g) && g in fifo
    ensures Inside(c, slots, g)
    ensures Chain(c, Removed(c, slots, g), Without(fifo, g),
                  if head == g then slots[g].next else head, if tail == g then slots[g].prev else tail)
    ensures forall x :: x in Without(fifo, g) <==> x in fifo && x != g
    ensures Ents(c, Removed(c, slots, g)) == Ents(c, slots)
  {
    WithoutMembers(fifo, g);
    RemovedChainAt(c, slots, fifo, head, tail, IndexOf(fifo, g));
  }

  lemma AllRegions(m: map<Region, seq<int>>)
    requires D in m && E1 in m && E2 in m
    ensures forall r: Region :: r in m
  {
    forall r: Region ensures r in m { match r case D => case E1 => case E2 => }
  }

  /** The three stacks as one map. */
  ghost function Stacks(d: seq<int>, e1: seq<int>, e2: seq<int>): (m: map<Region, seq<int>>)
    ensures (forall r: Region :: r in m) && m[D] == d && m[E1] == e1 && m[E2] == e2
  {
    var m := map[D := d, E1 := e1, E2 := e2];
    AllRegions(m);
    m
  }

  lemma StacksUpdate(d: seq<int>, e1: seq<int>, e2: seq<int>, x: seq<int>)
    ensures Stacks(d, e1, e2)[D := x] == Stacks(x, e1, e2)
    ensures Stacks(d, e1, e2)[E1 := x] == Stacks(d, x, e2)
    ensures Stacks(d, e1, e2)[E2 := x] == Stacks(d, e1, x)
  {}

  /** One of the loops that set up an index stack. */
  method FillStack(a: array<int>, lo: int)
    modifies a
    ensures a[..] == Ascending(lo, lo + a.Length)
  {
    for i := 0 to a.Length
      invariant forall k :: 0 <= k < i ==> a[k] == lo + k
    {
      a[i] := lo + i;
    }
  }

  /** The loop that frees every inverted page table entry. */
  method FillTable(a: array<Slot>)
    modifies a
    ensures a[..] == seq(a.Length, _ => Slot(Ent(0, false, Unused), NULL, NULL))
  {
    for i := 0 to a.Length
      invariant forall k :: 0 <= k < i ==> a[k] == Slot(Ent(0, false, Unused), NULL, NULL)
    {
      a[i] := Slot(Ent(0, false, Unused), NULL, NULL);
    }
  }

  lemma FreshTable(c: Cfg, slots: seq<Slot>)
    requires ValidCfg(c) && slots == seq(c.f, _ => Slot(Ent(0, false, Unused), NULL, NULL))
    ensures Ents(c, slots) == Boot(c).ent && Linked(c, slots, [], NULL, NULL)
  {}

  lemma AllAscending(c: Cfg)
    requires ValidCfg(c)
    ensures forall r: Region ::
      AllIn(c, r, Stacks(Ascending(c.d0, c.e1), Ascending(c.e1, c.e2), Ascending(c.e2, c.f))[r])
  {}

  class FrameTable {
    const cfg: Cfg
    const invpt: array<Slot>
    const stackD: array<int>
    const stackE1: array<int>
    const stackE2: array<int>
    var spD: nat
    var spE1: nat
    var spE2: nat
    var evicthead: int
    var evicttail: int
    ghost var fifo: seq<int>

    ghost function Footprint(): set<object> { {this, invpt, stackD, stackE1, stackE2} }

    ghost predicate Sized()
      reads this
    {
      && ValidCfg(cfg) && invpt.Length == cfg.f
      && stackD.Length == cfg.e1 - cfg.d0 && stackE1.Length == cfg.e2 - cfg.e1 && stackE2.Length == cfg.f - cfg.e2
      && spD <= stackD.Length && spE1 <= stackE1.Length && spE2 <= stackE2.Length
      && stackD != stackE1 && stackD != stackE2 && stackE1 != stackE2
    }

    ghost function StackMap(): map<Region, seq<int>>
      requires Sized()
      reads this, stackD, stackE1, stackE2
    {
      Stacks(stackD[spD..], stackE1[spE1..], stackE2[spE2..])
    }

    ghost predicate Valid()
      reads Footprint()
    {
      && Sized() && Linked(cfg, invpt[..], fifo, evicthead, evicttail)
      && (forall r: Region :: AllIn(cfg, r, StackMap()[r]))
    }

    ghost function View(): (st: FrameSt)
      requires Valid()
      reads Footprint()
      ensures Shape(st) && st.cfg == cfg
    {
      FrameSt(cfg, Ents(cfg, invpt[..]), StackMap(), fifo)
    }

    /** init_invpt */
    constructor (c: Cfg)
      requires ValidCfg(c)
      ensures Valid() && cfg == c && View() == Boot(c)
      ensures fresh(invpt) && fresh(stackD) && fresh(stackE1) && fresh(stackE2)
    {
      hide InRegion;
      cfg := c;
      invpt := new Slot[c.f];
      stackD := new int[c.e1 - c.d0];
      stackE1 := new int[c.e2 - c.e1];
      stackE2 := new int[c.f - c.e2];
      spD, spE1, spE2 := 0, 0, 0;
      evicthead, evicttail := NULL, NULL;
      fifo := [];
      new;
      FillTable(invpt);
      FillStack(stackD, c.d0);
      FillStack(stackE1, c.e1);
      FillStack(stackE2, c.e2);
      FreshTable(c, invpt[..]);
      AllAscending(c);
      hide Linked, Ents, AllIn, Ascending;
    }

    /** hasfreeframe */
    method HasFreeFrame(r: Region) returns (b: bool)
      requires Valid()
      ensures b == HasFree(View(), r)
    {
      match r
      case D => b := spD < stackD.Length;
      case E1 => b := spE1 < stackE1.Length;
      case E2 => b := spE2 < stackE2.Length;
    }

    /** getfreeframe */
    method GetFreeFrame(r: Region) returns (g: int)
      requires Valid()
      modifies this
      ensures Valid() && (View(), g) == GetFree(old(View()), r)
    {
      hide Linked;
      g := SYSERR;
      ghost var s := old(View()).free[r];
      StacksUpdate(stackD[spD..], stackE1[spE1..], stackE2[spE2..], if s == [] then [] else s[1..]);
      match r {
        case D => if spD != stackD.Length { g := stackD[spD]; spD := spD + 1; assert stackD[spD..] == s[1..]; }
        case E1 => if spE1 != stackE1.Length { g := stackE1[spE1]; spE1 := spE1 + 1; assert stackE1[spE1..] == s[1..]; }
        case E2 => if spE2 != stackE2.Length { g := stackE2[spE2]; spE2 := spE2 + 1; assert stackE2[spE2..] == s[1..]; }
      }
    }

    /** getusedframeE1 */
    method GetUsedFrameE1() returns (g: int)
      requires Valid()
      ensures g == GetUsedE1(View())
    {
      if evicthead == NULL { return SYSERR; }
      g := evicthead;
    }

    /** The entry of frame g. */
    method EntryOf(g: int) returns (e: Ent)
      requires Valid() && InTable(cfg, g)
      ensures e == View().ent[g]
    {
      e := invpt[g].ent;
    }

    /** __insert_to_used_ll */
    method InsertUsed(g: int)
      requires Sized() && Chain(cfg, invpt[..], fifo, evicthead, evicttail)
      requires InRegion(cfg, E1, g) && g !in fifo
      modifies this`evicthead, this`evicttail, this`fifo, invpt
      ensures fifo == old(fifo) + [g] && Chain(cfg, invpt[..], fifo, evicthead, evicttail)
      ensures Ents(cfg, invpt[..]) == old(Ents(cfg, invpt[..]))
    {
      ghost var (s, t) := (invpt[..], evicttail);
      InsertedChain(cfg, s, fifo, evicthead, t, g);
      hide Chain;
      invpt[g] := invpt[g].(prev := evicttail, next := NULL);
      if evicttail != NULL {
        invpt[evicttail] := invpt[evicttail].(next := g);
      }
      evicttail := g;
      if evicthead == NULL {
        evicthead := g;
      }
      fifo := fifo + [g];
      assert invpt[..] == Inserted(cfg, s, t, g);
    }

    /** __remove_from_used_ll */
    method RemoveUsed(g: int)
      requires Sized() && Chain(cfg, invpt[..], fifo, evicthead, evicttail)
      requires InRegion(cfg, E1, g) && g in fifo
      modifies this`evicthead, this`evicttail, this`fifo, invpt
      ensures fifo == Without(old(fifo), g) && Chain(cfg, invpt[..], fifo, evicthead, evicttail)
      ensures forall x :: x in fifo <==> x in old(fifo) && x != g
      ensures Ents(cfg, invpt[..]) == old(Ents(cfg, invpt[..]))
    {
      hide Without, Chain;
      ghost var s := invpt[..];
      RemovedChain(cfg, s, fifo, evicthead, evicttail, g);
      hide Chain, Without;
      var slot := invpt[g];
      ghost var s1 := if slot.prev == NULL then s else s[slot.prev := s[slot.prev].(next := slot.next)];
      ghost var s2 := if slot.next == NULL then s1 else s1[slot.next := s1[slot.next].(prev := slot.prev)];
      assert Removed(cfg, s, g) == s2[g := s2[g].(next := NULL, prev := NULL)];
      hide Removed;
      if slot.prev != NULL {
        invpt[slot.prev] := invpt[slot.prev].(next := slot.next);
      }
      assert invpt[..] == s1;
      if slot.next != NULL {
        invpt[slot.next] := invpt[slot.next].(prev := slot.prev);
      }
      assert invpt[..] == s2;
      if g == evicthead { evicthead := slot.next; }
      if g == evicttail { evicttail := slot.prev; }
      invpt[g] := invpt[g].(next := NULL, prev := NULL);
      fifo := Without(fifo, g);
      assert invpt[..] == Removed(cfg, s, g);
    }

    /** invtakeframe */
    method TakeFrame(g: int, pid: int, pte: PtePtr) returns (ok: bool)
      requires Valid() && InTable(cfg, g)
      modifies this`evicthead, this`evicttail, this`fifo, invpt
      ensures Valid() && (View(), ok) == Take(old(View()), g, pid, pte)
    {
      hide Chain, FrameTable.Footprint, AllIn, Hi;
      if g < 0 || g >= cfg.limit { return false; }
      if invpt[g].ent.used { return false; }
      SetEnt(cfg, invpt[..], fifo, evicthead, evicttail, g, Ent(pid, true, pte));
      ghost var s := invpt[..];
      hide Chain;
      invpt[g] := invpt[g].(ent := Ent(pid, true, pte));
      assert invpt[..] == s[g := s[g].(ent := Ent(pid, true, pte))];
      if RegionOf(cfg, g) == E1 { InsertUsed(g); }
      assert StackMap() == old(StackMap());
      return true;
    }

    /** getfreeframe followed by invtakeframe, whose result no caller in pgfutil.c looks at. */
    method AllocFrame(r: Region, pid: int, pte: PtePtr) returns (g: int)
      requires Valid()
      modifies Footprint()
      ensures Valid() && (View(), g) == Alloc(old(View()), r, pid, pte)
    {
      hide FrameTable.Valid, FrameTable.View, Take;
      g := GetFreeFrame(r);
      if g == SYSERR { return; }
      var _ := TakeFrame(g, pid, pte);
    }

    /** The push of invfreeframe on the stack of region r. */
    method Push(r: Region, g: int) returns (ok: bool)
      requires Sized() && InRegion(cfg, r, g)
      modifies this`spD, this`spE1, this`spE2, stackD, stackE1, stackE2
      ensures Sized() && ok == (|old(StackMap())[r]| < Hi(cfg, r) - Lo(cfg, r))
      ensures StackMap() == if ok then old(StackMap())[r := [g] + old(StackMap())[r]] else old(StackMap())
    {
      ghost var (d, e1, e2) := (stackD[spD..], stackE1[spE1..], stackE2[spE2..]);
      StacksUpdate(d, e1, e2, [g] + StackMap()[r]);
      match r {
        case D =>
          if spD == 0 { return false; }
          spD := spD - 1;
          stackD[spD] := g;
          assert stackD[spD..] == [g] + d;
        case E1 =>
          if spE1 == 0 { return false; }
          spE1 := spE1 - 1;
          stackE1[spE1] := g;
          assert stackE1[spE1..] == [g] + e1;
        case E2 =>
          if spE2 == 0 { return false; }
          spE2 := spE2 - 1;
          stackE2[spE2] := g;
          assert stackE2[spE2..] == [g] + e2;
      }
      return true;
    }

    /** invfreeframe */
    method FreeFrame(g: int) returns (ok: bool)
      requires Valid() && InTable(cfg, g)
      modifies Footprint()
      ensures Valid() && (View(), ok) == Free(old(View()), g)
    {
      hide Chain, Shape, InRegion, NoDup, Linked, Stacks, Without, ListsUsed;
      if !invpt[g].ent.used { return true; }
      var r := RegionOf(cfg, g);
      hide Linked, Stacks, Without;
      ghost var st := View();
      ok := Push(r, g);
      if !ok { return; }
      ghost var m := StackMap();
      assert forall q: Region :: AllIn(cfg, q, m[q]) by { assert AllIn(cfg, r, st.free[r]); }
      Unuse(g);
      assert StackMap() == m;
    }

    /** The rest of invfreeframe, once the frame is on its stack. */
    method Unuse(g: int)
      requires Sized() && Linked(cfg, invpt[..], fifo, evicthead, evicttail)
      requires InTable(cfg, g) && invpt[g].ent.used
      modifies this`evicthead, this`evicttail, this`fifo, invpt
      ensures Linked(cfg, invpt[..], fifo, evicthead, evicttail)
      ensures Ents(cfg, invpt[..]) == old(Ents(cfg, invpt[..]))[g := old(invpt[g].ent).(used := false)]
      ensures fifo == if InRegion(cfg, E1, g) then Without(old(fifo), g) else old(fifo)
    {
      hide Chain, Without;
      if RegionOf(cfg, g) == E1 { RemoveUsed(g); }
      assert invpt[g].ent == Ents(cfg, invpt[..])[g];
      var e := invpt[g].ent.(used := false);
      SetEnt(cfg, invpt[..], fifo, evicthead, evicttail, g, e);
      ghost var s := invpt[..];
      invpt[g] := invpt[g].(ent := e);
      assert invpt[..] == s[g := s[g].(ent := e)];
    }
  }
}
