/** The pager in place: the code of pgfutil.c, pgfhandler.c, and the paging parts of
    vmhfreemem.c and kill.c over arrays and tables that it updates. Each method is proved to take
    View() where the function of module Pager or PagerMachine takes it. */
module PagerImpl {
  import opened Kernel
  import opened Bytes
  import opened Frames
  import opened Pager
  import opened PagerInv
  import opened PagerMachine
  import opened PagerCount
  import opened FrameTables
  import opened BlockQueues

  class Machine {
    const frames: FrameTable
    const queue: BlockQueue
    const memory: array<byte>
    const temp: array<byte>
    var pt: map<int, seq<Pte>>
    var pd: map<int, seq<Pde>>
    var procs: map<int, Proc>
    var currpid: int
    var readied: seq<int>         // what ready() was called on, in order
    var pgfaddr: int              // the page of the latest fault
    var refcnt: Refs              // fr_refcnt of the frames of region D
    ghost var pend: map<int, int> // the processes inside the handler's loop, with their own pages
    ghost var blocked: set<int>   // those of them in state PR_FRAME

    ghost function Footprint(): set<object> {
      frames.Footprint() + {this, memory, temp}
    }

    ghost predicate Separate()
      reads this
    {
      && temp.Length == NBPG && memory != temp
      && frames !in {this as object, memory, temp}
      && this !in frames.Footprint() && memory !in frames.Footprint() && temp !in frames.Footprint()
    }

    ghost predicate Valid()
      reads this, frames.Footprint(), memory
    {
      Separate() && frames.Valid() && WF(Now())
    }

    ghost function Now(): Pg
      requires frames.Valid()
      reads this, frames.Footprint(), memory
    {
      Pg(frames.View(), memory[..], pt, pd, procs)
    }

    constructor (c: Cfg, nproc: nat)
      requires ValidCfg(c) && nproc > 0
      ensures Valid() && Now().fr == Boot(c) && procs == map[] && queue.Valid() && queue.Contents() == []
        && refcnt == Zero(c)
    {
      hide Linked, Ents, Stacks, AllIn, Boot, WF, Shape, BlockQueue.Contents, BlockQueue.Valid, PdIdx;
      frames := new FrameTable(c);
      queue := new BlockQueue(nproc);
      memory := new byte[c.f * NBPG];
      temp := new byte[NBPG];
      pt, pd, procs := map[], map[], map[];
      currpid, readied, pend, blocked, pgfaddr, refcnt := 0, [], map[], {}, -c.f, Zero(c);
      new;
      WfEmpty(Now());
    }

    /** The byte-copy loop shared by restoreframe and evictframe. */
    method CopyFrame(src: int, dest: int)
      requires 0 <= src && (src + 1) * NBPG <= memory.Length && 0 <= dest && (dest + 1) * NBPG <= memory.Length
      modifies memory
      ensures memory[..] == SetBlock(old(memory[..]), NBPG, dest, Block(old(memory[..]), NBPG, src))
    {
      ghost var m := memory[..];
      for i := 0 to NBPG
        invariant forall k :: 0 <= k < memory.Length && !(dest * NBPG <= k < dest * NBPG + i) ==> memory[k] == m[k]
        invariant forall k :: dest * NBPG <= k < dest * NBPG + i ==> memory[k] == m[k - dest * NBPG + src * NBPG]
      {
        memory[dest * NBPG + i] := memory[src * NBPG + i];
      }
      CopiedBlock(m, memory[..], src, dest);
    }

    method CopyTo(src: int, dest: int)
      requires Valid() && 0 <= src < frames.cfg.f && 0 <= dest < frames.cfg.f
      modifies memory
      ensures Valid() && Now() == SetFrame(old(Now()), dest, FrameBytes(old(Now()), src))
    {
      hide FrameTable.Valid, FrameTable.View, Block, SetBlock;
      CopyFrame(src, dest);
    }

    method FreeTo(g: int)
      requires Valid() && InTable(frames.cfg, g)
      modifies frames.Footprint()
      ensures Valid() && Now() == SetFrames(old(Now()), Free(old(Now()).fr, g).0)
    {
      hide FrameTable.Valid, FrameTable.View, Free;
      var _ := frames.FreeFrame(g);
    }

    method AllocTo(r: Region, pid: int, pte: PtePtr) returns (g: int)
      requires Valid()
      modifies frames.Footprint()
      ensures Valid() && g == Alloc(old(Now()).fr, r, pid, pte).1
      ensures Now() == SetFrames(old(Now()), Alloc(old(Now()).fr, r, pid, pte).0)
    {
      hide FrameTable.Valid, FrameTable.View, Alloc;
      g := frames.AllocFrame(r, pid, pte);
    }

    /** mapfreeframe for heap page v of the current process. */
    method MapFreeFrame(v: int) returns (g: int)
      requires Valid() && HasPt(Now(), currpid, v)
      modifies frames.Footprint(), this`pt
      ensures Valid() && Now() == MapFree(old(Now()), currpid, v).0 && g == MapFree(old(Now()), currpid, v).1
    {
      hide FrameTable.Valid, FrameTable.View, Alloc;
      var table := pd[procs[currpid].pd][PdIdx(frames.cfg, v)].base;
      var idx := PtIdx(frames.cfg, v);
      g := AllocTo(E1, currpid, At(table, idx));
      if g != SYSERR { pt := pt[table := pt[table][idx := Pte(true, true, false, g)]]; }
    }

    /** restoreframe */
    method RestoreFrame(v: int) returns (ok: bool)
      requires Valid() && HasPt(Now(), currpid, v) && InTable(frames.cfg, PteOf(Now(), currpid, v).base)
      modifies frames.Footprint(), this`pt, memory
      ensures Valid() && Now() == Restore(old(Now()), currpid, v).0 && ok == Restore(old(Now()), currpid, v).1
    {
      hide FrameTable.Valid, FrameTable.View, MapFree, Free, Block, SetBlock;
      var src := BaseOf(v);
      var dest := MapFreeFrame(v);
      if dest == SYSERR { return false; }
      CopyTo(src, dest);
      FreeTo(src);
      return true;
    }

    /** The update of the entry that p points to, if it points to one. */
    method WriteEntry(p: PtePtr, e: Pte)
      requires Valid()
      modifies this`pt
      ensures Valid() && Now() == if Points(old(Now()), p) then SetPte(old(Now()), p, e) else old(Now())
    {
      hide FrameTable.Valid, FrameTable.View;
      if p.At? && p.table in pt && 0 <= p.idx < |pt[p.table]| {
        pt := pt[p.table := pt[p.table][p.idx := e]];
      }
    }

    /** evictframe */
    method EvictFrame() returns (ok: bool)
      requires Valid()
      modifies frames.Footprint(), this`pt, memory
      ensures Valid() && Now() == Evict(old(Now())).0 && ok == Evict(old(Now())).1
    {
      hide FrameTable.Valid, FrameTable.View, Alloc, Free, Block, SetBlock, WF;
      var victim := frames.GetUsedFrameE1();
      if victim == SYSERR { return false; }
      var e := frames.EntryOf(victim);
      var dest := AllocTo(E2, e.pid, e.pte);
      if dest == SYSERR { return false; }
      CopyTo(victim, dest);
      WriteEntry(e.pte, Pte(false, false, true, dest));
      FreeTo(victim);
      return true;
    }

    /** The first and the last copy loop of swapframe. */
    method SaveFrame(g: int)
      requires Valid() && 0 <= g < frames.cfg.f
      modifies temp
      ensures temp[..] == Block(memory[..], NBPG, g)
    {
      for i := 0 to NBPG
        invariant forall k :: 0 <= k < i ==> temp[k] == memory[k + g * NBPG]
      {
        temp[i] := memory[g * NBPG + i];
      }
    }

    method LoadFrame(g: int)
      requires Valid() && 0 <= g < frames.cfg.f
      modifies memory
      ensures Valid() && Now() == SetFrame(old(Now()), g, temp[..])
    {
      hide FrameTable.StackMap, InHeap;
      ghost var m := memory[..];
      for i := 0 to NBPG
        invariant forall k :: 0 <= k < memory.Length && !(g * NBPG <= k < g * NBPG + i) ==> memory[k] == m[k]
        invariant forall k :: g * NBPG <= k < g * NBPG + i ==> memory[k] == temp[k - g * NBPG]
      {
        memory[g * NBPG + i] := temp[i];
      }
      assert memory[..] == SetBlock(m, NBPG, g, temp[..]);
    }

    /** swapframe. Where mapfreeframe fails the C goes on and copies to frame SYSERR. */
    method SwapFrame(v: int) returns (ok: bool)
      requires Valid() && HasPt(Now(), currpid, v) && InTable(frames.cfg, PteOf(Now(), currpid, v).base)
      modifies frames.Footprint(), this`pt, memory, temp
      ensures Valid() && Now() == Swap(old(Now()), currpid, v).0 && ok == Swap(old(Now()), currpid, v).1
    {
      hide FrameTable.Valid, FrameTable.View, SwapIn, Free, Evict, Block, WF, PteOf;
      var src := BaseOf(v);
      SaveFrame(src);
      FreeTo(src);
      var _ := EvictFrame();
      ok := SwapInto(v);
    }

    /** The end of swapframe: the page gets the frame and the bytes that have been saved. */
    method SwapInto(v: int) returns (ok: bool)
      requires Valid() && HasPt(Now(), currpid, v)
      modifies frames.Footprint(), this`pt, memory
      ensures Valid() && Now() == SwapIn(old(Now()), currpid, v, temp[..]).0
      ensures ok == SwapIn(old(Now()), currpid, v, temp[..]).1
    {
      hide FrameTable.Valid, FrameTable.View, MapFree, Block, SetBlock, WF;
      var g := MapFreeFrame(v);
      if g == SYSERR { return false; }
      LoadFrame(g);
      return true;
    }

    /** The frame number in the entry of page v, as getpte finds it. */
    method BaseOf(v: int) returns (g: int)
      requires Valid() && HasPt(Now(), currpid, v)
      ensures g == PteOf(Now(), currpid, v).base
    {
      g := pt[pd[procs[currpid].pd][PdIdx(frames.cfg, v)].base][PtIdx(frames.cfg, v)].base;
    }

    /** The scenarios of pgfhandler for a page whose old frame is in E2. */
    method Fetch(v: int) returns (ok: bool)
      requires Valid() && HasPt(Now(), currpid, v) && InTable(frames.cfg, PteOf(Now(), currpid, v).base)
      modifies frames.Footprint(), this`pt, memory, temp
      ensures Valid() && Now() == FetchPage(old(Now()), currpid, v).0 && ok == FetchPage(old(Now()), currpid, v).1
    {
      hide FrameTable.Valid, FrameTable.View, Restore, Evict, Swap, WF, Shape, HasFree, PteOf, FrameTable.StackMap;
      var e1free := frames.HasFreeFrame(E1);
      var e2free := frames.HasFreeFrame(E2);
      if !e1free && !e2free {
        ok := SwapFrame(v);
      } else if !e1free {
        var _ := EvictFrame();
        var base := BaseOf(v);
        if !(frames.cfg.d0 <= base < frames.cfg.f) { return false; }
        ok := RestoreFrame(v);
      } else {
        ok := RestoreFrame(v);
      }
    }

    /** The scenarios for a page without a frame, once there is room. */
    method Fresh(v: int) returns (g: int)
      requires Valid() && HasPt(Now(), currpid, v)
      modifies frames.Footprint(), this`pt, memory
      ensures Valid() && Now() == FreshPage(old(Now()), currpid, v).0 && g == FreshPage(old(Now()), currpid, v).1
    {
      hide FrameTable.Valid, FrameTable.View, MapFree, Evict, WF;
      var e1free := frames.HasFreeFrame(E1);
      if !e1free { var _ := EvictFrame(); }
      g := MapFreeFrame(v);
    }

    /** __pde_inv_check with newpt; false stands for the panic. */
    method PdeInvCheck(v: int) returns (ok: bool)
      requires Valid() && currpid in procs && InHeap(frames.cfg, v)
      modifies frames.Footprint(), this`pt, this`pd
      ensures Valid() && Now() == EnsurePt(old(Now()), currpid, v).0 && ok == EnsurePt(old(Now()), currpid, v).1
    {
      hide FrameTable.Valid, FrameTable.View, TakeD;
      WfProc(Now(), currpid);
      var d := procs[currpid].pd;
      if pd[d][PdIdx(frames.cfg, v)].pres { return true; }
      var g := TakeFrameD(currpid);
      if g == SYSERR { return false; }
      pt := pt[g := seq(NENTRIES, _ => ABSENT_PTE)];
      pd := pd[d := pd[d][PdIdx(frames.cfg, v) := Pde(true, true, g)]];
      return true;
    }

    /** The first half of newpt and of newpd. */
    method TakeFrameD(pid: int) returns (g: int)
      requires Valid()
      modifies frames.Footprint()
      ensures Valid() && g == TakeD(old(Now()).fr, pid).1
      ensures Now() == SetFrames(old(Now()), TakeD(old(Now()).fr, pid).0)
    {
      hide FrameTable.Valid, FrameTable.View, Take;
      g := frames.GetFreeFrame(D);
      if g == SYSERR { return; }
      var ok := frames.TakeFrame(g, pid, Unused);
      if !ok { g := SYSERR; }
    }

    /** fr_refcnt of the page table at base goes up or down by one. */
    method Count(base: int, n: int)
      modifies this`refcnt
      ensures refcnt == Add(old(refcnt), base, n)
    {
      if base in refcnt { refcnt := refcnt[base := refcnt[base] + n]; }
    }

    /** The loop of __set_pages_deallocated. */
    method SetPagesDeallocated(v: int, n: nat, skip: bool)
      requires Valid() && n > 0 && forall w :: v <= w < v + n ==> HasPt(Now(), currpid, w)
      modifies frames.Footprint(), this`pt, this`procs, this`refcnt
      ensures Valid() && Now() == ReleasePages(old(Now()), currpid, v, n, skip)
      ensures HasPt(old(Now()), currpid, v) && refcnt
        == TakenOff(old(refcnt), old(Now()), currpid, v, if skip then v + 1 else v, if skip then n - 1 else n)
    {
      hide FrameTable.Valid, FrameTable.View, UnmapPages, WF, HasPt, TakenOff, Turning, Machine.Separate;
      ghost var s, rc := Now(), refcnt;
      ghost var a := if skip then v + 1 else v;
      ghost var target := ReleasePages(s, currpid, v, n, skip);
      TurnStart(s, currpid, v, v + n, skip, rc);
      var i := 0;
      while i < n
        invariant 0 <= i <= n && Valid() && currpid == old(currpid)
        invariant Turning(s, Now(), currpid, v, a, if i == 0 then a else v + i, v + n, target, rc, refcnt)
      {
        if i == 0 && skip {
        } else {
          DeallocateNext(v + i, s, v, a, v + n, rc, target);
        }
        i := i + 1;
      }
      TurnEnd(s, Now(), currpid, v, a, v + n, target, rc, refcnt);
    }

    /** Its body for one page, when those from a on before it have been taken off. */
    method DeallocateNext(w: int, ghost s: Pg, ghost v: int, ghost a: int, ghost e: int, ghost rc: Refs,
      ghost target: Pg)
      requires Valid() && WF(s) && w < e && Turning(s, Now(), currpid, v, a, w, e, target, rc, refcnt)
      modifies frames.Footprint(), this`pt, this`procs, this`refcnt
      ensures Valid() && Turning(s, Now(), currpid, v, a, w + 1, e, target, rc, refcnt)
    {
      hide FrameTable.Valid, FrameTable.View, UnmapPage, WF, HasPt, Turning, Mapped, PdeOf, Add;
      TurnNext(s, Now(), currpid, v, a, w, e, target, rc, refcnt);
      Deallocate(w);
    }

    /** Its body for one page. */
    method Deallocate(v: int)
      requires Valid() && HasPt(Now(), currpid, v)
      modifies frames.Footprint(), this`pt, this`procs, this`refcnt
      ensures Valid() && Now() == UnmapPage(old(Now()), currpid, v)
      ensures refcnt == if Mapped(old(Now()), currpid, v) then Add(old(refcnt), PdeOf(old(Now()), currpid, v).base, -1)
      else old(refcnt)
    {
      hide FrameTable.Valid, FrameTable.View, WF, HasPt, Add, PdeOf, UnmapPage, Mapped;
      var table := TableAt(v);
      var mapped := Unmap(v);
      if mapped { Count(table, -1); }
    }

    /** The marks, the entry and the frame. */
    method Unmap(v: int) returns (mapped: bool)
      requires Valid() && HasPt(Now(), currpid, v)
      modifies frames.Footprint(), this`pt, this`procs
      ensures Valid() && Now() == UnmapPage(old(Now()), currpid, v) && (mapped <==> Mapped(old(Now()), currpid, v))
    {
      hide FrameTable.Valid, FrameTable.View, Free, ValidCfg, WF, PteOf, PteRef, HasPt, SetPte;
      SamePte(Now(), currpid, v);
      procs := procs[currpid := procs[currpid].(alloc := procs[currpid].alloc[v := false])];
      assert Now() == SetAlloc(old(Now()), currpid, v, false);
      var base;
      mapped, base := ClearEntry(v);
      if mapped && frames.cfg.d0 <= base < frames.cfg.f { FreeTo(base); }
    }

    /** The frame in the directory entry for page v, as getpde finds it. */
    method TableAt(v: int) returns (b: int)
      requires Valid() && HasPt(Now(), currpid, v)
      ensures b == PdeOf(Now(), currpid, v).base
    {
      b := pd[procs[currpid].pd][PdIdx(frames.cfg, v)].base;
    }

    /** The page's entry is made absent; returns whether it named a frame, and which. */
    method ClearEntry(v: int) returns (mapped: bool, base: int)
      requires Valid() && HasPt(Now(), currpid, v)
      modifies this`pt
      ensures Valid()
      ensures var e := PteOf(old(Now()), currpid, v);
        && base == e.base && (mapped <==> e.pres || e.swap)
        && Now() == if mapped
                    then SetPte(old(Now()), PteRef(old(Now()), currpid, v), e.(pres := false, swap := false))
                    else old(Now())
    {
      hide FrameTable.Valid, FrameTable.View, ValidCfg;
      var table := pd[procs[currpid].pd][PdIdx(frames.cfg, v)].base;
      var i := PtIdx(frames.cfg, v);
      var e := pt[table][i];
      mapped, base := e.pres || e.swap, e.base;
      if mapped { pt := pt[table := pt[table][i := e.(pres := false, swap := false)]]; }
    }

    /** The loop of kill over the inverted page table. */
    method FreeFramesOf(pid: int)
      requires Valid()
      modifies frames.Footprint()
      ensures Valid() && Now() == SetFrames(old(Now()), FreeOwned(old(Now()).fr, pid, frames.cfg.d0))
    {
      hide FrameTable.Valid, FrameTable.View, Free, WF;
      ghost var fr := frames.View();
      var g := frames.cfg.d0;
      while g < frames.cfg.f
        invariant frames.cfg.d0 <= g <= frames.cfg.f && Valid()
        invariant FreeOwned(Now().fr, pid, g) == FreeOwned(fr, pid, frames.cfg.d0)
        invariant Now() == SetFrames(old(Now()), Now().fr)
      {
        FreeIfOwned(pid, g);
        g := g + 1;
      }
    }

    /** One turn of the loop: the frame is freed if it is the process's. */
    method FreeIfOwned(pid: int, g: int)
      requires Valid() && InTable(frames.cfg, g)
      modifies frames.Footprint()
      ensures Valid() && Now() == SetFrames(old(Now()), Now().fr)
      ensures FreeOwned(Now().fr, pid, g + 1) == FreeOwned(old(Now()).fr, pid, g)
    {
      hide FrameTable.Valid, FrameTable.View, Free, WF;
      var e := frames.EntryOf(g);
      if e.pid == pid && e.used { FreeTo(g); }
    }

    /** The loop of newpd: the entries that all processes share, and absent ones. */
    method FilledDir() returns (dir: seq<Pde>)
      requires Valid()
      ensures |dir| == NENTRIES && dir == NewDir(frames.cfg)
    {
      dir := seq(NENTRIES, _ => ABSENT_PDE);
      for k := 0 to 4
        invariant |dir| == NENTRIES
        invariant forall j :: 0 <= j < NENTRIES ==>
                    dir[j] == if j < k then Pde(true, false, frames.cfg.shared[j]) else ABSENT_PDE
      {
        dir := dir[k := Pde(true, false, frames.cfg.shared[k])];
      }
      dir := dir[REGION_G_PD := Pde(true, false, frames.cfg.shared[4])];
    }

    /** newpd, with the process table entry that create fills in; false stands for SYSERR. */
    method NewPd(pid: int) returns (ok: bool)
      requires Valid()
      modifies frames.Footprint(), this`pd, this`procs
      ensures Valid() && Now() == Spawn(old(Now()), pid).0 && ok == Spawn(old(Now()), pid).1
    {
      hide FrameTable.Valid, FrameTable.View, TakeD, SharesTables, NewDir;
      var g := TakeFrameD(pid);
      if g == SYSERR { return false; }
      var dir := FilledDir();
      pd := pd[g := dir];
      procs := procs[pid := Proc(g, seq(frames.cfg.heap, _ => false))];
      assert Now() == Spawn(old(Now()), pid).0;
      return true;
    }

    // ---- the machine of module PagerMachine ----

    ghost predicate Ready()
      reads this, frames.Footprint(), memory, queue, queue.fbqueue
    {
      && Valid() && queue.Valid() && queue !in Footprint() && queue.fbqueue !in Footprint()
    }

    ghost function State(): M
      requires Ready()
      reads this, frames.Footprint(), memory, queue, queue.fbqueue
    {
      M(Now(), pend, blocked, queue.Contents(), queue.fbqueue.Length, pgfaddr)
    }

    lemma StateIs()
      requires Ready()
      ensures WF(State().pg) && State().pg == Now() && State().addr == pgfaddr
    {}

    /** framewakeup: as long as E1 or E2 has a free frame, the waiting processes are made ready in
        the order in which they came. */
    method FrameWakeup()
      requires Ready() && forall i :: 0 <= i < |queue.Contents()| ==> queue.Contents()[i] != SYSERR
      modifies this`readied, this`blocked, queue
      ensures Ready() && State() == Wake(old(State()))
      ensures readied == old(readied) + if HasRoom(Now()) then old(queue.Contents()) else []
    {
      hide FrameTable.Valid, FrameTable.View, WF;
      var woken := WakeLoop(frames, queue);
      readied := readied + woken;
      blocked := blocked - set q | q in woken;
    }

    ghost predicate PidsWait()
      requires queue.Valid()
      reads queue, queue.fbqueue
    {
      forall i :: 0 <= i < |queue.Contents()| ==> queue.Contents()[i] != SYSERR
    }

    /** kill as far as frames and their waiters go. */
    method KillFrames(pid: int)
      requires Ready() && PidsWait()
      modifies frames.Footprint(), this`procs, this`pend, this`blocked, this`readied, queue
      ensures Ready() && State() == KillProc(old(State()), pid)
    {
      hide FrameTable.Valid, FrameTable.View, FreeOwned, WF, Wake, Shape;
      FreeFramesOf(pid);
      procs := procs - {pid};
      pend, blocked := pend - {pid}, blocked - {pid};
      assert Now() == Reap(old(Now()), pid);
      FrameWakeup();
    }

    /** The way out of the loop of pgfhandler: mapfreeframe reads the address again. */
    method FreshDone()
      requires Ready() && HasPt(Now(), currpid, pgfaddr)
      modifies frames.Footprint(), this`pt, this`pend, this`refcnt, memory
      ensures Ready()
      ensures HasPt(old(State()).pg, currpid, pgfaddr)
      ensures State()
        == old(State()).(pg := FreshPage(old(State()).pg, currpid, pgfaddr).0, pend := old(State()).pend - {currpid})
      ensures refcnt == Add(old(refcnt), PdeOf(old(State()).pg, currpid, pgfaddr).base, 1)
    {
      hide FrameTable.Valid, FrameTable.View, BlockQueue.Contents, BlockQueue.Valid, WF, FreshPage, HasPt, Add, PdeOf;
      var table := TableAt(pgfaddr);
      var _ := Fresh(pgfaddr);
      Leave(table);
    }

    /** The page is counted, and the process is out of the loop. */
    method Leave(table: int)
      requires Ready()
      modifies this`pend, this`refcnt
      ensures Ready() && State() == old(State()).(pend := old(State()).pend - {currpid})
      ensures refcnt == Add(old(refcnt), table, 1)
    {
      hide FrameTable.Valid, FrameTable.View, BlockQueue.Contents, BlockQueue.Valid, WF, Add;
      pend := pend - {currpid};
      Count(table, 1);
    }

    /** The test of the loop of pgfhandler. */
    method NoRoom() returns (b: bool)
      requires Valid()
      ensures b == !HasRoom(Now())
    {
      var e1free := frames.HasFreeFrame(E1);
      var e2free := frames.HasFreeFrame(E2);
      b := !e1free && !e2free;
    }

    /** One turn of the loop of pgfhandler for a page without a frame: frameblock, or a frame. */
    method BlockOrMap() returns (blocks: bool)
      requires Ready() && HasPt(Now(), currpid, pgfaddr)
      modifies frames.Footprint(), this`pt, this`pend, this`blocked, this`refcnt, memory, queue, queue.fbqueue
      ensures Ready() && State() == Loop(old(State()), currpid)
      ensures blocks == !old(HasRoom(Now()))
      ensures HasPt(old(State()).pg, currpid, pgfaddr) && refcnt == LoopCounts(old(refcnt), old(State()), currpid)
    {
      hide FrameTable.Valid, FrameTable.View, BlockQueue.Contents, BlockQueue.Valid, HasPt, WF, FreshPage, HasRoom,
        Machine.State, Add, PdeOf, Machine.Now;
      StateIs();
      blocks := NoRoom();
      if blocks {
        FrameBlock();
      } else {
        FreshDone();
      }
    }

    /** frameblock, called from the handler: also where the ring is full. */
    method FrameBlock()
      requires Ready()
      modifies this`pend, this`blocked, queue, queue.fbqueue
      ensures Ready() && State() == Park(old(State()), currpid)
    {
      hide FrameTable.Valid, FrameTable.View, WF, BlockQueue.Contents;
      queue.Insert(currpid);
      pend := if currpid in pend then pend else pend[currpid := pgfaddr];
      blocked := blocked + {currpid};
    }

    /** The dispatcher keeps the address for everybody. */
    method StoreAddr(v: int)
      requires Ready()
      modifies this`pgfaddr
      ensures Ready() && State() == old(State()).(addr := v) && Now() == old(Now()) && pgfaddr == v
      ensures old(PidsWait()) ==> PidsWait()
    {
      hide WF;
      pgfaddr := v;
      assert Now() == old(Now());
    }

    /** pgfdisp and pgfhandler up to the point where it returns or blocks; a page outside the allocated
        ones kills the process, and `panicked` stands for the panic when region D is exhausted. */
    method PgfHandler(v: int) returns (panicked: bool)
      requires Ready() && PidsWait() && currpid in procs && InHeap(frames.cfg, v)
      modifies frames.Footprint(), this`pt, this`pd, this`procs, this`pend, this`blocked, this`readied, this`pgfaddr,
        this`refcnt, memory, temp, queue, queue.fbqueue
      ensures Ready() && (!panicked ==> State() == Handle(old(State()), currpid, v))
      ensures !panicked ==> refcnt == HandleCounts(old(refcnt), old(State()), currpid, v)
      ensures panicked <==>
        0 <= v < |old(procs)[currpid].alloc| && old(procs)[currpid].alloc[v] && !EnsurePt(old(Now()), currpid, v).1
    {
      hide FrameTable.Valid, FrameTable.View, WF, Scenarios, KillProc, Machine.Separate;
      WfProc(Now(), currpid);
      StoreAddr(v);
      if !procs[currpid].alloc[pgfaddr] {
        KillFrames(currpid);
        return false;
      }
      var ok := PdeInvCheck(pgfaddr);
      if !ok { return true; }
      MapOrFetch();
      return false;
    }

    /** The scenarios, once the page table is there. */
    method MapOrFetch()
      requires Ready() && HasPt(Now(), currpid, pgfaddr)
      modifies frames.Footprint(), this`pt, this`pend, this`blocked, this`refcnt, memory, temp, queue, queue.fbqueue
      ensures Ready() && State() == Scenarios(old(State()), currpid)
      ensures HasPt(old(State()).pg, currpid, pgfaddr)
        && refcnt == ScenarioCounts(old(refcnt), old(State()), currpid)
    {
      hide FrameTable.Valid, FrameTable.View, WF, FetchPage, Loop, Machine.Separate, InHeap, PdeOf, HasRoom,
        BlockQueue.Contents;
      var swapped := IsSwapped(pgfaddr);
      if !swapped {
        var _ := BlockOrMap();
      } else {
        var base := BaseOf(pgfaddr);
        if frames.cfg.d0 <= base < frames.cfg.f { var _ := Fetch(pgfaddr); }
      }
    }

    method IsSwapped(v: int) returns (b: bool)
      requires Valid() && HasPt(Now(), currpid, v)
      ensures b == PteOf(Now(), currpid, v).swap
    {
      b := pt[pd[procs[currpid].pd][PdIdx(frames.cfg, v)].base][PtIdx(frames.cfg, v)].swap;
    }
  }

  /** The loop of framewakeup. */
  method WakeLoop(frames: FrameTable, queue: BlockQueue) returns (woken: seq<int>)
    requires frames.Valid() && queue.Valid() && queue !in frames.Footprint()
    requires forall i :: 0 <= i < |queue.Contents()| ==> queue.Contents()[i] != SYSERR
    modifies queue
    ensures queue.Valid()
    ensures if HasFree(frames.View(), E1) || HasFree(frames.View(), E2)
            then woken == old(queue.Contents()) && queue.Contents() == []
            else woken == [] && queue.Contents() == old(queue.Contents())
  {
    hide FrameTable.Valid, FrameTable.View, BlockQueue.Contents, Shape, ValidCfg;
    ghost var waiting := queue.Contents();
    woken := [];
    while true
      invariant queue.Valid() && frames.Valid() && frames.View() == old(frames.View())
      invariant |woken| <= |waiting| && woken == waiting[..|woken|] && queue.Contents() == waiting[|woken|..]
      invariant !HasFree(frames.View(), E1) && !HasFree(frames.View(), E2) ==> woken == []
      decreases |waiting| - |woken|
    {
      var e1free := frames.HasFreeFrame(E1);
      var e2free := frames.HasFreeFrame(E2);
      if !e1free && !e2free { break; }
      var pid := queue.Dequeue();
      if pid == SYSERR { break; }
      woken := woken + [pid];
    }
  }

  /** The mark of a page has nothing to do with its entry. */
  lemma SamePte(s: Pg, pid: int, v: int)
    requires WF(s) && HasPt(s, pid, v)
    ensures InHeap(s.fr.cfg, v) && pid in s.procs && |s.procs[pid].alloc| == s.fr.cfg.heap && v < s.fr.cfg.heap
    ensures var s1 := SetAlloc(s, pid, v, false);
      HasPt(s1, pid, v) && PteRef(s1, pid, v) == PteRef(s, pid, v) && PteOf(s1, pid, v) == PteOf(s, pid, v)
  {}

  lemma CopiedBlock(m: seq<byte>, m1: seq<byte>, src: int, dest: int)
    requires |m1| == |m| && 0 <= src && (src + 1) * NBPG <= |m| && 0 <= dest && (dest + 1) * NBPG <= |m|
    requires forall k :: 0 <= k < |m| && !(dest * NBPG <= k < (dest + 1) * NBPG) ==> m1[k] == m[k]
    requires forall k :: dest * NBPG <= k < (dest + 1) * NBPG ==> m1[k] == m[k - dest * NBPG + src * NBPG]
    ensures m1 == SetBlock(m, NBPG, dest, Block(m, NBPG, src))
  {
    var b := Block(m, NBPG, src);
    var r := SetBlock(m, NBPG, dest, b);
    forall k | 0 <= k < |m| ensures m1[k] == r[k] {
      if dest * NBPG <= k < (dest + 1) * NBPG { assert r[k] == b[k - dest * NBPG]; }
    }
  }
}
