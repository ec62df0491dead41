/** Runs of operations on several files of one disk, each opened at most once: every run behaves
    as independent byte sequences with cursors, and the blocks stay partitioned. */
module LfRun {
  import opened Kernel
  import opened Seqs
  import opened Bytes
  import opened Wrappers
  import opened LfCodec
  import opened LfSpec
  import opened LfInv
  import opened LfSetup
  import opened LfFile
  import opened LfOps
  import opened LfSync
  import opened LfTrunc
  import opened LfPanic

  /** The file system and the control blocks of the open files, by directory entry. */
  datatype Sys = Sys(fs: Fs, open: map<int, Cb>)

  /** Opening takes over the buffers that the control block happens to hold. Creating takes the
      first entry of the directory that is not in use, which is e, and opens it. */
  datatype Op =
    | Get(e: int)
    | Put(e: int, ch: byte)
    | SeekTo(e: int, offset: nat)
    | Trunc(e: int)
    | Shut(e: int)
    | Open(e: int, ib: Ib, blk: seq<byte>)
    | Create(e: int, name: seq<byte>, ib: Ib, blk: seq<byte>)

  /** One operation and what it returns; None is a panic, or the second opening of a file. */
  function Step(s: Sys, op: Op, junk: int -> Tail): Option<(Sys, int)> {
    var e := op.e;
    if op.Create? then
      if e != |s.fs.dir.files| then None
      else if s.fs.dir.nfiles >= LF_NUM_DIR_ENT then Some((s, SYSERR))
      else Some((Sys(NewEntry(s.fs, op.name), s.open[e := Opened(e, op.ib, op.blk)]), OK))
    else if op.Open? then
      if e in s.open || !(0 <= e < |s.fs.dir.files|) then None
      else Some((s.(open := s.open[e := Opened(e, op.ib, op.blk)]), OK))
    else if e !in s.open then Some((s, SYSERR))
    else if !CbOk(s.fs, s.open[e]) then None
    else
      var c := s.open[e];
      match op
      case Get(_) =>
        var (fs', c', r) :- Getc(s.fs, c);
        Some((Sys(fs', s.open[e := c']), r))
      case Put(_, ch) =>
        var (fs', c', ok) :- Putc(s.fs, c, ch);
        Some((Sys(fs', s.open[e := c']), if ok then OK else SYSERR))
      case SeekTo(_, offset) =>
        var (c', ok) := Seek(s.fs, c, offset);
        Some((s.(open := s.open[e := c']), if ok then OK else SYSERR))
      case Trunc(_) =>
        var (fs', c') :- Truncate(s.fs, c, junk);
        Some((Sys(fs', s.open[e := c']), OK))
      case Shut(_) =>
        Some((Sys(Close(s.fs, c).0, s.open - {e}), OK))
      case _ => None
  }

  /** The directory in memory with one more, empty file; lfsopen does not mark it dirty. */
  function NewEntry(fs: Fs, name: seq<byte>): Fs {
    fs.(dir := fs.dir.(nfiles := fs.dir.nfiles + 1, files := fs.dir.files + [Ldentry(0, NULL, name)]))
  }

  function Run(s: Sys, ops: seq<Op>, junk: int -> Tail): Option<(Sys, seq<int>)>
    decreases |ops|
  {
    if ops == [] then Some((s, []))
    else
      var (s1, r) :- Step(s, ops[0], junk);
      var (s2, rs) :- Run(s1, ops[1..], junk);
      Some((s2, [r] + rs))
  }

  // ---- the abstract machine ----

  datatype ASys = ASys(files: seq<seq<byte>>, pos: map<int, nat>)

  function AStep(a: ASys, op: Op): (ASys, int) {
    var e := op.e;
    if op.Create? then
      if |a.files| >= LF_NUM_DIR_ENT then (a, SYSERR) else (ASys(a.files + [[]], a.pos[e := 0]), OK)
    else if op.Open? then (a.(pos := a.pos[e := 0]), OK)
    else if e !in a.pos || !(0 <= e < |a.files|) then (a, SYSERR)
    else
      var f := Abs(a.files[e], a.pos[e]);
      match op
      case Get(_) => (With(a, e, AbsGetc(f).0), AbsGetc(f).1)
      case Put(_, ch) => if f.pos <= |f.data| then (With(a, e, AbsPutc(f, ch)), OK) else (a, SYSERR)
      case SeekTo(_, offset) => (With(a, e, AbsSeek(f, offset).0), if AbsSeek(f, offset).1 then OK else SYSERR)
      case Trunc(_) => (if f.data == [] then a else With(a, e, Abs([], 0)), OK)
      case Shut(_) => (a.(pos := a.pos - {e}), OK)
      case _ => (a, OK)
  }

  function With(a: ASys, e: int, f: Abs): ASys
    requires 0 <= e < |a.files|
  {
    ASys(a.files[e := f.data], a.pos[e := f.pos])
  }

  function ARun(a: ASys, ops: seq<Op>): (ASys, seq<int>)
    decreases |ops|
  {
    if ops == [] then (a, [])
    else
      var (a1, r) := AStep(a, ops[0]);
      var (a2, rs) := ARun(a1, ops[1..]);
      (a2, [r] + rs)
  }

  // ---- the invariant and the abstraction ----

  function Handle(s: Sys, g: int): Option<Cb> { if g in s.open then Some(s.open[g]) else None }

  ghost predicate SysInv(s: Sys, L: Layout) {
    && DiskOk(s.fs, L)
    && (forall e :: e in s.open ==> 0 <= e < |L.files|)
    && (forall g :: 0 <= g < |L.files| ==> FileInv(s.fs, L, g, Handle(s, g)))
  }

  ghost function AbsSys(s: Sys, L: Layout): (a: ASys)
    requires SysInv(s, L)
    ensures |a.files| == |L.files| && a.pos.Keys == s.open.Keys
  {
    ASys(seq(|L.files|, g requires 0 <= g < |L.files| => Content(s.fs, L, g, Handle(s, g))),
         map e | e in s.open :: Pos(s, L, e))
  }

  ghost function Pos(s: Sys, L: Layout, e: int): nat
    requires SysInv(s, L) && e in s.open
  {
    assert FileInv(s.fs, L, e, Handle(s, e));
    s.open[e].pos
  }

  /** Each block of the disk is on the free list or in one file, and in one place. */
  lemma Partition(s: Sys, L: Layout)
    requires SysInv(s, L)
    ensures NoDup(L.ifree) && NoDup(L.dfree)
    ensures forall g :: 0 <= g < |L.files| ==> NoDup(L.files[g].ch) && NoDup(L.files[g].blks)
    ensures forall n :: n in s.fs.ibs ==> (n in L.ifree <==> forall g :: 0 <= g < |L.files| ==> n !in L.files[g].ch)
    ensures forall d :: d in s.fs.blocks ==>
      (d in L.dfree <==> forall g :: 0 <= g < |L.files| ==> d !in L.files[g].blks)
    ensures forall g, h :: 0 <= g < h < |L.files| ==>
      Disjoint(L.files[g].ch, L.files[h].ch) && Disjoint(L.files[g].blks, L.files[h].blks)
  {
    hide IFreeOk, DFreeOk, Want, Loaded, DataClean, Tight, Synced, CacheOk;
    FreeOwns(s.fs, L);
    forall g | 0 <= g < |L.files| ensures Owns(L.iown, g, L.files[g].ch) && Owns(L.down, g, L.files[g].blks) {
      assert FileInv(s.fs, L, g, Handle(s, g));
    }
    hide FileInv, Handle;
    forall n | n in s.fs.ibs ensures n in L.ifree <==> forall g :: 0 <= g < |L.files| ==> n !in L.files[g].ch {
      if 0 <= L.iown[n] < |L.files| { assert n in L.files[L.iown[n]].ch; }
    }
    forall d | d in s.fs.blocks ensures d in L.dfree <==> forall g :: 0 <= g < |L.files| ==> d !in L.files[g].blks {
      if 0 <= L.down[d] < |L.files| { assert d in L.files[L.down[d]].blks; }
    }
  }

  ghost predicate Disjoint(a: seq<int>, b: seq<int>) { forall i, j :: 0 <= i < |a| && 0 <= j < |b| ==> a[i] != b[j] }

  lemma FreeOwns(fs: Fs, L: Layout)
    requires DiskOk(fs, L)
    ensures Owns(L.iown, FREE, L.ifree) && Owns(L.down, FREE, L.dfree) && Sizes(fs, L)
  {}

  // ---- one step ----

  /** The system with the handle of e replaced. */
  function Put1(s: Sys, fs': Fs, e: int, oc: Option<Cb>): Sys {
    Sys(fs', if oc.Some? then s.open[e := oc.value] else s.open - {e})
  }

  /** An operation on one file that touches no other changes the abstract system in that file
      only. */
  lemma OneFile(s: Sys, L: Layout, e: int, fs': Fs, L': Layout, oc: Option<Cb>)
    requires SysInv(s, L) && 0 <= e < |L.files| && OthersUntouched(s.fs, L, fs', L', e)
    requires DiskOk(fs', L') && FileInv(fs', L', e, oc)
    ensures SysInv(Put1(s, fs', e, oc), L')
    ensures AbsSys(Put1(s, fs', e, oc), L').files == AbsSys(s, L).files[e := Content(fs', L', e, oc)]
    ensures AbsSys(Put1(s, fs', e, oc), L').pos
      == if oc.Some? then AbsSys(s, L).pos[e := oc.value.pos] else AbsSys(s, L).pos - {e}
  {
    var s' := Put1(s, fs', e, oc);
    hide DiskOk, FileInv, Untouched, Synced, Content;
    forall g | 0 <= g < |L.files|
      ensures FileInv(fs', L', g, Handle(s', g))
      ensures g != e ==> Content(fs', L', g, Handle(s', g)) == Content(s.fs, L, g, Handle(s, g)) {
      if g != e { UntouchedFile(s.fs, L, fs', L', g, Handle(s, g)); }
    }
  }

  lemma HandleInv(s: Sys, L: Layout, e: int)
    requires SysInv(s, L) && 0 <= e < |L.files|
    ensures FileInv(s.fs, L, e, Handle(s, e)) && AbsSys(s, L).files[e] == Content(s.fs, L, e, Handle(s, e))
    ensures |s.fs.dir.files| == |L.files|
    ensures e in s.open ==> CbOk(s.fs, s.open[e]) && s.open[e].ent == e && AbsSys(s, L).pos[e] == s.open[e].pos
  {
    assert FileInv(s.fs, L, e, Handle(s, e));
    if e in s.open { InvCb(s.fs, L, e, s.open[e]); }
    hide FileInv, Content, IFreeOk, DFreeOk;
  }

  lemma InvDisk(fs: Fs, L: Layout, e: int, oc: Option<Cb>)
    requires FileInv(fs, L, e, oc)
    ensures DiskOk(fs, L) && 0 <= e < |L.files| == |fs.dir.files|
  {}

  lemma StepGet(s: Sys, L: Layout, e: int, junk: int -> Tail) returns (s': Sys, r: int)
    requires SysInv(s, L) && e in s.open
    ensures Step(s, Get(e), junk) == Some((s', r)) && SysInv(s', L)
    ensures AbsSys(s', L) == AStep(AbsSys(s, L), Get(e)).0 && r == AStep(AbsSys(s, L), Get(e)).1
  {
    HandleInv(s, L, e);
    var c := s.open[e];
    var fs', c', r' := GetcOk(s.fs, L, e, c);
    InvDisk(fs', L, e, Some(c'));
    hide FileInv, SysInv, AbsSys, Content, Getc, DiskOk, Synced, OthersUntouched, CbOk;
    OneFile(s, L, e, fs', L, Some(c'));
    s', r := Put1(s, fs', e, Some(c')), r';
  }

  lemma StepPut(s: Sys, L: Layout, e: int, ch: byte, junk: int -> Tail) returns (s': Sys, L': Layout, r: int)
    requires SysInv(s, L) && e in s.open && Step(s, Put(e, ch), junk).Some?
    ensures Step(s, Put(e, ch), junk) == Some((s', r)) && SysInv(s', L')
    ensures AbsSys(s', L') == AStep(AbsSys(s, L), Put(e, ch)).0 && r == AStep(AbsSys(s, L), Put(e, ch)).1
  {
    HandleInv(s, L, e);
    var c := s.open[e];
    PutcExact(s.fs, L, e, c, ch);
    assert Putc(s.fs, c, ch).Some?;
    var fs', L1, c' := PutcOk(s.fs, L, e, c, ch);
    InvDisk(fs', L1, e, Some(c'));
    PutIs(s, e, ch, junk, fs', c');
    hide FileInv, SysInv, AbsSys, Content, Putc, DiskOk, Synced, OthersUntouched, CbOk, ReadyLay, HasBlocks, AbsPutc,
      Step, AStep;
    OneFile(s, L, e, fs', L1, Some(c'));
    APutIs(AbsSys(s, L), e, ch);
    s', L', r := Put1(s, fs', e, Some(c')), L1, OK;
  }

  lemma APutIs(a: ASys, e: int, ch: byte)
    requires e in a.pos && 0 <= e < |a.files| && a.pos[e] <= |a.files[e]|
    ensures AStep(a, Put(e, ch)).0 == With(a, e, AbsPutc(Abs(a.files[e], a.pos[e]), ch)) && AStep(a, Put(e, ch)).1 == OK
  {}

  lemma PutIs(s: Sys, e: int, ch: byte, junk: int -> Tail, fs': Fs, c': Cb)
    requires e in s.open && CbOk(s.fs, s.open[e]) && Putc(s.fs, s.open[e], ch) == Some((fs', c', true))
    ensures Step(s, Put(e, ch), junk) == Some((Put1(s, fs', e, Some(c')), OK))
  {
    hide Putc;
  }

  lemma StepSeek(s: Sys, L: Layout, e: int, offset: nat, junk: int -> Tail) returns (s': Sys, r: int)
    requires SysInv(s, L) && e in s.open
    ensures Step(s, SeekTo(e, offset), junk) == Some((s', r)) && SysInv(s', L)
    ensures AbsSys(s', L) == AStep(AbsSys(s, L), SeekTo(e, offset)).0 && r == AStep(AbsSys(s, L), SeekTo(e, offset)).1
  {
    HandleInv(s, L, e);
    var c := s.open[e];
    SeekOk(s.fs, L, e, c, offset);
    var c' := Seek(s.fs, c, offset).0;
    SameExtends(s.fs, L, e, c);
    ExtendsUntouched(s.fs, L, c, s.fs, L, c, e);
    InvDisk(s.fs, L, e, Some(c'));
    hide FileInv, SysInv, AbsSys, Content, Seek, DiskOk, Synced, OthersUntouched, CbOk, Extends, FileOk;
    OneFile(s, L, e, s.fs, L, Some(c'));
    s', r := Put1(s, s.fs, e, Some(c')), if Seek(s.fs, c, offset).1 then OK else SYSERR;
  }

  lemma StepTrunc(s: Sys, L: Layout, e: int, junk: int -> Tail) returns (s': Sys, L': Layout, r: int)
    requires SysInv(s, L) && e in s.open
    ensures Step(s, Trunc(e), junk) == Some((s', r)) && SysInv(s', L')
    ensures AbsSys(s', L') == AStep(AbsSys(s, L), Trunc(e)).0 && r == AStep(AbsSys(s, L), Trunc(e)).1
  {
    hide DiskOk, Head, FileInv, Content, Sizes, Truncate;
    HandleInv(s, L, e);
    var c := s.open[e];
    r := OK;
    if Size(s.fs, c) == 0 {
      hide FileInv, SysInv, AbsSys, CbOk, Truncate;
      TruncEmpty(s, c, junk);
      s', L' := s, L;
    } else {
      SizePos(s, L, e);
      var fs', c' := TruncateOk(s.fs, L, e, c, junk);
      InvDisk(fs', TruncLay(L, e), e, Some(c'));
      hide FileInv, SysInv, AbsSys, Content, DiskOk, OthersUntouched, CbOk, Truncate, TruncLay;
      OneFile(s, L, e, fs', TruncLay(L, e), Some(c'));
      s', L' := Put1(s, fs', e, Some(c')), TruncLay(L, e);
    }
  }

  lemma TruncEmpty(s: Sys, c: Cb, junk: int -> Tail)
    requires CbOk(s.fs, c) && Size(s.fs, c) == 0 && c.ent in s.open && s.open[c.ent] == c
    ensures Truncate(s.fs, c, junk) == Some((s.fs, c)) && Sys(s.fs, s.open[c.ent := c]) == s
  {}

  lemma SizePos(s: Sys, L: Layout, e: int)
    requires SysInv(s, L) && e in s.open && CbOk(s.fs, s.open[e]) && s.open[e].ent == e && Size(s.fs, s.open[e]) != 0
    ensures s.fs.dir.files[e].size > 0
  {
    HandleInv(s, L, e);
    hide FileOk, Tight;
  }

  lemma StepShut(s: Sys, L: Layout, e: int, junk: int -> Tail) returns (s': Sys, r: int)
    requires SysInv(s, L) && e in s.open
    ensures Step(s, Shut(e), junk) == Some((s', r)) && SysInv(s', L)
    ensures AbsSys(s', L) == AStep(AbsSys(s, L), Shut(e)).0 && r == AStep(AbsSys(s, L), Shut(e)).1
  {
    hide DiskOk, FileInv, Content;
    HandleInv(s, L, e);
    var c := s.open[e];
    FlushedOnDisk(s.fs, L, e, c);
    assert Close(s.fs, c).0 == Flush(s.fs, c).0;
    var fs' := Close(s.fs, c).0;
    InvDisk(fs', L, e, None);
    hide FileInv, SysInv, AbsSys, Content, DiskOk, OthersUntouched, CbOk, Close;
    OneFile(s, L, e, fs', L, None);
    s', r := Put1(s, fs', e, None), OK;
  }

  /** The buffers that an opening takes over have their sizes. */
  predicate Possible(op: Op) { op.Open? || op.Create? ==> |op.blk| == LF_BLKSIZ && |op.ib.dba| == LF_IBLEN }

  lemma StepOpen(s: Sys, L: Layout, e: int, ib: Ib, blk: seq<byte>, junk: int -> Tail) returns (s': Sys, r: int)
    requires SysInv(s, L) && 0 <= e < |L.files| && e !in s.open && |blk| == LF_BLKSIZ && |ib.dba| == LF_IBLEN
    ensures Step(s, Open(e, ib, blk), junk) == Some((s', r)) && SysInv(s', L)
    ensures AbsSys(s', L) == AStep(AbsSys(s, L), Open(e, ib, blk)).0 && r == AStep(AbsSys(s, L), Open(e, ib, blk)).1
  {
    HandleInv(s, L, e);
    var c := Opened(e, ib, blk);
    OpenedOk(s.fs, L, e, ib, blk);
    SameUntouched(s.fs, L, e);
    InvDisk(s.fs, L, e, Some(c));
    hide FileInv, SysInv, AbsSys, Content, DiskOk, OthersUntouched, CbOk, Synced;
    OneFile(s, L, e, s.fs, L, Some(c));
    s', r := Put1(s, s.fs, e, Some(c)), OK;
  }

  lemma StepCreate(s: Sys, L: Layout, e: int, name: seq<byte>, ib: Ib, blk: seq<byte>, junk: int -> Tail)
    returns (s': Sys, L': Layout, r: int)
    requires SysInv(s, L) && e == |L.files| && |blk| == LF_BLKSIZ && |ib.dba| == LF_IBLEN
    ensures Step(s, Create(e, name, ib, blk), junk) == Some((s', r)) && SysInv(s', L')
    ensures AbsSys(s', L') == AStep(AbsSys(s, L), Create(e, name, ib, blk)).0
    ensures r == AStep(AbsSys(s, L), Create(e, name, ib, blk)).1
  {
    OpenIn(s, L, e);
    if s.fs.dir.nfiles >= LF_NUM_DIR_ENT {
      s', L', r := s, L, SYSERR;
    } else {
      L' := L.(files := L.files + [FileLay([], [])]);
      s', r := Sys(NewEntry(s.fs, name), s.open[e := Opened(e, ib, blk)]), OK;
      CreateInv(s, L, name, ib, blk, s', L');
    }
  }

  lemma CreateInv(s: Sys, L: Layout, name: seq<byte>, ib: Ib, blk: seq<byte>, s': Sys, L': Layout)
    requires SysInv(s, L) && |blk| == LF_BLKSIZ && |ib.dba| == LF_IBLEN
      && L' == L.(files := L.files + [FileLay([], [])])
    requires s' == Sys(NewEntry(s.fs, name), s.open[|L.files| := Opened(|L.files|, ib, blk)])
    ensures SysInv(s', L') && AbsSys(s', L') == ASys(AbsSys(s, L).files + [[]], AbsSys(s, L).pos[|L.files| := 0])
  {
    hide DiskOk, FileInv, Untouched, Content, NewEntry, Opened;
    CreateNew(s, L, name, ib, blk);
    assert Opened(|L.files|, ib, blk).pos == 0 by { OpenedPos(|L.files|, ib, blk); }
    forall g | 0 <= g < |L.files|
      ensures FileInv(s'.fs, L', g, Handle(s', g))
      ensures Content(s'.fs, L', g, Handle(s', g)) == Content(s.fs, L, g, Handle(s, g)) {
      CreateOther(s, L, name, ib, blk, g);
    }
  }

  lemma OpenedPos(e: int, ib: Ib, blk: seq<byte>)
    ensures Opened(e, ib, blk).pos == 0
  {}

  /** A new entry is an empty file. */
  lemma CreateNew(s: Sys, L: Layout, name: seq<byte>, ib: Ib, blk: seq<byte>)
    requires SysInv(s, L) && |blk| == LF_BLKSIZ && |ib.dba| == LF_IBLEN
    ensures var (fs', L', e) := (NewEntry(s.fs, name), L.(files := L.files + [FileLay([], [])]), |L.files|);
      && DiskOk(fs', L') && FileInv(fs', L', e, Some(Opened(e, ib, blk)))
      && Content(fs', L', e, Some(Opened(e, ib, blk))) == []
  {
    hide IFreeOk, DFreeOk, Want, ByteAt, FileInv;
    assert DiskOk(NewEntry(s.fs, name), L.(files := L.files + [FileLay([], [])]));
    EmptyFile(NewEntry(s.fs, name), L.(files := L.files + [FileLay([], [])]), |L.files|, Opened(|L.files|, ib, blk));
  }

  /** ... and leaves the others alone. */
  lemma CreateOther(s: Sys, L: Layout, name: seq<byte>, ib: Ib, blk: seq<byte>, g: int)
    requires SysInv(s, L) && 0 <= g < |L.files|
    ensures var (fs', L') := (NewEntry(s.fs, name), L.(files := L.files + [FileLay([], [])]));
      FileInv(fs', L', g, Handle(s, g)) && Content(fs', L', g, Handle(s, g)) == Content(s.fs, L, g, Handle(s, g))
  {
    hide Head, Owns, Handle, Loaded;
    var (fs', L', oc) := (NewEntry(s.fs, name), L.(files := L.files + [FileLay([], [])]), Handle(s, g));
    assert FileInv(s.fs, L, g, oc);
    hide IFreeOk, DFreeOk, Want, Owns;
    assert forall p :: ByteAt(fs', L'.files[g], oc, p) == ByteAt(s.fs, L.files[g], oc, p);
    assert forall n :: n in s.fs.ibs ==> IbAt(fs', oc, n) == IbAt(s.fs, oc, n);
  }

  lemma SameUntouched(fs: Fs, L: Layout, e: int)
    requires |L.files| == |fs.dir.files|
    ensures OthersUntouched(fs, L, fs, L, e)
  {}

  // ---- every step and every run ----

  lemma StepOk(s: Sys, L: Layout, op: Op, junk: int -> Tail) returns (s': Sys, L': Layout, r: int)
    requires SysInv(s, L) && Possible(op) && Step(s, op, junk).Some?
    ensures Step(s, op, junk) == Some((s', r)) && SysInv(s', L')
    ensures AbsSys(s', L') == AStep(AbsSys(s, L), op).0 && r == AStep(AbsSys(s, L), op).1
  {
    var e := op.e;
    L' := L;
    OpenIn(s, L, e);
    hide SysInv, AbsSys;
    match op {
      case Create(_, name, ib, blk) => s', L', r := StepCreate(s, L, e, name, ib, blk, junk);
      case Open(_, ib, blk) => s', r := StepOpen(s, L, e, ib, blk, junk);
      case Get(_) => if e in s.open { s', r := StepGet(s, L, e, junk); } else { s', r := s, SYSERR; }
      case Put(_, ch) => if e in s.open { s', L', r := StepPut(s, L, e, ch, junk); } else { s', r := s, SYSERR; }
      case SeekTo(_, offset) =>
        if e in s.open { s', r := StepSeek(s, L, e, offset, junk); } else { s', r := s, SYSERR; }
      case Trunc(_) => if e in s.open { s', L', r := StepTrunc(s, L, e, junk); } else { s', r := s, SYSERR; }
      case Shut(_) => if e in s.open { s', r := StepShut(s, L, e, junk); } else { s', r := s, SYSERR; }
    }
  }

  lemma OpenIn(s: Sys, L: Layout, e: int)
    requires SysInv(s, L)
    ensures e in s.open ==> 0 <= e < |L.files|
    ensures s.fs.dir.nfiles == |s.fs.dir.files| == |L.files|
  {
    hide IFreeOk, DFreeOk, FileInv;
  }

  /** A step is not possible only when a file is opened twice or does not exist, or when a byte is
      put into a file that needs a block and there is none. */
  lemma StepExact(s: Sys, L: Layout, op: Op, junk: int -> Tail)
    requires SysInv(s, L) && Possible(op)
    ensures Step(s, op, junk).None? <==>
      || (op.Create? && op.e != |L.files|)
      || (op.Open? && (op.e in s.open || !(0 <= op.e < |L.files|)))
      || (op.Put? && op.e in s.open && s.open[op.e].byt >= LF_BLKSIZ && 0 <= op.e < |L.files| && 0 <= s.open[op.e].pos
          && !HasBlocks(L, op.e, s.open[op.e].pos))
  {
    hide FileInv, FileOk, Tight, SysInv, DataClean, DiskOk;
    var e := op.e;
    OpenIn(s, L, e);
    if e in s.open && !op.Open? && !op.Create? {
      HandleInv(s, L, e);
      match op {
        case Get(_) => var _, _ := StepGet(s, L, e, junk);
        case Put(_, ch) => PutcExact(s.fs, L, e, s.open[e], ch);
        case SeekTo(_, offset) => var _, _ := StepSeek(s, L, e, offset, junk);
        case Trunc(_) => var _, _, _ := StepTrunc(s, L, e, junk);
        case Shut(_) => var _, _ := StepShut(s, L, e, junk);
      }
    }
  }

  /** In every step the directory on disk keeps up, but for the entries of files still empty. */
  lemma StepSynced(s: Sys, L: Layout, op: Op, junk: int -> Tail)
    requires SysInv(s, L) && Possible(op) && Step(s, op, junk).Some? && Synced(s.fs)
    ensures Synced(Step(s, op, junk).value.0.fs)
  {
    hide SysInv, CbOk, Getc, Putc, Behind, Close, Truncate, NewEntry, Opened;
    var e := op.e;
    OpenIn(s, L, e);
    if op.Create? {
      if s.fs.dir.nfiles < LF_NUM_DIR_ENT { NewEntrySynced(s.fs, op.name); }
    } else if e in s.open && !op.Open? {
      HandleInv(s, L, e);
      OpsSynced(s.fs, L, e, s.open[e], if op.Put? then op.ch else 0);
      if op.Trunc? { TruncSynced(s.fs, s.open[e], junk); }
    }
  }

  lemma NewEntrySynced(fs: Fs, name: seq<byte>)
    requires Synced(fs)
    ensures Synced(NewEntry(fs, name))
  {}

  lemma TruncSynced(fs: Fs, c: Cb, junk: int -> Tail)
    requires 0 <= c.ent < |fs.dir.files| && Synced(fs) && Truncate(fs, c, junk).Some?
    ensures Synced(Truncate(fs, c, junk).value.0)
  {
    hide FreeChain, Flush, Behind;
  }

  lemma {:induction false} RunSynced(s: Sys, L: Layout, ops: seq<Op>, junk: int -> Tail)
    requires SysInv(s, L) && Synced(s.fs) && Run(s, ops, junk).Some? && forall i :: 0 <= i < |ops| ==> Possible(ops[i])
    ensures Synced(Run(s, ops, junk).value.0.fs)
    decreases |ops|
  {
    hide SysInv, AbsSys, Step, AStep, Synced;
    if ops != [] {
      var s1, L1, _ := StepOk(s, L, ops[0], junk);
      StepSynced(s, L, ops[0], junk);
      RunSynced(s1, L1, ops[1..], junk);
    }
  }

  /** Closing file e writes its entry to the directory sector exactly when the directory was marked
      dirty or had the entry before; the bytes of the file are then on the disk, and otherwise it has
      none. */
  lemma ShutExact(s: Sys, L: Layout, e: int)
    requires SysInv(s, L) && Synced(s.fs) && e in s.open
    ensures var fs' := Close(s.fs, s.open[e]).0;
      && (e < |fs'.ddir.files| <==> s.fs.dirty || e < |s.fs.ddir.files|) && |fs'.ddir.files| <= |L.files|
      && (if e < |fs'.ddir.files| then OnDisk(fs', L, e, AbsSys(s, L).files[e]) else AbsSys(s, L).files[e] == [])
  {
    hide FileInv, Content, AbsSys, SysInv, OthersUntouched, Behind, DiskOk, Flush, NoBlocks;
    OpenIn(s, L, e);
    HandleInv(s, L, e);
    var c := s.open[e];
    var fs' := Close(s.fs, c).0;
    FlushedOnDisk(s.fs, L, e, c);
    assert fs' == Flush(s.fs, c).0 by { CloseIs(s.fs, c); }
    InvDisk(fs', L, e, None);
    BehindSelf(s.fs.dir);
    assert Behind(fs'.ddir, fs'.dir);
    BehindLen(fs'.ddir, fs'.dir);
    if e < |fs'.ddir.files| {
      LateEmpty(s, L, fs');
      RestartedOk(fs', L);
      RestartedFile(fs', L, e);
    } else {
      BehindLate(fs'.ddir, fs'.dir, e);
      EmptyOwns(s.fs, L, e, Some(c));
    }
  }

  /** A system that starts anew with this disk finds the file with these bytes. */
  ghost predicate OnDisk(fs: Fs, L: Layout, e: int, data: seq<byte>) {
    && |fs.ddir.files| <= |L.files|
    && FileInv(Restarted(fs), Kept(L, |fs.ddir.files|), e, None)
    && Content(Restarted(fs), Kept(L, |fs.ddir.files|), e, None) == data
  }

  lemma CloseIs(fs: Fs, c: Cb)
    ensures Close(fs, c).0 == Flush(fs, c).0
  {}

  lemma BehindSelf(d: Dir)
    ensures Behind(d, d)
  {}

  lemma BehindLen(d: Dir, m: Dir)
    requires Behind(d, m)
    ensures |d.files| <= |m.files|
  {}

  lemma BehindLate(d: Dir, m: Dir, e: int)
    requires Behind(d, m) && |d.files| <= e < |m.files|
    ensures m.files[e].ilist == NULL
  {}

  /** Files that are not in the directory sector own no blocks. */
  lemma LateEmpty(s: Sys, L: Layout, fs': Fs)
    requires SysInv(s, L) && fs'.dir == s.fs.dir && Behind(fs'.ddir, fs'.dir)
    ensures forall g :: |fs'.ddir.files| <= g < |L.files| ==> NoBlocks(L, g)
  {
    hide FileInv, Content, AbsSys, SysInv, Behind, NoBlocks;
    forall g | |fs'.ddir.files| <= g < |L.files| ensures NoBlocks(L, g) {
      HandleInv(s, L, g);
      BehindLate(fs'.ddir, fs'.dir, g);
      EmptyOwns(s.fs, L, g, Handle(s, g));
    }
  }

  /** A file that is closed after any run, and from the directory sector and the disk alone opened
      again, reads from its start the bytes that the run has put into it. */
  lemma Reopened(s: Sys, L: Layout, ops: seq<Op>, e: int, ib: Ib, blk: seq<byte>, junk: int -> Tail)
    returns (s': Sys, L': Layout)
    requires SysInv(s, L) && Synced(s.fs) && Run(s, ops, junk).Some? && forall i :: 0 <= i < |ops| ==> Possible(ops[i])
    requires e in Run(s, ops, junk).value.0.open && |blk| == LF_BLKSIZ && |ib.dba| == LF_IBLEN
    ensures s' == Run(s, ops, junk).value.0 && SysInv(s', L') && 0 <= e < |ARun(AbsSys(s, L), ops).0.files|
    ensures var (fs', data) := (Close(s'.fs, s'.open[e]).0, ARun(AbsSys(s, L), ops).0.files[e]);
      if e < |fs'.ddir.files|
      then && |fs'.ddir.files| <= |L'.files|
           && FileInv(Restarted(fs'), Kept(L', |fs'.ddir.files|), e, Some(Opened(e, ib, blk)))
           && AbsOf(Restarted(fs'), Kept(L', |fs'.ddir.files|), e, Opened(e, ib, blk)) == Abs(data, 0)
      else data == []
  {
    hide FileInv, Content, AbsSys, AbsOf, SysInv, Step, AStep, Synced, Close, Run, ARun;
    var rs;
    s', L', rs := RunRefines(s, L, ops, junk);
    RunSynced(s, L, ops, junk);
    ShutExact(s', L', e);
    OpenIn(s', L', e);
    var fs' := Close(s'.fs, s'.open[e]).0;
    if e < |fs'.ddir.files| { OpenedOk(Restarted(fs'), Kept(L', |fs'.ddir.files|), e, ib, blk); }
  }

  /** Creating a file does not mark the directory dirty: closing the file at once writes its entry
      to the disk exactly when the directory was dirty before. */
  lemma CreateThenShut(s: Sys, L: Layout, e: int, name: seq<byte>, ib: Ib, blk: seq<byte>, junk: int -> Tail)
    requires SysInv(s, L) && Synced(s.fs) && e == |L.files| < LF_NUM_DIR_ENT && |blk| == LF_BLKSIZ
      && |ib.dba| == LF_IBLEN
    ensures Run(s, [Create(e, name, ib, blk), Shut(e)], junk).Some?
    ensures var fs' := Run(s, [Create(e, name, ib, blk), Shut(e)], junk).value.0.fs;
      (e < |fs'.ddir.files| <==> s.fs.dirty) && fs'.ddir == (if s.fs.dirty then fs'.dir else s.fs.ddir)
  {
    hide SysInv, AbsSys, AStep, Close, Flush, DiskOk, FileInv, Step, Behind;
    OpenIn(s, L, e);
    var s1, L1, _ := StepCreate(s, L, e, name, ib, blk, junk);
    CreateOpens(s, e, name, ib, blk, junk);
    var s2, _ := StepShut(s1, L1, e, junk);
    RunTwo(s, Create(e, name, ib, blk), Shut(e), s1, s2, junk);
    CreateShutDisk(s, e, name, ib, blk, junk);
  }

  lemma CreateOpens(s: Sys, e: int, name: seq<byte>, ib: Ib, blk: seq<byte>, junk: int -> Tail)
    requires e == |s.fs.dir.files| && s.fs.dir.nfiles < LF_NUM_DIR_ENT
    ensures Step(s, Create(e, name, ib, blk), junk).Some? && e in Step(s, Create(e, name, ib, blk), junk).value.0.open
  {}

  lemma RunTwo(s: Sys, op: Op, op2: Op, s1: Sys, s2: Sys, junk: int -> Tail)
    requires Step(s, op, junk).Some? && Step(s, op, junk).value.0 == s1
    requires Step(s1, op2, junk).Some? && Step(s1, op2, junk).value.0 == s2
    ensures Run(s, [op, op2], junk).Some? && Run(s, [op, op2], junk).value.0 == s2
  {
    hide Step;
    assert [op, op2][1..] == [op2] && [op2][1..] == [];
    assert Run(s2, [], junk) == Some((s2, []));
    assert Run(s1, [op2], junk).Some? && Run(s1, [op2], junk).value.0 == s2;
  }

  lemma CreateShutDisk(s: Sys, e: int, name: seq<byte>, ib: Ib, blk: seq<byte>, junk: int -> Tail)
    requires Synced(s.fs) && e == |s.fs.dir.files| && Step(s, Create(e, name, ib, blk), junk).Some?
    requires s.fs.dir.nfiles < LF_NUM_DIR_ENT && |blk| == LF_BLKSIZ && |ib.dba| == LF_IBLEN
    ensures var s1 := Step(s, Create(e, name, ib, blk), junk).value.0;
      Step(s1, Shut(e), junk).Some? ==>
        var fs' := Step(s1, Shut(e), junk).value.0.fs;
        (e < |fs'.ddir.files| <==> s.fs.dirty) && fs'.ddir == (if s.fs.dirty then fs'.dir else s.fs.ddir)
  {
    var s1 := Step(s, Create(e, name, ib, blk), junk).value.0;
    if !s.fs.dirty { BehindLen(s.fs.ddir, s.fs.dir); }
    hide Behind;
    assert s1.open[e] == Opened(e, ib, blk) && s1.fs == NewEntry(s.fs, name);
  }

  /** Every run of operations returns what independent byte sequences with cursors return, and
      keeps the files and the free lists consistent. */
  lemma {:induction false} RunRefines(s: Sys, L: Layout, ops: seq<Op>, junk: int -> Tail)
    returns (s': Sys, L': Layout, rs: seq<int>)
    requires SysInv(s, L) && Run(s, ops, junk).Some? && forall i :: 0 <= i < |ops| ==> Possible(ops[i])
    ensures Run(s, ops, junk) == Some((s', rs)) && SysInv(s', L')
    ensures AbsSys(s', L') == ARun(AbsSys(s, L), ops).0 && rs == ARun(AbsSys(s, L), ops).1
    decreases |ops|
  {
    hide SysInv, AbsSys, Step, AStep;
    if ops == [] {
      s', L', rs := s, L, [];
    } else {
      var s1, L1, r := StepOk(s, L, ops[0], junk);
      var s2, L2, rs2 := RunRefines(s1, L1, ops[1..], junk);
      s', L', rs := s2, L2, [r] + rs2;
    }
  }
}
