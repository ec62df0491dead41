/** Runs and the bytes of the disk: no field ever outgrows the 32 bits it has on the disk, so that every
    state of a run is what some sectors of bytes say; and a file system that is closed, written as bytes
    and read again from these bytes has the files it had. */
module LfBytes {
  import opened Kernel
  import opened Seqs
  import opened Bytes
  import opened Wrappers
  import opened LfCodec
  import opened LfSpec
  import opened LfInv
  import opened LfFile
  import opened LfSync
  import opened LfDisk
  import opened LfDevice
  import opened LfRun
  import opened LfFormat

  // ---- what fits into the fields on the disk ----

  predicate IbFine(b: Ib) { IbFits(b) && b.offset % LF_IDATA == 0 }

  /** All fields but the sizes. */
  predicate DirInts(d: Dir) {
    && Int32(d.dfree) && Int32(d.ifree) && d.nfiles == |d.files| <= LF_NUM_DIR_ENT
    && forall i :: 0 <= i < |d.files| ==> Int32(d.files[i].ilist) && |d.files[i].name| == LF_NAME_LEN
  }

  predicate SizesFit(d: Dir) { forall i :: 0 <= i < |d.files| ==> Uint32(d.files[i].size) }

  /** k index sectors on n sectors. */
  ghost predicate Area(fs: Fs, k: nat, n: nat) {
    && k < n < 0x8000_0000 && IB_PER_SECT * k < 0x8000_0000
    && (forall i :: i in fs.ibs <==> 0 <= i < IB_PER_SECT * k) && (forall s :: s in fs.blocks <==> k < s < n)
  }

  ghost predicate FsFits(fs: Fs, k: nat, n: nat) {
    && Area(fs, k, n) && (forall i :: i in fs.ibs ==> IbFine(fs.ibs[i]))
    && (forall s :: s in fs.blocks ==> |fs.blocks[s]| == LF_BLKSIZ)
    && DirInts(fs.dir) && DirInts(fs.ddir) && SizesFit(fs.ddir)
  }

  /** What a control block has in memory could be written as well. */
  ghost predicate CbFits(c: Cb, k: nat, n: nat) {
    && |c.blk| == LF_BLKSIZ && (c.inum != NULL ==> 0 <= c.inum < IB_PER_SECT * k && IbFine(c.ib))
    && (c.dnum != NULL ==> k < c.dnum < n) && (c.ibdirty ==> c.inum != NULL) && (c.dbdirty ==> c.dnum != NULL)
  }

  ghost predicate Fits(fs: Fs, c: Cb, k: nat, n: nat) { FsFits(fs, k, n) && CbFits(c, k, n) && SizesFit(fs.dir) }

  // ---- the parts of the operations ----

  lemma IbAllocFits(fs: Fs, k: nat, n: nat)
    requires FsFits(fs, k, n) && SizesFit(fs.dir) && IbAlloc(fs).Some?
    ensures var (fs', m) := IbAlloc(fs).value;
      FsFits(fs', k, n) && fs'.dir.files == fs.dir.files && 0 <= m < IB_PER_SECT * k
  {}

  lemma DbAllocFits(fs: Fs, k: nat, n: nat)
    requires FsFits(fs, k, n) && SizesFit(fs.dir) && DbAlloc(fs).Some?
    ensures var (fs', m) := DbAlloc(fs).value; FsFits(fs', k, n) && fs'.dir.files == fs.dir.files && k < m < n
  {}

  lemma FlushFits(fs: Fs, c: Cb, k: nat, n: nat)
    requires Fits(fs, c, k, n)
    ensures var (fs', c') := Flush(fs, c);
      Fits(fs', c', k, n) && fs'.dir == fs.dir && c'.pos == c.pos && c'.ent == c.ent && !c'.dbdirty && !c'.ibdirty
  {}

  lemma ClearFine(offset: int)
    requires Uint32(offset) && offset % LF_IDATA == 0
    ensures IbFine(IbClear(offset))
  {}

  lemma FirstIbFits(fs: Fs, c: Cb, k: nat, n: nat)
    requires Fits(fs, c, k, n) && 0 <= c.ent < |fs.dir.files| && FirstIb(fs, c).Some?
    ensures var (fs', c') := FirstIb(fs, c).value;
      Fits(fs', c', k, n) && c'.inum != NULL && c'.pos == c.pos && c'.dbdirty == c.dbdirty
  {
    hide IbFine;
    ClearFine(0);
    if IbAlloc(fs).Some? { IbAllocFits(fs, k, n); }
  }

  lemma NextIbFits(fs: Fs, c: Cb, k: nat, n: nat)
    requires Fits(fs, c, k, n) && c.inum != NULL && !c.dbdirty && NextIb(fs, c).Some?
    requires c.ib.offset < Cover(c.pos) && 0 <= c.pos < TWO32
    ensures var (fs', c') := NextIb(fs, c).value;
      Fits(fs', c', k, n) && c'.inum != NULL && c'.pos == c.pos && !c'.dbdirty
  {
    NextOffset(c.ib.offset, c.pos);
    ClearFine(c.ib.offset + LF_IDATA);
    if IbAlloc(fs).Some? { IbAllocFits(fs, k, n); }
  }

  lemma NextOffset(offset: int, pos: int)
    requires 0 <= offset < Cover(pos) && offset % LF_IDATA == 0 && 0 <= pos < TWO32
    ensures Uint32(offset + LF_IDATA) && (offset + LF_IDATA) % LF_IDATA == 0
  {}

  lemma {:induction false} WalkFits(fs: Fs, c: Cb, k: nat, n: nat)
    requires Fits(fs, c, k, n) && c.inum != NULL && !c.dbdirty && Walk(fs, c).Some? && 0 <= c.pos < TWO32
    ensures var (fs', c') := Walk(fs, c).value;
      Fits(fs', c', k, n) && c'.inum != NULL && c'.pos == c.pos && !c'.dbdirty
    decreases Cover(c.pos) - c.ib.offset
  {
    hide Fits, NextIb;
    if Cover(c.pos) > c.ib.offset {
      NextIbFits(fs, c, k, n);
      var (fs1, c1) := NextIb(fs, c).value;
      WalkFits(fs1, c1, k, n);
    }
  }

  lemma LoadFits(fs: Fs, c: Cb, k: nat, n: nat)
    requires Fits(fs, c, k, n) && c.inum != NULL && !c.dbdirty && 0 <= c.pos && LoadBlock(fs, c).Some?
    ensures var (fs', c') := LoadBlock(fs, c).value; Fits(fs', c', k, n) && c'.dnum != NULL
  {
    if DbAlloc(fs).Some? { DbAllocFits(fs, k, n); }
  }

  lemma SetupFits(fs: Fs, c: Cb, k: nat, n: nat)
    requires Fits(fs, c, k, n) && 0 <= c.ent < |fs.dir.files| && 0 <= c.pos < TWO32 && Setup(fs, c).Some?
    ensures var (fs', c') := Setup(fs, c).value; Fits(fs', c', k, n) && c'.dnum != NULL
  {
    hide Fits, FirstIb, Walk, LoadBlock, Flush;
    if c.ibdirty || c.dbdirty { FlushFits(fs, c, k, n); }
    var (fs0, c0) := if c.ibdirty || c.dbdirty then Flush(fs, c) else (fs, c);
    FirstIbFits(fs0, c0, k, n);
    var (fs1, c1) := FirstIb(fs0, c0).value;
    WalkFits(fs1, c1, k, n);
    var (fs2, c2) := Walk(fs1, c1).value;
    LoadFits(fs2, c2, k, n);
  }

  // ---- the operations ----

  /** With the position in 32 bits; a byte pointer inside the buffer stands in a data block. */
  ghost predicate OpFits(fs: Fs, c: Cb, k: nat, n: nat) {
    Fits(fs, c, k, n) && CbOk(fs, c) && c.pos < TWO32 && (c.byt < LF_BLKSIZ ==> c.dnum != NULL)
  }

  lemma GetcFits(fs: Fs, c: Cb, k: nat, n: nat)
    requires OpFits(fs, c, k, n) && Getc(fs, c).Some?
    ensures FsFits(Getc(fs, c).value.0, k, n) && CbFits(Getc(fs, c).value.1, k, n)
  {
    hide Setup, FsFits;
    if c.pos < Size(fs, c) && c.byt >= LF_BLKSIZ { SetupFits(fs, c, k, n); }
  }

  lemma PutcFits(fs: Fs, c: Cb, ch: byte, k: nat, n: nat)
    requires OpFits(fs, c, k, n) && Putc(fs, c, ch).Some?
    ensures FsFits(Putc(fs, c, ch).value.0, k, n) && CbFits(Putc(fs, c, ch).value.1, k, n)
  {
    hide Setup, IbFine;
    if c.byt >= LF_BLKSIZ && c.pos <= Size(fs, c) { SetupFits(fs, c, k, n); }
  }

  lemma CloseFits(fs: Fs, c: Cb, k: nat, n: nat)
    requires Fits(fs, c, k, n)
    ensures FsFits(Close(fs, c).0, k, n)
  {
    hide Flush;
    FlushFits(fs, c, k, n);
  }

  lemma {:induction false} FreeDataFits(fs: Fs, dba: seq<int>, i: nat, junk: int -> Tail, k: nat, n: nat)
    requires FsFits(fs, k, n) && SizesFit(fs.dir) && FreeData(fs, dba, i, junk).Some?
    ensures var fs' := FreeData(fs, dba, i, junk).value;
      FsFits(fs', k, n) && fs'.dir.files == fs.dir.files
    decreases |dba| - i
  {
    hide IbFine;
    if i < |dba| {
      if dba[i] == NULL {
        FreeDataFits(fs, dba, i + 1, junk, k, n);
      } else {
        FreeDataFits(DbFree(fs, dba[i], junk(dba[i])), dba, i + 1, junk, k, n);
      }
    }
  }

  lemma {:induction false} FreeChainFits(fs: Fs, m: int, ifree: int, left: set<int>, junk: int -> Tail, k: nat, n: nat)
    requires FsFits(fs, k, n) && SizesFit(fs.dir) && Int32(ifree) && FreeChain(fs, m, ifree, left, junk).Some?
    ensures var fs' := FreeChain(fs, m, ifree, left, junk).value;
      FsFits(fs', k, n) && fs'.dir.files == fs.dir.files
    decreases left
  {
    hide FreeData;
    if m != ifree {
      var ib := fs.ibs[m];
      FreeDataFits(fs, ib.dba, 0, junk, k, n);
      var fs1 := FreeData(fs, ib.dba, 0, junk).value;
      var next := if ib.next == NULL then ifree else ib.next;
      var fs2 := fs1.(ibs := fs1.ibs[m := Ib(next, 0, seq(LF_IBLEN, _ => NULL))]);
      FreeChainFits(fs2, next, ifree, left - {m}, junk, k, n);
    }
  }

  lemma TruncateFits(fs: Fs, c: Cb, junk: int -> Tail, k: nat, n: nat)
    requires Fits(fs, c, k, n) && 0 <= c.ent < |fs.dir.files| && Truncate(fs, c, junk).Some?
    ensures FsFits(Truncate(fs, c, junk).value.0, k, n) && CbFits(Truncate(fs, c, junk).value.1, k, n)
  {
    hide FreeChain, Flush, IbFine;
    if Size(fs, c) != 0 {
      if c.ibdirty || c.dbdirty { FlushFits(fs, c, k, n); }
      var (fs0, c0) := if c.ibdirty || c.dbdirty then Flush(fs, c) else (fs, c);
      var fs1 := fs0.(dir := SetIlist(SetSize(fs0.dir, c.ent, 0), c.ent, NULL), dirty := true);
      FreeChainFits(fs1, fs0.dir.files[c.ent].ilist, fs0.dir.ifree, fs1.ibs.Keys, junk, k, n);
    }
  }

  // ---- steps and runs ----

  ghost predicate AllFit(s: Sys, k: nat, n: nat) {
    FsFits(s.fs, k, n) && forall e :: e in s.open ==> CbFits(s.open[e], k, n)
  }

  /** Names have their place in the directory entry. */
  predicate Named(op: Op) { op.Create? ==> |op.name| == LF_NAME_LEN }

  /** Disks whose size in bytes is below 2^32, as lfscreate asks for. */
  const MAXSECTORS := 0x80_0000

  /** No file is longer than the data area. */
  lemma SizesBound(s: Sys, L: Layout, k: nat, n: nat)
    requires SysInv(s, L) && Area(s.fs, k, n) && n <= MAXSECTORS
    ensures SizesFit(s.fs.dir)
  {
    hide FileInv;
    forall e | 0 <= e < |s.fs.dir.files| ensures Uint32(s.fs.dir.files[e].size) {
      OpenIn(s, L, e);
      assert FileInv(s.fs, L, e, Handle(s, e));
      SizeBound(s.fs, L, e, Handle(s, e), k, n);
    }
  }

  lemma SizeBound(fs: Fs, L: Layout, e: int, oc: Option<Cb>, k: nat, n: nat)
    requires FileInv(fs, L, e, oc) && Area(fs, k, n) && n <= MAXSECTORS
    ensures 0 <= e < |fs.dir.files| && Uint32(fs.dir.files[e].size)
  {
    hide IFreeOk, DFreeOk, Want, CacheOk, Loaded, DataClean;
    var b := L.files[e].blks;
    assert forall i :: 0 <= i < |b| ==> b[i] in fs.blocks;
    Pigeonhole(b, k + 1, n);
  }

  /** What an operation finds. */
  lemma OpenFits(s: Sys, L: Layout, e: int, k: nat, n: nat)
    requires SysInv(s, L) && AllFit(s, k, n) && SizesFit(s.fs.dir) && e in s.open
    ensures OpFits(s.fs, s.open[e], k, n) && s.open[e].ent == e && 0 <= e < |s.fs.dir.files|
  {
    HandleInv(s, L, e);
    hide FsFits, CbFits, SysInv;
    CursorFits(s.fs, L, e, s.open[e], k, n);
  }

  lemma CursorFits(fs: Fs, L: Layout, e: int, c: Cb, k: nat, n: nat)
    requires FileInv(fs, L, e, Some(c)) && Area(fs, k, n) && SizesFit(fs.dir) && |fs.dir.files| == |L.files|
    ensures c.pos < TWO32 && (c.byt < LF_BLKSIZ ==> c.dnum != NULL)
  {
    hide IFreeOk, DFreeOk, Want, CacheOk, DataClean;
    if c.byt < LF_BLKSIZ { assert L.files[e].blks[c.pos / LF_BLKSIZ] in fs.blocks; }
  }

  lemma StepFits(s: Sys, L: Layout, op: Op, junk: int -> Tail, k: nat, n: nat)
    requires SysInv(s, L) && AllFit(s, k, n) && SizesFit(s.fs.dir)
    requires Possible(op) && Named(op) && Step(s, op, junk).Some?
    ensures AllFit(Step(s, op, junk).value.0, k, n)
  {
    hide SysInv, Getc, Putc, Truncate, Close, IbFine;
    var e := op.e;
    OpenIn(s, L, e);
    if e in s.open && !op.Open? && !op.Create? {
      OpenFits(s, L, e, k, n);
      var c := s.open[e];
      match op
      case Get(_) => GetcFits(s.fs, c, k, n);
      case Put(_, ch) => PutcFits(s.fs, c, ch, k, n);
      case Trunc(_) => TruncateFits(s.fs, c, junk, k, n);
      case Shut(_) => CloseFits(s.fs, c, k, n);
      case _ =>
    }
  }

  /** Unwritten changes of the directory belong to files that are open. */
  lemma StepDirty(s: Sys, op: Op, junk: int -> Tail)
    requires Step(s, op, junk).Some? && (s.fs.dirty ==> s.open != map[])
    ensures var s' := Step(s, op, junk).value.0; s'.fs.dirty ==> s'.open != map[]
  {
    hide Getc, Putc, Truncate;
    var s' := Step(s, op, junk).value.0;
    assert op.e in s'.open || s' == s || !s'.fs.dirty;
    assert op.e in s'.open ==> s'.open != map[];
  }

  lemma {:induction false} RunFits(s: Sys, L: Layout, ops: seq<Op>, junk: int -> Tail, k: nat, n: nat)
    requires SysInv(s, L) && AllFit(s, k, n) && n <= MAXSECTORS && (s.fs.dirty ==> s.open != map[])
    requires Run(s, ops, junk).Some? && forall i :: 0 <= i < |ops| ==> Possible(ops[i]) && Named(ops[i])
    ensures var s' := Run(s, ops, junk).value.0; AllFit(s', k, n) && (s'.fs.dirty ==> s'.open != map[])
    decreases |ops|
  {
    hide SysInv, AbsSys, Step, AStep, FsFits, CbFits;
    if ops != [] {
      AreaOf(s.fs, k, n);
      SizesBound(s, L, k, n);
      StepFits(s, L, ops[0], junk, k, n);
      StepDirty(s, ops[0], junk);
      var s1, L1, _ := StepOk(s, L, ops[0], junk);
      RunFits(s1, L1, ops[1..], junk, k, n);
    }
  }

  lemma AreaOf(fs: Fs, k: nat, n: nat)
    requires FsFits(fs, k, n)
    ensures Area(fs, k, n)
  {}

  // ---- the bytes ----

  /** The directory as it lies in memory, with its unused entries, which are taken to be zero. */
  function Padded(d: Dir): (r: Dir)
    requires DirInts(d) && SizesFit(d)
    ensures DirFits(r) && InUse(r) == d
  {
    d.(files := d.files + seq(LF_NUM_DIR_ENT - |d.files|, _ => Ldentry(0, 0, seq(LF_NAME_LEN, _ => 0))))
  }

  /** The first m index blocks written one after the other. */
  ghost function IbsWritten(d: Disk, k: nat, fs: Fs, m: nat): (r: Disk)
    requires FsFits(fs, k, |d|) && m <= IB_PER_SECT * k
    ensures |r| == |d|
  {
    if m == 0 then d
    else
      SectIn(m - 1, k);
      SetIb(IbsWritten(d, k, fs, m - 1), m - 1, EncIb(fs.ibs[m - 1]))
  }

  lemma {:induction false} IbsWrittenOk(d: Disk, k: nat, fs: Fs, m: nat, i: nat)
    requires FsFits(fs, k, |d|) && i < m <= IB_PER_SECT * k
    ensures IbOf(IbsWritten(d, k, fs, m), i) == fs.ibs[i]
    decreases m
  {
    hide SetIb, DecIb, EncIb, GetIb;
    SectIn(m - 1, k);
    SectIn(i, k);
    var d1 := IbsWritten(d, k, fs, m - 1);
    GetSetIb(d1, m - 1, EncIb(fs.ibs[m - 1]), i);
    if i == m - 1 { IbRoundTrip(fs.ibs[i]); } else { IbsWrittenOk(d, k, fs, m - 1, i); }
  }

  /** The disk that says what the file system has on the disk. */
  ghost function Written(d: Disk, k: nat, fs: Fs): (r: Disk)
    requires FsFits(fs, k, |d|)
    ensures |r| == |d|
  {
    seq(|d|, s requires 0 <= s < |d| => SectorOf(d, k, fs, s))
  }

  ghost function SectorOf(d: Disk, k: nat, fs: Fs, s: nat): (r: Sector)
    requires FsFits(fs, k, |d|) && s < |d|
  {
    if s == 0 then EncDir(Padded(fs.ddir), seq(20, _ => 0))
    else if s <= k then IbsWritten(d, k, fs, IB_PER_SECT * k)[s] else fs.blocks[s]
  }

  /** Read back, it is the file system as it starts anew. */
  lemma WrittenOk(d: Disk, k: nat, fs: Fs)
    requires FsFits(fs, k, |d|)
    ensures ViewOf(Written(d, k, fs), k) == Restarted(fs)
  {
    hide EncDir, DecDir, IbsWritten, Padded, DecIb, GetIb, IbFine, DirInts;
    var r := Written(d, k, fs);
    DirRoundTrip(Padded(fs.ddir), seq(20, _ => 0));
    forall i | 0 <= i < IB_PER_SECT * k ensures IbOf(r, i) == fs.ibs[i] {
      SectIn(i, k);
      IbsWrittenOk(d, k, fs, IB_PER_SECT * k, i);
      SameIb(r, IbsWritten(d, k, fs, IB_PER_SECT * k), i);
    }
    assert IbsOf(r, k) == fs.ibs;
    assert BlocksOf(r, k) == fs.blocks;
  }

  lemma SameIb(d: Disk, d': Disk, i: nat)
    requires Sect(i) < |d| == |d'| && d[Sect(i)] == d'[Sect(i)]
    ensures IbOf(d, i) == IbOf(d', i)
  {}

  // ---- from bytes to bytes ----

  /** The file system that is found on a disk. */
  ghost function Mounted(d: Disk, k: nat): Sys requires k < |d| { Sys(ViewOf(d, k), map[]) }

  ghost predicate Good(d: Disk, k: nat, L: Layout) {
    k < |d| <= MAXSECTORS && SysInv(Mounted(d, k), L) && AllFit(Mounted(d, k), k, |d|)
  }

  /** A new disk is good. */
  lemma FormatGood(d: Disk, k: nat)
    requires Formatted(d, k, |d|) && |d| <= MAXSECTORS && k <= |d| / 2
    ensures Good(d, k, LfFormat.NewLayout(k, |d|)) && AbsSys(Mounted(d, k), LfFormat.NewLayout(k, |d|)).files == []
  {
    FormatInv(d, k, Mounted(d, k));
    hide SysInv, AbsSys, LfFormat.NewLayout, ViewOf, DecDir;
    FormatFits(d, k, ViewOf(d, k));
  }

  lemma FormatFits(d: Disk, k: nat, fs: Fs)
    requires Formatted(d, k, |d|) && |d| <= MAXSECTORS && k <= |d| / 2 && fs == ViewOf(d, k)
    ensures FsFits(fs, k, |d|)
  {
    FormatView(d, k, fs);
    hide IbOf;
    forall i | i in fs.ibs ensures IbFine(fs.ibs[i]) { assert fs.ibs[i] == IbOf(d, i); }
    assert fs.ddir == fs.dir;
  }

  /** The state at the end of a run from a disk of bytes, as bytes again. */
  lemma RunOnBytes(d: Disk, k: nat, L: Layout, ops: seq<Op>, junk: int -> Tail)
    returns (d': Disk, s': Sys, L': Layout)
    requires Good(d, k, L) && Run(Mounted(d, k), ops, junk).Some?
    requires forall i :: 0 <= i < |ops| ==> Possible(ops[i]) && Named(ops[i])
    ensures var (a, rs) := ARun(AbsSys(Mounted(d, k), L), ops);
      Run(Mounted(d, k), ops, junk) == Some((s', rs)) && SysInv(s', L') && AbsSys(s', L') == a
    ensures |d'| == |d| && ViewOf(d', k) == Restarted(s'.fs) && AllFit(s', k, |d|)
    ensures Synced(s'.fs) && (s'.fs.dirty ==> s'.open != map[])
  {
    hide SysInv, AbsSys, FsFits, CbFits, Run, ARun, ViewOf, Restarted, Synced;
    var s := Mounted(d, k);
    var rs;
    s', L', rs := RunRefines(s, L, ops, junk);
    MountSynced(d, k);
    RunSynced(s, L, ops, junk);
    RunFits(s, L, ops, junk, k, |d|);
    d' := Written(d, k, s'.fs);
    WrittenOk(d, k, s'.fs);
  }

  lemma MountSynced(d: Disk, k: nat)
    requires k < |d|
    ensures Synced(Mounted(d, k).fs) && !Mounted(d, k).fs.dirty
  {
    hide InUse, DecDir, IbsOf, BlocksOf;
    BehindSelf(ViewOf(d, k).dir);
  }

  /** A disk is mounted, any operations are done on any files, and all files are closed. Any disk that says
      what the file system then has on the disk, whatever its unused bytes are (RunOnBytes has one), is
      good again, and mounted it has the files that the operations have made of the old ones, except that
      the last ones may be missing if they are empty. */
  lemma Session(d: Disk, k: nat, L: Layout, ops: seq<Op>, junk: int -> Tail, d': Disk) returns (L': Layout)
    requires Good(d, k, L) && Run(Mounted(d, k), ops, junk).Some?
    requires forall i :: 0 <= i < |ops| ==> Possible(ops[i]) && Named(ops[i])
    requires Run(Mounted(d, k), ops, junk).value.0.open == map[]
    requires |d'| == |d| && ViewOf(d', k) == Restarted(Run(Mounted(d, k), ops, junk).value.0.fs)
    ensures Good(d', k, L')
    ensures var (was, now) := (ARun(AbsSys(Mounted(d, k), L), ops).0.files, AbsSys(Mounted(d', k), L').files);
      && |now| <= |was| && now == was[..|now|]
      && forall e :: |now| <= e < |was| ==> was[e] == []
  {
    hide SysInv, AbsSys, FsFits, Run, ARun, ViewOf, Behind;
    var _, s', L1 := RunOnBytes(d, k, L, ops, junk);
    L' := Unmounted(s', L1);
    RestartedFits(s'.fs, k, |d|);
  }

  lemma RestartedFits(fs: Fs, k: nat, n: nat)
    requires FsFits(fs, k, n)
    ensures FsFits(Restarted(fs), k, n)
  {}

  lemma Unmounted(s: Sys, L: Layout) returns (L': Layout)
    requires SysInv(s, L) && s.open == map[] && Behind(s.fs.ddir, s.fs.dir)
    ensures SysInv(Sys(Restarted(s.fs), map[]), L')
    ensures var (was, now) := (AbsSys(s, L).files, AbsSys(Sys(Restarted(s.fs), map[]), L').files);
      && |now| <= |was| && now == was[..|now|]
      && forall e :: |now| <= e < |was| ==> was[e] == []
  {
    hide FileInv, Content, Behind, NoBlocks, DiskOk, Restarted, Kept;
    var m := |s.fs.ddir.files|;
    OpenIn(s, L, 0);
    BehindLen(s.fs.ddir, s.fs.dir);
    LateEmpty(s, L, s.fs);
    RestartedOk(s.fs, L);
    L' := Kept(L, m);
    var r := Sys(Restarted(s.fs), map[]);
    forall e | 0 <= e < m ensures FileInv(r.fs, L', e, None) && Content(r.fs, L', e, None) == AbsSys(s, L).files[e] {
      HandleInv(s, L, e);
      RestartedFile(s.fs, L, e);
    }
    forall e | m <= e < |L.files| ensures AbsSys(s, L).files[e] == [] {
      HandleInv(s, L, e);
      BehindLate(s.fs.ddir, s.fs.dir, e);
      EmptyOwns(s.fs, L, e, None);
    }
    assert |L'.files| == m by { KeptLen(L, m); }
    assert AbsSys(r, L').files == AbsSys(s, L).files[..m];
  }

  lemma KeptLen(L: Layout, m: nat)
    requires m <= |L.files|
    ensures |Kept(L, m).files| == m
  {}
}
