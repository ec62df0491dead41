/** Write-back: the directory sector never falls behind unnoticed, and after lfflush or lflclose
    the disk alone represents the file. */
module LfSync {
  import opened Bytes
  import opened Wrappers
  import opened LfCodec
  import opened LfSpec
  import opened LfInv
  import opened LfSetup
  import opened LfFile
  import opened LfOps

  lemma {:induction false} WalkSynced(fs: Fs, c: Cb)
    requires Synced(fs) && Walk(fs, c).Some?
    ensures Synced(Walk(fs, c).value.0)
    decreases Cover(c.pos) - c.ib.offset
  {
    if Cover(c.pos) > c.ib.offset {
      var (fs1, c1) := NextIb(fs, c).value;
      WalkSynced(fs1, c1);
    }
  }

  /** lfsetup links a new first index block into the directory in memory only, without marking it
      dirty; the data block that it then has to allocate writes the directory. */
  lemma SetupSynced(fs: Fs, c: Cb)
    requires 0 <= c.ent < |fs.dir.files| && 0 <= c.pos && Synced(fs) && Setup(fs, c).Some?
    requires c.inum == NULL && fs.dir.files[c.ent].ilist == NULL ==> c.pos == 0
    ensures Synced(Setup(fs, c).value.0)
  {
    hide Walk, LoadBlock, Behind, FirstIb, Flush, Cover;
    var r := if c.ibdirty || c.dbdirty then Flush(fs, c) else (fs, c);
    if c.ibdirty || c.dbdirty { FlushSynced(fs, c); }
    FirstSynced(r.0, r.1);
    var q := FirstIb(r.0, r.1).value;
    if r.1.inum == NULL && r.0.dir.files[c.ent].ilist == NULL { NoWalk(q.0, q.1); } else { WalkSynced(q.0, q.1); }
    LoadSynced(Walk(q.0, q.1).value.0, Walk(q.0, q.1).value.1);
  }

  lemma FlushSynced(fs: Fs, c: Cb)
    requires Synced(fs)
    ensures Synced(Flush(fs, c).0) && Flush(fs, c).0.dir == fs.dir
    ensures Flush(fs, c).1.pos == c.pos && Flush(fs, c).1.ent == c.ent && Flush(fs, c).1.inum == c.inum
  {}

  lemma FirstSynced(fs: Fs, c: Cb)
    requires 0 <= c.ent < |fs.dir.files| && Synced(fs) && FirstIb(fs, c).Some?
    ensures FirstIb(fs, c).value.1.pos == c.pos
    ensures if c.inum == NULL && fs.dir.files[c.ent].ilist == NULL then FirstIb(fs, c).value.1.ib == IbClear(0)
            else FirstIb(fs, c).value.0 == fs
  {}

  lemma NoWalk(fs: Fs, c: Cb)
    requires c.pos == 0 && c.ib == IbClear(0)
    ensures Walk(fs, c) == Some((fs, c))
  {}

  lemma LoadSynced(fs: Fs, c: Cb)
    requires 0 <= c.pos && (Synced(fs) || c.ib == IbClear(0)) && LoadBlock(fs, c).Some?
    ensures Synced(LoadBlock(fs, c).value.0)
  {}

  /** Only a file without bytes has no index block. */
  lemma NoIbEmpty(fs: Fs, L: Layout, e: int, oc: Option<Cb>)
    requires FileInv(fs, L, e, oc) && fs.dir.files[e].ilist == NULL
    ensures L.files[e].ch == [] && fs.dir.files[e].size == 0
  {
    hide IFreeOk, DFreeOk, Want, CacheOk;
  }

  lemma GetcSynced(fs: Fs, c: Cb)
    requires CbOk(fs, c) && Synced(fs) && (fs.dir.files[c.ent].ilist == NULL ==> c.pos == 0) && Getc(fs, c).Some?
    ensures Synced(Getc(fs, c).value.0)
  {
    hide Setup;
    if Setup(fs, c).Some? { SetupSynced(fs, c); }
  }

  lemma PutcSynced(fs: Fs, c: Cb, ch: byte)
    requires CbOk(fs, c) && Synced(fs) && (fs.dir.files[c.ent].ilist == NULL ==> c.pos == 0) && Putc(fs, c, ch).Some?
    ensures Synced(Putc(fs, c, ch).value.0)
  {
    hide Setup;
    if Setup(fs, c).Some? { SetupSynced(fs, c); }
  }

  lemma OpsSynced(fs: Fs, L: Layout, e: int, c: Cb, ch: byte)
    requires FileInv(fs, L, e, Some(c)) && Synced(fs)
    ensures CbOk(fs, c)
    ensures Getc(fs, c).Some? ==> Synced(Getc(fs, c).value.0)
    ensures Putc(fs, c, ch).Some? ==> Synced(Putc(fs, c, ch).value.0)
    ensures Synced(Close(fs, c).0)
  {
    InvCb(fs, L, e, c);
    if fs.dir.files[e].ilist == NULL { NoIbEmpty(fs, L, e, Some(c)); }
    hide FileInv, Getc, Putc, CbOk;
    if Getc(fs, c).Some? { GetcSynced(fs, c); }
    if Putc(fs, c, ch).Some? { PutcSynced(fs, c, ch); }
  }

  /** After lfflush the directory sector is the directory in memory if that was dirty, and as before if
      not; the file on disk, without the control block, has the same bytes. */
  lemma FlushedOnDisk(fs: Fs, L: Layout, e: int, c: Cb)
    requires FileInv(fs, L, e, Some(c))
    ensures Flush(fs, c).0.ddir == (if fs.dirty then fs.dir else fs.ddir) && Flush(fs, c).0.dir == fs.dir
    ensures FileInv(Flush(fs, c).0, L, e, None)
    ensures Content(Flush(fs, c).0, L, e, None) == Content(fs, L, e, Some(c))
    ensures OthersUntouched(fs, L, Flush(fs, c).0, L, e)
  {
    FlushOk(fs, L, e, c);
    var (fs', c') := Flush(fs, c);
    ExtendsUntouched(fs, L, c, fs', L, c', e);
    FlushSize(fs, L, e, c);
    CleanOnDisk(fs', L, e, c');
    hide FileOk, ByteAt, Untouched, Tight, Loaded, CacheOk, Flush, DataClean;
    var (s, s') := (Content(fs, L, e, Some(c)), Content(fs', L, e, None));
    forall p | 0 <= p < |s| ensures s'[p] == s[p] { InBlocks(fs, L, e, c, p); }
  }

  lemma FlushSize(fs: Fs, L: Layout, e: int, c: Cb)
    requires FileInv(fs, L, e, Some(c))
    ensures Flush(fs, c).0.dir == fs.dir && FileInv(Flush(fs, c).0, L, e, Some(Flush(fs, c).1))
  {
    FlushOk(fs, L, e, c);
    hide FileOk, ByteAt, Untouched, Tight, CacheOk, DataClean;
  }

  /** With nothing dirty the disk has it all. */
  lemma CleanOnDisk(fs: Fs, L: Layout, e: int, c: Cb)
    requires FileInv(fs, L, e, Some(c)) && !c.ibdirty && !c.dbdirty
    ensures FileInv(fs, L, e, None)
    ensures forall p :: ByteAt(fs, L.files[e], None, p) == ByteAt(fs, L.files[e], Some(c), p)
  {
    var f := L.files[e];
    OwnsSame(L.iown, L.iown, e, f.ch);
    assert forall n :: n in fs.ibs && c.inum != NULL ==> IbAt(fs, None, n) == IbAt(fs, Some(c), n);
    hide IFreeOk, DFreeOk, Want, Owns, Tight, Loaded;
    forall k | 0 <= k < |f.ch| ensures IbAt(fs, None, f.ch[k]) == Want(f, k) {
      assert IbAt(fs, Some(c), f.ch[k]) == Want(f, k);
    }
  }

  /** What lfsopen leaves in the control block of an existing file. */
  function Opened(e: int, ib: Ib, blk: seq<byte>): Cb { Cb(e, 0, NULL, ib, NULL, blk, LF_BLKSIZ, false, false) }

  lemma OpenedOk(fs: Fs, L: Layout, e: int, ib: Ib, blk: seq<byte>)
    requires FileInv(fs, L, e, None) && |blk| == LF_BLKSIZ && |ib.dba| == LF_IBLEN
    ensures FileInv(fs, L, e, Some(Opened(e, ib, blk)))
    ensures AbsOf(fs, L, e, Opened(e, ib, blk)) == Abs(Content(fs, L, e, None), 0)
  {
    var c := Opened(e, ib, blk);
    var f := L.files[e];
    OwnsSame(L.iown, L.iown, e, f.ch);
    OwnsSame(L.down, L.down, e, f.blks);
    hide IFreeOk, DFreeOk, Want, Owns;
    forall k | 0 <= k < |f.ch| ensures IbAt(fs, Some(c), f.ch[k]) == Want(f, k) {
      assert IbAt(fs, None, f.ch[k]) == Want(f, k);
    }
    hide FileOk, CacheOk;
    forall p ensures ByteAt(fs, f, Some(c), p) == ByteAt(fs, f, None, p) {}
  }

  // ---- the disk alone ----

  /** The disk as a system finds it that starts anew: the directory is read from its sector. */
  function Restarted(fs: Fs): Fs { fs.(dir := fs.ddir, dirty := false) }

  /** ... on which the files that are not in the directory sector do not exist. */
  function Kept(L: Layout, n: nat): Layout
    requires n <= |L.files|
  {
    L.(files := L.files[..n])
  }

  ghost predicate NoBlocks(L: Layout, e: int) {
    (forall n :: n in L.iown ==> L.iown[n] != e) && (forall d :: d in L.down ==> L.down[d] != e)
  }

  lemma EmptyOwns(fs: Fs, L: Layout, e: int, oc: Option<Cb>)
    requires FileInv(fs, L, e, oc) && fs.dir.files[e].ilist == NULL
    ensures NoBlocks(L, e) && Content(fs, L, e, oc) == []
  {
    NoIbEmpty(fs, L, e, oc);
    hide DiskOk, Want, CacheOk;
    assert L.files[e].blks == [];
  }

  /** The files created since own nothing, so that the disk is consistent without them. */
  lemma RestartedOk(fs: Fs, L: Layout)
    requires DiskOk(fs, L) && Behind(fs.ddir, fs.dir)
    requires forall e :: |fs.ddir.files| <= e < |L.files| ==> NoBlocks(L, e)
    ensures DiskOk(Restarted(fs), Kept(L, |fs.ddir.files|))
  {
    hide Owns;
    var L' := Kept(L, |fs.ddir.files|);
    forall n | n in L'.iown ensures L'.iown[n] == FREE || 0 <= L'.iown[n] < |L'.files| {
      assert |L'.files| <= L.iown[n] < |L.files| ==> NoBlocks(L, L.iown[n]);
    }
    forall d | d in L'.down ensures L'.down[d] == FREE || 0 <= L'.down[d] < |L'.files| {
      assert |L'.files| <= L.down[d] < |L.files| ==> NoBlocks(L, L.down[d]);
    }
  }

  lemma RestartedFile(fs: Fs, L: Layout, e: int)
    requires FileInv(fs, L, e, None) && Behind(fs.ddir, fs.dir) && e < |fs.ddir.files| <= |L.files|
    requires DiskOk(Restarted(fs), Kept(L, |fs.ddir.files|))
    ensures FileInv(Restarted(fs), Kept(L, |fs.ddir.files|), e, None)
    ensures Content(Restarted(fs), Kept(L, |fs.ddir.files|), e, None) == Content(fs, L, e, None)
  {
    hide DiskOk, Want, Owns;
    var fs', L' := Restarted(fs), Kept(L, |fs.ddir.files|);
    assert fs'.dir.files[e] == fs.dir.files[e] && L'.files[e] == L.files[e];
    assert forall n :: n in fs.ibs ==> IbAt(fs', None, n) == IbAt(fs, None, n);
    assert forall p :: ByteAt(fs', L.files[e], None, p) == ByteAt(fs, L.files[e], None, p);
  }
}
