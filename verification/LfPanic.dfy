/** lfsetup panics exactly when a block it needs is missing. */
module LfPanic {
  import opened Seqs
  import opened Bytes
  import opened Wrappers
  import opened LfCodec
  import opened LfSpec
  import opened LfInv
  import opened LfSetup
  import opened LfFile
  import opened LfOps

  lemma NoFreeIb(fs: Fs, L: Layout)
    requires DiskOk(fs, L) && L.ifree == []
    ensures IbAlloc(fs).None?
  {
    hide DFreeOk;
  }

  lemma NoFreeDb(fs: Fs, L: Layout)
    requires DiskOk(fs, L) && L.dfree == []
    ensures DbAlloc(fs).None?
  {
    hide IFreeOk;
  }

  /** The walk along the chain goes on to the next index block of the file, */
  lemma WalkOn(fs: Fs, L: Layout, e: int, c: Cb, k: nat) returns (c1: Cb)
    requires 0 <= e < |L.files|
    requires FileOk(fs, L, e, Some(c)) && AtIb(L, e, c, k) && !c.dbdirty && !c.ibdirty && DataClean(fs, c)
    requires 0 <= c.pos && |L.files[e].ch| <= c.pos / LF_IDATA && k + 1 < |L.files[e].ch|
    ensures FileOk(fs, L, e, Some(c1)) && AtIb(L, e, c1, k + 1) && !c1.dbdirty && !c1.ibdirty && DataClean(fs, c1)
    ensures c1.pos == c.pos && Cover(c.pos) > c.ib.offset && NextIb(fs, c) == Some((fs, c1))
  {
    hide DataClean, ByteAt, Untouched, CacheOk, FileOk;
    CachedIb(fs, L, e, c, k);
    BlockAndIb(c.pos);
    LoadIbOk(fs, L, e, c, k + 1, NULL);
    c1 := c.(ib := fs.ibs[L.files[e].ch[k + 1]], inum := L.files[e].ch[k + 1], dnum := NULL);
  }

  /** and at the end of the chain there is none to go on with. */
  lemma WalkEnds(fs: Fs, L: Layout, e: int, c: Cb, k: nat)
    requires 0 <= e < |L.files|
    requires FileOk(fs, L, e, Some(c)) && AtIb(L, e, c, k) && k + 1 >= |L.files[e].ch|
    requires 0 <= c.pos && |L.files[e].ch| <= c.pos / LF_IDATA && L.ifree == []
    ensures Cover(c.pos) > c.ib.offset && NextIb(fs, c).None?
  {
    hide ByteAt, Untouched, CacheOk;
    CachedIb(fs, L, e, c, k);
    BlockAndIb(c.pos);
    NoFreeIb(fs, L);
    hide IFreeOk, DFreeOk, Owns, IbAlloc;
  }

  lemma {:induction false} WalkPanics(fs: Fs, L: Layout, e: int, c: Cb, k: nat)
    requires 0 <= e < |L.files|
    requires FileOk(fs, L, e, Some(c)) && AtIb(L, e, c, k) && !c.dbdirty && !c.ibdirty && DataClean(fs, c)
    requires 0 <= c.pos && |L.files[e].ch| <= c.pos / LF_IDATA && L.ifree == []
    ensures Walk(fs, c).None?
    decreases |L.files[e].ch| - k
  {
    hide FileOk, DataClean, NextIb, AtIb;
    if k + 1 < |L.files[e].ch| {
      var c1 := WalkOn(fs, L, e, c, k);
      WalkPanics(fs, L, e, c1, k + 1);
    } else {
      WalkEnds(fs, L, e, c, k);
    }
  }

  /** The part of FirstIb for a file that has an index block. */
  lemma FirstKeeps(fs: Fs, L: Layout, e: int, c: Cb) returns (k: nat)
    requires FileOk(fs, L, e, Some(c)) && !c.ibdirty && !c.dbdirty && DataClean(fs, c) && L.files[e].ch != []
      && c.ent == e
    ensures 0 <= e < |fs.dir.files| && FirstIb(fs, c).Some?
    ensures var (fs1, c1) := FirstIb(fs, c).value;
      && fs1 == fs && FileOk(fs, L, e, Some(c1)) && AtIb(L, e, c1, k) && c1.pos == c.pos
      && !c1.dbdirty && !c1.ibdirty && DataClean(fs, c1)
  {
    var f := L.files[e];
    assert c.inum != NULL ==> c.inum in f.ch;
    if c.inum == NULL || c.pos < c.ib.offset {
      LoadIbOk(fs, L, e, c, 0, c.dnum);
      k := 0;
    } else {
      k := IndexOf(f.ch, c.inum);
    }
    hide Owns, IFreeOk, DFreeOk, Want, Untouched, ByteAt, CacheOk;
  }

  lemma NoIbPanics(fs: Fs, L: Layout, e: int, c: Cb)
    requires FileInv(fs, L, e, Some(c)) && !c.ibdirty && !c.dbdirty && !HasIb(L, e, c.pos) && c.ent == e
    ensures 0 <= e < |fs.dir.files| && (FirstIb(fs, c).None?
      || Walk(FirstIb(fs, c).value.0, FirstIb(fs, c).value.1).None?)
  {
    if L.files[e].ch == [] {
      NoFreeIb(fs, L);
      hide IFreeOk, DFreeOk, Want, Loaded, DataClean, Tight;
    } else {
      hide Tight, Loaded;
      var k := FirstKeeps(fs, L, e, c);
      hide Owns, Want, CacheOk, FirstIb;
      WalkPanics(fs, L, e, FirstIb(fs, c).value.1, k);
    }
  }

  lemma NoDbPanics(fs: Fs, L: Layout, e: int, c: Cb)
    requires FileOk(fs, L, e, Some(c)) && AtIb(L, e, c, c.pos / LF_IDATA) && 0 <= c.pos
    requires c.pos / LF_BLKSIZ >= |L.files[e].blks| && L.dfree == []
    ensures LoadBlock(fs, c).None?
  {
    CachedIb(fs, L, e, c, c.pos / LF_IDATA);
    BlockAndIb(c.pos);
    NoFreeDb(fs, L);
    hide FileOk, DbAlloc;
  }

  lemma WalkLayDb(L: Layout, e: int, pos: int)
    requires 0 <= e < |L.files| && 0 <= pos && HasIb(L, e, pos)
    ensures WalkLay(L, e, pos).dfree == L.dfree && WalkLay(L, e, pos).files[e].blks == L.files[e].blks
  {}

  /** lfsetup has what it needs exactly when HasBlocks says so. */
  lemma SetupExact(fs: Fs, L: Layout, e: int, c: Cb)
    requires FileInv(fs, L, e, Some(c))
    ensures c.ent == e && (Setup(fs, c).Some? <==> HasBlocks(L, e, c.pos))
  {
    InvCb(fs, L, e, c);
    hide FileInv, Walk, FirstIb, LoadBlock;
    if HasBlocks(L, e, c.pos) {
      SetupOk(fs, L, e, c);
    } else if HasIb(L, e, c.pos) {
      SetupFirst(fs, L, e, c);
      var (fs0, c0) := if c.ibdirty || c.dbdirty then Flush(fs, c) else (fs, c);
      var (fs1, c1) := FirstIb(fs0, c0).value;
      var (fs2, c2) := Walk(fs1, c1).value;
      WalkLayDb(L, e, c.pos);
      WalkedFile(fs, L, c, fs2, WalkLay(L, e, c.pos), c2, e);
      hide Walked, WalkLay;
      NoDbPanics(fs2, WalkLay(L, e, c.pos), e, c2);
    } else {
      FlushedInv(fs, L, e, c);
      NoIbPanics((if c.ibdirty || c.dbdirty then Flush(fs, c) else (fs, c)).0, L, e,
                 (if c.ibdirty || c.dbdirty then Flush(fs, c) else (fs, c)).1);
    }
  }

  lemma WalkedFile(fs: Fs, L: Layout, c: Cb, fs': Fs, L': Layout, c': Cb, e: int)
    requires Walked(fs, L, c, fs', L', c', e)
    ensures FileOk(fs', L', e, Some(c')) && AtIb(L', e, c', c'.pos / LF_IDATA) && 0 <= c'.pos == c.pos
  {
    hide FileOk, ByteAt, Untouched;
  }

  lemma FlushedInv(fs: Fs, L: Layout, e: int, c: Cb)
    requires FileInv(fs, L, e, Some(c))
    ensures var (fs0, c0) := if c.ibdirty || c.dbdirty then Flush(fs, c) else (fs, c);
      FileInv(fs0, L, e, Some(c0)) && !c0.ibdirty && !c0.dbdirty && c0.pos == c.pos && c0.ent == c.ent
  {
    FlushOk(fs, L, e, c);
    hide FileOk, ByteAt, Untouched, Tight, CacheOk, DataClean;
  }

  /** lflputc succeeds exactly when the byte pointer is in the buffer or the blocks are there. */
  lemma PutcExact(fs: Fs, L: Layout, e: int, c: Cb, ch: byte)
    requires FileInv(fs, L, e, Some(c))
    ensures CbOk(fs, c) && (Putc(fs, c, ch).Some? <==> c.byt < LF_BLKSIZ || HasBlocks(L, e, c.pos))
  {
    InvCb(fs, L, e, c);
    hide FileInv, Setup, HasBlocks;
    SetupExact(fs, L, e, c);
    if c.byt < LF_BLKSIZ || HasBlocks(L, e, c.pos) {
      var fs', L', c' := PutcOk(fs, L, e, c, ch);
    }
  }
}
