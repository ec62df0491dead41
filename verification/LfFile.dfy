/** An open local file behaves as a sequence of bytes with a cursor. */
module LfFile {
  import opened Bytes
  import opened Wrappers
  import opened LfCodec
  import opened LfSpec
  import opened LfInv
  import opened LfSetup

  /** The abstract file. */
  datatype Abs = Abs(data: seq<byte>, pos: nat)

  function AbsGetc(a: Abs): (Abs, int) {
    if a.pos < |a.data| then (a.(pos := a.pos + 1), a.data[a.pos] as int) else (a, EOF)
  }

  function AbsPutc(a: Abs, ch: byte): Abs
    requires a.pos <= |a.data|
  {
    Abs(if a.pos < |a.data| then a.data[a.pos := ch] else a.data + [ch], a.pos + 1)
  }

  function AbsSeek(a: Abs, offset: nat): (Abs, bool) {
    if offset <= |a.data| then (a.(pos := offset), true) else (a, false)
  }

  ghost function AbsOf(fs: Fs, L: Layout, e: int, c: Cb): Abs
    requires FileInv(fs, L, e, Some(c))
  {
    Abs(Content(fs, L, e, Some(c)), c.pos)
  }

  /** d is m without some entries at its end, all of empty files without an index block. */
  predicate Behind(d: Dir, m: Dir) {
    && d.dfree == m.dfree && d.ifree == m.ifree && |d.files| <= |m.files|
    && m.nfiles - d.nfiles == |m.files| - |d.files|
    && d.files == m.files[..|d.files|]
    && forall i :: |d.files| <= i < |m.files| ==> m.files[i].size == 0 && m.files[i].ilist == NULL
  }

  /** Unless the directory in memory is marked dirty, the directory sector is it but for files created
      since and still empty. */
  predicate Synced(fs: Fs) { !fs.dirty ==> Behind(fs.ddir, fs.dir) }

  /** The size that the blocks of the file are for once position pos has its blocks. */
  function Reach(size: int, pos: int): int { if pos >= size then pos + 1 else size }

  /** The file is set up for its position. */
  ghost predicate SetUp(fs: Fs, L: Layout, e: int, c: Cb) {
    && FileOk(fs, L, e, Some(c)) && 0 <= c.pos <= fs.dir.files[e].size
    && AtIb(L, e, c, c.pos / LF_IDATA) && AtByte(L, e, c)
    && Tight(L.files[e], Reach(fs.dir.files[e].size, c.pos))
  }

  lemma TightReach(f: FileLay, size: int, pos: int)
    requires Tight(f, size) && 0 <= pos <= size
    ensures pos / LF_BLKSIZ <= |f.blks| && pos / LF_IDATA <= |f.ch|
    ensures pos < size ==> pos / LF_BLKSIZ < |f.blks| && pos / LF_IDATA < |f.ch|
    ensures pos / LF_BLKSIZ == |f.blks| ==> pos == size && size % LF_BLKSIZ == 0
    ensures pos / LF_BLKSIZ < |f.blks| ==> Tight(f, Reach(size, pos)) && pos / LF_IDATA < |f.ch|
    ensures pos / LF_IDATA == |f.ch| ==> pos / LF_BLKSIZ == |f.blks| && |f.blks| == LF_IBLEN * |f.ch|
    ensures pos / LF_BLKSIZ == |f.blks| && pos / LF_IDATA < |f.ch| ==> |f.ch| == (|f.blks| + LF_IBLEN) / LF_IBLEN
  {
    BlockAndIb(pos);
    BlockAndIb(size);
  }

  // ---- lfsetup ----

  /** The layout once the index block for the position is there. */
  ghost function WalkLay(L: Layout, e: int, pos: int): (L': Layout)
    requires 0 <= e < |L.files| && 0 <= pos && HasIb(L, e, pos)
    ensures |L'.files| == |L.files|
  {
    if pos / LF_IDATA < |L.files[e].ch| then L else TakeIb(L, e)
  }

  /** What the loop of lfsetup leaves. */
  ghost predicate Walked(fs: Fs, L: Layout, c: Cb, fs': Fs, L': Layout, c': Cb, e: int) {
    && Extends(fs, L, c, fs', L', c', e) && 0 <= e < |L'.files| && 0 <= c'.pos && AtIb(L', e, c', c'.pos / LF_IDATA)
    && !c'.dbdirty && DataClean(fs', c')
  }

  /** The tightness that lfsetup establishes. */
  lemma ReachTight(f: FileLay, f': FileLay, size: int, pos: int)
    requires Tight(f, size) && 0 <= pos <= size && pos / LF_BLKSIZ == |f.blks|
    requires |f'.blks| == |f.blks| + 1 && |f'.ch| == if pos / LF_IDATA < |f.ch| then |f.ch| else |f.ch| + 1
    ensures Tight(f', Reach(size, pos))
  {
    BlockAndIb(pos);
  }

  lemma SetupOld(fs: Fs, L: Layout, e: int, c: Cb, fs2: Fs, c2: Cb)
    requires FileInv(fs, L, e, Some(c)) && c.pos / LF_BLKSIZ < |L.files[e].blks|
    requires Walked(fs, L, c, fs2, L, c2, e)
    ensures LoadBlock(fs2, c2).Some?
    ensures var (fs', c') := LoadBlock(fs2, c2).value;
      && Extends(fs, L, c, fs', L, c', e) && SetUp(fs', L, e, c') && DataClean(fs', c') && !c'.dbdirty
  {
    var (f, size) := (L.files[e], fs.dir.files[e].size);
    TightReach(f, size, c.pos);
    LoadDataOk(fs2, L, e, c2);
    var (fs', c') := LoadBlock(fs2, c2).value;
    hide FileOk, CacheOk, ByteAt, Untouched, Walk, LoadBlock, DataClean, Tight;
    ExtendsTrans(fs, L, c, fs2, L, c2, fs', L, c', e);
  }

  lemma SetupNew(fs: Fs, L: Layout, e: int, c: Cb, fs2: Fs, L2: Layout, c2: Cb)
    requires FileInv(fs, L, e, Some(c)) && HasBlocks(L, e, c.pos) && c.pos / LF_BLKSIZ == |L.files[e].blks|
    requires L2 == WalkLay(L, e, c.pos) && Walked(fs, L, c, fs2, L2, c2, e)
    ensures LoadBlock(fs2, c2).Some?
    ensures var ((fs', c'), L') := (LoadBlock(fs2, c2).value, TakeDb(L2, e));
      && Extends(fs, L, c, fs', L', c', e) && SetUp(fs', L', e, c') && !c'.dbdirty
  {
    var (f, size) := (L.files[e], fs.dir.files[e].size);
    TightReach(f, size, c.pos);
    LoadNewOk(fs2, L2, e, c2);
    var (fs', c') := LoadBlock(fs2, c2).value;
    var f' := TakeDb(L2, e).files[e];
    assert |f'.blks| == |f.blks| + 1 && |f'.ch| == if c.pos / LF_IDATA < |f.ch| then |f.ch| else |f.ch| + 1;
    ReachTight(f, f', size, c.pos);
    hide FileOk, CacheOk, ByteAt, Untouched, Walk, LoadBlock, DataClean, Tight;
    ExtendsTrans(fs, L, c, fs2, L2, c2, fs', TakeDb(L2, e), c', e);
  }

  /** lfsetup up to its loop. */
  lemma SetupWalk(fs: Fs, L: Layout, e: int, c: Cb, fs1: Fs, L1: Layout, c1: Cb, k: nat)
    requires FileInv(fs, L, e, Some(c)) && HasIb(L, e, c.pos) && Extends(fs, L, c, fs1, L1, c1, e)
    requires L1 == if L.files[e].ch == [] then (if L.ifree == [] then L else TakeIb(L, e)) else L
    requires L.files[e].ch == [] ==> L.ifree != []
    requires AtIb(L1, e, c1, k) && k <= c.pos / LF_IDATA && !c1.dbdirty && DataClean(fs1, c1)
    requires c1.ibdirty ==> k == |L1.files[e].ch| - 1
    ensures Walk(fs1, c1).Some? && Walk(fs1, c1).value.1.pos == c.pos
    ensures Walked(fs, L, c, Walk(fs1, c1).value.0, WalkLay(L, e, c.pos), Walk(fs1, c1).value.1, e)
  {
    var (f, size) := (L.files[e], fs.dir.files[e].size);
    TightReach(f, size, c.pos);
    TightReach(f, size, 0);
    var L2 := WalkOk(fs1, L1, e, c1, k);
    var (fs2, c2) := Walk(fs1, c1).value;
    hide FileOk, CacheOk, ByteAt, Untouched, Walk, DataClean, Tight;
    ExtendsTrans(fs, L, c, fs1, L1, c1, fs2, L2, c2, e);
  }

  lemma SetupFirst(fs: Fs, L: Layout, e: int, c: Cb)
    requires FileInv(fs, L, e, Some(c)) && HasIb(L, e, c.pos)
    ensures var (fs0, c0) := if c.ibdirty || c.dbdirty then Flush(fs, c) else (fs, c);
      && 0 <= c0.ent < |fs0.dir.files| && FirstIb(fs0, c0).Some?
      && var (fs1, c1) := FirstIb(fs0, c0).value;
      && Walk(fs1, c1).Some? && Walk(fs1, c1).value.1.pos == c.pos
      && Walked(fs, L, c, Walk(fs1, c1).value.0, WalkLay(L, e, c.pos), Walk(fs1, c1).value.1, e)
  {
    FlushOk(fs, L, e, c);
    SameExtends(fs, L, e, c);
    var (fs0, c0) := if c.ibdirty || c.dbdirty then Flush(fs, c) else (fs, c);
    assert c0.ent == e && 0 <= e < |fs0.dir.files| && !c0.ibdirty && !c0.dbdirty && DataClean(fs0, c0);
    hide Flush, FileOk, CacheOk, ByteAt, Untouched, Walked, WalkLay, Walk, FirstIb, DataClean, Tight, HasIb;
    var k, L1 := FirstOk(fs0, L, e, c0);
    var (fs1, c1) := FirstIb(fs0, c0).value;
    ExtendsTrans(fs, L, c, fs0, L, c0, fs1, L1, c1, e);
    SetupWalk(fs, L, e, c, fs1, L1, c1, k);
  }

  /** lfsetup succeeds whenever the blocks it needs are there, and sets the file up. */
  lemma SetupOk(fs: Fs, L: Layout, e: int, c: Cb)
    requires FileInv(fs, L, e, Some(c)) && HasBlocks(L, e, c.pos)
    ensures c.ent == e && Setup(fs, c).Some?
    ensures var ((fs', c'), L') := (Setup(fs, c).value, SetupLay(L, e, c.pos));
      && Extends(fs, L, c, fs', L', c', e) && SetUp(fs', L', e, c') && !c'.dbdirty
      && (c.pos < fs.dir.files[e].size ==> L' == L && DataClean(fs', c'))
  {
    hide Extends, Tight, SetUp, AtIb, Owns;
    var (f, size) := (L.files[e], fs.dir.files[e].size);
    TightReach(f, size, c.pos);
    SetupFirst(fs, L, e, c);
    var (fs0, c0) := if c.ibdirty || c.dbdirty then Flush(fs, c) else (fs, c);
    var (fs1, c1) := FirstIb(fs0, c0).value;
    var (fs2, c2) := Walk(fs1, c1).value;
    hide Flush, FileOk, CacheOk, ByteAt, Walk, FirstIb, LoadBlock, DataClean, Tight, Walked, SetUp, Extends;
    if c.pos / LF_BLKSIZ < |f.blks| {
      SetupOld(fs, L, e, c, fs2, c2);
    } else {
      SetupNew(fs, L, e, c, fs2, WalkLay(L, e, c.pos), c2);
    }
  }
}
