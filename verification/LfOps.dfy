/** lflgetc, lflputc, lflseek, lfflush and lflclose refine the byte sequence with a cursor. */
module LfOps {
  import opened Bytes
  import opened Wrappers
  import opened LfCodec
  import opened LfSpec
  import opened LfInv
  import opened LfSetup
  import opened LfFile

  /** No other file is touched. */
  ghost predicate OthersUntouched(fs: Fs, L: Layout, fs': Fs, L': Layout, e: int) {
    |L'.files| == |L.files| && forall g :: 0 <= g < |L.files| && g != e ==> Untouched(fs, L, fs', L', g)
  }

  lemma InvCb(fs: Fs, L: Layout, e: int, c: Cb)
    requires FileInv(fs, L, e, Some(c))
    ensures CbOk(fs, c) && c.ent == e && 0 <= e < |L.files| && 0 <= c.pos <= Size(fs, c)
  {
    hide Owns, IFreeOk, DFreeOk, Want;
  }

  // ---- the common first step of lflgetc and lflputc ----

  function Ready(fs: Fs, c: Cb): Option<(Fs, Cb)>
    requires CbOk(fs, c)
  {
    if c.byt >= LF_BLKSIZ then Setup(fs, c) else Some((fs, c))
  }

  ghost function ReadyLay(L: Layout, e: int, c: Cb): Layout
    requires 0 <= e < |L.files| && 0 <= c.pos && (c.byt >= LF_BLKSIZ ==> HasBlocks(L, e, c.pos))
  {
    if c.byt >= LF_BLKSIZ then SetupLay(L, e, c.pos) else L
  }

  lemma LoadedSetUp(fs: Fs, L: Layout, e: int, c: Cb)
    requires FileInv(fs, L, e, Some(c)) && c.byt < LF_BLKSIZ
    ensures SetUp(fs, L, e, c) && DataClean(fs, c)
  {
    hide CacheOk, Owns, IFreeOk, DFreeOk, Want;
    TightReach(L.files[e], fs.dir.files[e].size, c.pos);
  }

  lemma ReadyOk(fs: Fs, L: Layout, e: int, c: Cb)
    requires FileInv(fs, L, e, Some(c)) && (c.byt >= LF_BLKSIZ ==> HasBlocks(L, e, c.pos))
    ensures CbOk(fs, c) && c.ent == e && Ready(fs, c).Some?
    ensures var ((fs', c'), L') := (Ready(fs, c).value, ReadyLay(L, e, c));
      && Extends(fs, L, c, fs', L', c', e) && SetUp(fs', L', e, c')
      && (c.pos < fs.dir.files[e].size ==> L' == L && DataClean(fs', c'))
  {
    InvCb(fs, L, e, c);
    if c.byt < LF_BLKSIZ {
      LoadedSetUp(fs, L, e, c);
      SameExtends(fs, L, e, c);
    } else {
      SetupOk(fs, L, e, c);
    }
  }

  // ---- lflgetc ----

  lemma SetUpByte(fs: Fs, L: Layout, e: int, c: Cb)
    requires SetUp(fs, L, e, c)
    ensures 0 <= c.byt < LF_BLKSIZ == |c.blk| && ByteAt(fs, L.files[e], Some(c), c.pos) == c.blk[c.byt]
  {
    hide IFreeOk, DFreeOk, Want;
    OwnsSame(L.down, L.down, e, L.files[e].blks);
  }

  /** Reading the byte and stepping on keeps the file as it is. */
  lemma StepOn(fs: Fs, L: Layout, e: int, c: Cb)
    requires SetUp(fs, L, e, c) && c.pos < fs.dir.files[e].size && DataClean(fs, c) && 0 <= c.byt < LF_BLKSIZ
    ensures var c' := c.(byt := c.byt + 1, pos := c.pos + 1);
      && FileInv(fs, L, e, Some(c')) && forall p ::
        ByteAt(fs, L.files[e], Some(c'), p) == ByteAt(fs, L.files[e], Some(c), p)
  {
    hide DiskOk, Owns, Want;
    var c' := c.(byt := c.byt + 1, pos := c.pos + 1);
    assert forall n :: n in fs.ibs ==> IbAt(fs, Some(c'), n) == IbAt(fs, Some(c), n);
    SameIbs(fs, L, e, c, c');
    assert c'.byt < LF_BLKSIZ ==> c'.pos / LF_BLKSIZ == c.pos / LF_BLKSIZ && c'.pos / LF_IDATA == c.pos / LF_IDATA by {
      BlockAndIb(c.pos);
      BlockAndIb(c'.pos);
    }
  }

  lemma SameIbs(fs: Fs, L: Layout, e: int, c: Cb, c': Cb)
    requires FileOk(fs, L, e, Some(c)) && c'.ib == c.ib && c'.inum == c.inum && CacheOk(fs, L, e, c')
    ensures FileOk(fs, L, e, Some(c'))
  {
    hide IFreeOk, DFreeOk, Want;
    var f := L.files[e];
    OwnsSame(L.iown, L.iown, e, f.ch);
    hide Owns;
    forall k | 0 <= k < |f.ch| ensures IbAt(fs, Some(c'), f.ch[k]) == Want(f, k) {
      assert IbAt(fs, Some(c), f.ch[k]) == Want(f, k);
    }
  }

  lemma NeedsNoBlock(L: Layout, e: int, size: int, pos: int)
    requires 0 <= e < |L.files| && Tight(L.files[e], size) && 0 <= pos < size
    ensures HasBlocks(L, e, pos) && SetupLay(L, e, pos) == L
  {
    TightReach(L.files[e], size, pos);
  }

  lemma GetcStep(fs: Fs, L: Layout, e: int, c: Cb, fs1: Fs, c1: Cb)
    requires FileInv(fs, L, e, Some(c)) && Extends(fs, L, c, fs1, L, c1, e) && SetUp(fs1, L, e, c1)
      && DataClean(fs1, c1)
    requires c.pos < fs.dir.files[e].size && 0 <= c1.byt < |c1.blk| == LF_BLKSIZ
    ensures var c2 := c1.(byt := c1.byt + 1, pos := c1.pos + 1);
      && FileInv(fs1, L, e, Some(c2)) && Content(fs1, L, e, Some(c2)) == Content(fs, L, e, Some(c))
      && c1.blk[c1.byt] == Content(fs, L, e, Some(c))[c.pos] && c2.pos == c.pos + 1
  {
    SetUpByte(fs1, L, e, c1);
    StepOn(fs1, L, e, c1);
    InBlocks(fs, L, e, c, c.pos);
    hide FileOk, CacheOk, Untouched, SetUp, Loaded, DataClean, Tight, ByteAt;
    SameBytes(fs, L, e, c, fs1, L, c1.(byt := c1.byt + 1, pos := c1.pos + 1), fs.dir.files[e].size);
  }

  lemma ExtendsUntouched(fs: Fs, L: Layout, c: Cb, fs': Fs, L': Layout, c': Cb, e: int)
    requires Extends(fs, L, c, fs', L', c', e)
    ensures OthersUntouched(fs, L, fs', L', e)
  {
    hide FileOk, ByteAt, Untouched;
  }

  /** lflgetc returns the byte at the cursor, or EOF at the end, and moves the cursor; reading
      never needs a new block. */
  lemma GetcOk(fs: Fs, L: Layout, e: int, c: Cb) returns (fs': Fs, c': Cb, r: int)
    requires FileInv(fs, L, e, Some(c))
    ensures CbOk(fs, c) && Getc(fs, c) == Some((fs', c', r))
    ensures FileInv(fs', L, e, Some(c')) && OthersUntouched(fs, L, fs', L, e)
    ensures AbsOf(fs', L, e, c') == AbsGetc(AbsOf(fs, L, e, c)).0 && r == AbsGetc(AbsOf(fs, L, e, c)).1
  {
    InvCb(fs, L, e, c);
    hide FileInv, Content, SetUp, Setup, DataClean, Extends, OthersUntouched, HasBlocks, SetupLay;
    if c.pos >= Size(fs, c) {
      SameExtends(fs, L, e, c);
      ExtendsUntouched(fs, L, c, fs, L, c, e);
      fs', c', r := fs, c, EOF;
    } else {
      fs', c', r := GetcData(fs, L, e, c);
    }
  }

  lemma GetcData(fs: Fs, L: Layout, e: int, c: Cb) returns (fs': Fs, c': Cb, r: int)
    requires FileInv(fs, L, e, Some(c)) && CbOk(fs, c) && c.ent == e && c.pos < Size(fs, c)
    ensures Getc(fs, c) == Some((fs', c', r))
    ensures FileInv(fs', L, e, Some(c')) && OthersUntouched(fs, L, fs', L, e)
    ensures Content(fs', L, e, Some(c')) == Content(fs, L, e, Some(c)) && r == Content(fs, L, e, Some(c))[c.pos] as int
    ensures c'.pos == c.pos + 1
  {
    hide FileInv, Content, SetUp, Setup, DataClean, Extends, OthersUntouched, HasBlocks, SetupLay;
    GetcBelow(fs, L, e, c);
    ReadyOk(fs, L, e, c);
    var (fs1, c1) := Ready(fs, c).value;
    SetUpByte(fs1, L, e, c1);
    GetcStep(fs, L, e, c, fs1, c1);
    ExtendsUntouched(fs, L, c, fs1, L, c1, e);
    fs', c', r := fs1, c1.(byt := c1.byt + 1, pos := c1.pos + 1), c1.blk[c1.byt] as int;
  }

  lemma GetcBelow(fs: Fs, L: Layout, e: int, c: Cb)
    requires FileInv(fs, L, e, Some(c)) && c.pos < fs.dir.files[e].size
    ensures HasBlocks(L, e, c.pos) && SetupLay(L, e, c.pos) == L
  {
    NeedsNoBlock(L, e, fs.dir.files[e].size, c.pos);
  }

  /** The bytes below the size are those that were there. */
  lemma SameBytes(fs: Fs, L: Layout, e: int, c: Cb, fs': Fs, L': Layout, c': Cb, size: int)
    requires FileInv(fs, L, e, Some(c)) && FileInv(fs', L', e, Some(c'))
    requires size == fs.dir.files[e].size == fs'.dir.files[e].size
    requires forall p :: 0 <= p && p / LF_BLKSIZ < |L.files[e].blks| ==>
      ByteAt(fs', L'.files[e], Some(c'), p) == ByteAt(fs, L.files[e], Some(c), p)
    ensures Content(fs', L', e, Some(c')) == Content(fs, L, e, Some(c))
  {
    hide FileOk, CacheOk, ByteAt, Tight, Loaded, DataClean;
    var (s, s') := (Content(fs, L, e, Some(c)), Content(fs', L', e, Some(c')));
    forall p | 0 <= p < size ensures s'[p] == s[p] { InBlocks(fs, L, e, c, p); }
  }

  lemma InBlocks(fs: Fs, L: Layout, e: int, c: Cb, p: int)
    requires FileInv(fs, L, e, Some(c)) && 0 <= p < fs.dir.files[e].size
    ensures p / LF_BLKSIZ < |L.files[e].blks|
  {
    BlockOf(L.files[e], fs.dir.files[e].size, p);
  }

  // ---- lflputc ----

  lemma PutDisk(fs: Fs, L: Layout, e: int, c: Cb, ch: byte)
    requires SetUp(fs, L, e, c) && 0 <= c.byt < |c.blk| && c.ent == e
    ensures DiskOk(PutByte(fs, c, ch).0, L) && OthersUntouched(fs, L, PutByte(fs, c, ch).0, L, e)
  {
    hide Owns, IFreeOk, DFreeOk, Want, Tight, CacheOk;
    TouchOwn(fs, L, PutByte(fs, c, ch).0, e);
  }

  lemma PutCache(fs: Fs, L: Layout, e: int, c: Cb, ch: byte)
    requires SetUp(fs, L, e, c) && 0 <= c.byt < |c.blk| && c.ent == e
    ensures CacheOk(PutByte(fs, c, ch).0, L, e, PutByte(fs, c, ch).1)
  {
    OwnsSame(L.down, L.down, e, L.files[e].blks);
    hide Owns, IFreeOk, DFreeOk, Want, Tight;
  }

  lemma PutFile(fs: Fs, L: Layout, e: int, c: Cb, ch: byte)
    requires SetUp(fs, L, e, c) && 0 <= c.byt < |c.blk| && c.ent == e
    ensures FileOk(PutByte(fs, c, ch).0, L, e, Some(PutByte(fs, c, ch).1))
  {
    var (fs', c') := PutByte(fs, c, ch);
    var f := L.files[e];
    PutDisk(fs, L, e, c, ch);
    PutCache(fs, L, e, c, ch);
    OwnsSame(L.iown, L.iown, e, f.ch);
    hide Owns, IFreeOk, DFreeOk, Want, Tight, CacheOk, OthersUntouched;
    forall k | 0 <= k < |f.ch| ensures IbAt(fs', Some(c'), f.ch[k]) == Want(f, k) {
      assert IbAt(fs, Some(c), f.ch[k]) == Want(f, k);
    }
  }

  lemma PutFields(fs: Fs, c: Cb, ch: byte)
    requires 0 <= c.byt < |c.blk| && 0 <= c.ent < |fs.dir.files| && c.pos <= Size(fs, c)
    ensures PutByte(fs, c, ch).1 == c.(blk := c.blk[c.byt := ch], byt := c.byt + 1, pos := c.pos + 1, dbdirty := true)
    ensures |PutByte(fs, c, ch).0.dir.files| == |fs.dir.files|
    ensures PutByte(fs, c, ch).0.dir.files[c.ent].size == Reach(Size(fs, c), c.pos)
  {}

  lemma PutInv(fs: Fs, L: Layout, e: int, c: Cb, ch: byte)
    requires SetUp(fs, L, e, c) && 0 <= c.byt < |c.blk| && c.ent == e && 0 <= e < |fs.dir.files|
    ensures FileInv(PutByte(fs, c, ch).0, L, e, Some(PutByte(fs, c, ch).1))
    ensures PutByte(fs, c, ch).0.dir.files[e].size == Reach(fs.dir.files[e].size, c.pos)
    ensures PutByte(fs, c, ch).1.pos == c.pos + 1
  {
    PutFields(fs, c, ch);
    PutFile(fs, L, e, c, ch);
    PutLoaded(L, e, c, PutByte(fs, c, ch).1);
    hide FileOk, Tight, CacheOk, PutByte, Loaded, AtByte, AtIb;
  }

  lemma PutLoaded(L: Layout, e: int, c: Cb, c': Cb)
    requires 0 <= e < |L.files| && 0 <= c.pos && AtIb(L, e, c, c.pos / LF_IDATA) && AtByte(L, e, c)
    requires c'.byt == c.byt + 1 && c'.pos == c.pos + 1 && c'.inum == c.inum && c'.dnum == c.dnum
    ensures Loaded(L.files[e], c')
  {
    StepBlock(c.pos);
  }

  /** The next position is in the same block unless it is a multiple of the block size. */
  lemma StepBlock(p: int)
    requires 0 <= p
    ensures p % LF_BLKSIZ + 1 < LF_BLKSIZ ==>
      (p + 1) % LF_BLKSIZ == p % LF_BLKSIZ + 1 && (p + 1) / LF_BLKSIZ == p / LF_BLKSIZ
        && (p + 1) / LF_IDATA == p / LF_IDATA
  {
    BlockAndIb(p);
    BlockAndIb(p + 1);
  }

  lemma PutBytes(fs: Fs, L: Layout, e: int, c: Cb, ch: byte, p: int)
    requires SetUp(fs, L, e, c) && 0 <= c.byt < |c.blk| && c.ent == e && 0 <= p
    ensures var (fs', c') := PutByte(fs, c, ch);
      ByteAt(fs', L.files[e], Some(c'), p) == if p == c.pos then ch else ByteAt(fs, L.files[e], Some(c), p)
  {
    hide NextOf, Head, Size;
    var f := L.files[e];
    OwnsSame(L.down, L.down, e, f.blks);
    OwnsNoDup(L.down, e, f.blks);
    hide Owns, IFreeOk, DFreeOk, Want, Tight, OthersUntouched;
    var (q, b) := (p / LF_BLKSIZ, c.pos / LF_BLKSIZ);
    if q < |f.blks| {
      assert q != b ==> f.blks[q] != f.blks[b];
      assert p == LF_BLKSIZ * q + p % LF_BLKSIZ && c.pos == LF_BLKSIZ * b + c.pos % LF_BLKSIZ;
    }
  }

  lemma PutcStep(fs: Fs, L: Layout, e: int, c: Cb, fs1: Fs, L1: Layout, c1: Cb, ch: byte)
    requires FileInv(fs, L, e, Some(c)) && Extends(fs, L, c, fs1, L1, c1, e) && SetUp(fs1, L1, e, c1)
    requires 0 <= c1.byt < |c1.blk| && c1.ent == e && 0 <= e < |fs1.dir.files|
    ensures var (fs2, c2) := PutByte(fs1, c1, ch);
      && FileInv(fs2, L1, e, Some(c2)) && OthersUntouched(fs, L, fs2, L1, e)
      && AbsOf(fs2, L1, e, c2) == AbsPutc(AbsOf(fs, L, e, c), ch)
  {
    PutDisk(fs1, L1, e, c1, ch);
    PutInv(fs1, L1, e, c1, ch);
    hide FileOk, CacheOk, SetUp, Loaded, DataClean, Tight, PutByte, Extends, Untouched, OthersUntouched, ByteAt;
    ExtendsSize(fs, L, c, fs1, L1, c1, e);
    PutContent(fs, L, e, c, fs1, L1, c1, ch, PutByte(fs1, c1, ch).0, PutByte(fs1, c1, ch).1);
    UntouchedBoth2(fs, L, e, c, fs1, L1, c1, PutByte(fs1, c1, ch).0);
  }

  lemma PutcIs(fs: Fs, c: Cb, fs1: Fs, c1: Cb, ch: byte)
    requires CbOk(fs, c) && c.pos <= Size(fs, c) && Ready(fs, c).Some? && Ready(fs, c).value == (fs1, c1)
    requires 0 <= c1.byt < |c1.blk| && 0 <= c1.ent < |fs1.dir.files|
    ensures Putc(fs, c, ch) == Some((PutByte(fs1, c1, ch).0, PutByte(fs1, c1, ch).1, true))
  {
    hide Setup, PutByte;
  }

  /** lflputc overwrites the byte at the cursor, or appends it at the end, and moves the cursor;
      it needs no more than the blocks lfsetup asks for. */
  lemma PutcOk(fs: Fs, L: Layout, e: int, c: Cb, ch: byte) returns (fs': Fs, L': Layout, c': Cb)
    requires FileInv(fs, L, e, Some(c)) && (c.byt >= LF_BLKSIZ ==> HasBlocks(L, e, c.pos))
    ensures CbOk(fs, c) && Putc(fs, c, ch) == Some((fs', c', true)) && L' == ReadyLay(L, e, c)
    ensures FileInv(fs', L', e, Some(c')) && OthersUntouched(fs, L, fs', L', e)
    ensures AbsOf(fs', L', e, c') == AbsPutc(AbsOf(fs, L, e, c), ch)
  {
    InvCb(fs, L, e, c);
    hide FileInv, Content, SetUp, Setup, DataClean, Extends, OthersUntouched, HasBlocks, SetupLay, ReadyLay, AbsPutc,
      PutByte;
    ReadyOk(fs, L, e, c);
    L' := ReadyLay(L, e, c);
    var (fs1, c1) := Ready(fs, c).value;
    SetUpByte(fs1, L', e, c1);
    SetUpEnt(fs1, L', e, c1);
    PutcStep(fs, L, e, c, fs1, L', c1, ch);
    PutcIs(fs, c, fs1, c1, ch);
    hide Putc, Ready, CbOk;
    fs', c' := PutByte(fs1, c1, ch).0, PutByte(fs1, c1, ch).1;
  }

  lemma ExtendsSize(fs: Fs, L: Layout, c: Cb, fs': Fs, L': Layout, c': Cb, e: int)
    requires FileInv(fs, L, e, Some(c)) && Extends(fs, L, c, fs', L', c', e)
    ensures c'.pos == c.pos <= fs.dir.files[e].size && 0 <= e < |fs'.dir.files|
      && fs'.dir.files[e].size == fs.dir.files[e].size
  {
    hide Owns, IFreeOk, DFreeOk, Want, ByteAt, Untouched;
  }

  lemma SetUpEnt(fs: Fs, L: Layout, e: int, c: Cb)
    requires SetUp(fs, L, e, c)
    ensures c.ent == e && 0 <= e < |fs.dir.files|
  {}

  lemma UntouchedBoth2(fs: Fs, L: Layout, e: int, c: Cb, fs1: Fs, L1: Layout, c1: Cb, fs2: Fs)
    requires Extends(fs, L, c, fs1, L1, c1, e) && OthersUntouched(fs1, L1, fs2, L1, e)
    ensures OthersUntouched(fs, L, fs2, L1, e)
  {
    hide CacheOk, Want, Untouched, IFreeOk, DFreeOk, ByteAt;
    UntouchedBoth(fs, L, fs1, L1, fs2, L1, e);
  }

  lemma PutContent(fs: Fs, L: Layout, e: int, c: Cb, fs1: Fs, L1: Layout, c1: Cb, ch: byte, fs2: Fs, c2: Cb)
    requires FileInv(fs, L, e, Some(c)) && Extends(fs, L, c, fs1, L1, c1, e) && SetUp(fs1, L1, e, c1)
    requires 0 <= c1.byt < |c1.blk| && c1.ent == e && 0 <= e < |fs1.dir.files| && fs2 == PutByte(fs1, c1, ch).0
      && c2 == PutByte(fs1, c1, ch).1
    requires FileInv(fs2, L1, e, Some(c2)) && fs2.dir.files[e].size == Reach(fs.dir.files[e].size, c.pos)
    requires 0 <= c.pos <= fs.dir.files[e].size
    ensures Content(fs2, L1, e, Some(c2)) == AbsPutc(AbsOf(fs, L, e, c), ch).data
  {
    hide FileOk, CacheOk, ByteAt, Loaded, DataClean, Tight, PutByte, Extends, SetUp, Content, AbsPutc, FileInv;
    var (s, s') := (Content(fs, L, e, Some(c)), Content(fs2, L1, e, Some(c2)));
    forall p | 0 <= p < |s'| ensures (p == c.pos || p < |s|) && s'[p] == if p == c.pos then ch else s[p] {
      PutContentAt(fs, L, e, c, fs1, L1, c1, ch, fs2, c2, p);
    }
    SeqPut(s, s', c.pos, ch);
  }

  lemma SeqPut(s: seq<byte>, s': seq<byte>, pos: nat, ch: byte)
    requires pos <= |s| && |s'| == Reach(|s|, pos)
    requires forall p :: 0 <= p < |s'| ==> (p == pos || p < |s|) && s'[p] == if p == pos then ch else s[p]
    ensures s' == AbsPutc(Abs(s, pos), ch).data
  {}

  lemma PutContentAt(fs: Fs, L: Layout, e: int, c: Cb, fs1: Fs, L1: Layout, c1: Cb, ch: byte, fs2: Fs, c2: Cb, p: int)
    requires FileInv(fs, L, e, Some(c)) && Extends(fs, L, c, fs1, L1, c1, e) && SetUp(fs1, L1, e, c1)
    requires 0 <= c1.byt < |c1.blk| && c1.ent == e && 0 <= e < |fs1.dir.files| && fs2 == PutByte(fs1, c1, ch).0
      && c2 == PutByte(fs1, c1, ch).1
    requires FileInv(fs2, L1, e, Some(c2)) && fs2.dir.files[e].size == Reach(fs.dir.files[e].size, c.pos)
    requires 0 <= p < fs2.dir.files[e].size
    ensures p != c.pos ==> p < |Content(fs, L, e, Some(c))|
    ensures Content(fs2, L1, e, Some(c2))[p] == if p == c.pos then ch else Content(fs, L, e, Some(c))[p]
  {
    hide AtIb, Owns, Tight, PutByte;
    PutBytes(fs1, L1, e, c1, ch, p);
    if p < fs.dir.files[e].size {
      InBlocks(fs, L, e, c, p);
      ExtendsByte(fs, L, c, fs1, L1, c1, e, p);
    }
    ExtendsSize(fs, L, c, fs1, L1, c1, e);
    hide FileOk, CacheOk, ByteAt, Loaded, DataClean, Tight, PutByte, SetUp, Extends;
  }

  lemma ExtendsByte(fs: Fs, L: Layout, c: Cb, fs1: Fs, L1: Layout, c1: Cb, e: int, p: int)
    requires Extends(fs, L, c, fs1, L1, c1, e) && 0 <= e < |L.files| && e < |L1.files|
    requires 0 <= p && p / LF_BLKSIZ < |L.files[e].blks|
    ensures ByteAt(fs1, L1.files[e], Some(c1), p) == ByteAt(fs, L.files[e], Some(c), p)
  {}

  // ---- lflseek ----

  lemma SeekOk(fs: Fs, L: Layout, e: int, c: Cb, offset: nat)
    requires FileInv(fs, L, e, Some(c))
    ensures CbOk(fs, c) && c.ent == e
    ensures var (c', ok) := Seek(fs, c, offset);
      && FileInv(fs, L, e, Some(c'))
      && AbsOf(fs, L, e, c') == AbsSeek(AbsOf(fs, L, e, c), offset).0 && ok == AbsSeek(AbsOf(fs, L, e, c), offset).1
  {
    hide Tight;
    InvCb(fs, L, e, c);
    var (c', ok) := Seek(fs, c, offset);
    SameIbs(fs, L, e, c, c');
    hide FileOk, CacheOk, Tight;
    forall p ensures ByteAt(fs, L.files[e], Some(c'), p) == ByteAt(fs, L.files[e], Some(c), p) {}
    SameBytes(fs, L, e, c, fs, L, c', fs.dir.files[e].size);
  }
}
