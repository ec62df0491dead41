/** What a consistent local file system is: a partition of the index blocks and of the data
    blocks into free lists and files, and control blocks that cache parts of their file. */
module LfInv {
  import opened Kernel
  import opened Seqs
  import opened Bytes
  import opened Wrappers
  import opened LfCodec
  import opened LfSpec

  /** The index blocks of a file in chain order, and its data blocks in file order. */
  datatype FileLay = FileLay(ch: seq<int>, blks: seq<int>)

  /** iown and down name the owner of every index block and of every data block: the entry of a
      file, or FREE. */
  datatype Layout = Layout(ifree: seq<int>, dfree: seq<int>, files: seq<FileLay>,
                           iown: map<int, int>, down: map<int, int>)

  const FREE := -1

  function Head(s: seq<int>): int { if s == [] then NULL else s[0] }

  function NextOf(s: seq<int>, i: int): int { if 0 <= i && i + 1 < |s| then s[i + 1] else NULL }

  /** s lists exactly what e owns. */
  ghost predicate Owns(own: map<int, int>, e: int, s: seq<int>) {
    && NoDup(s)
    && (forall i :: 0 <= i < |s| ==> s[i] in own && own[s[i]] == e)
    && (forall n :: n in own && own[n] == e ==> n in s)
  }

  /** The index block that belongs at place k of the chain. */
  function Want(f: FileLay, k: int): Ib {
    Ib(NextOf(f.ch, k), LF_IDATA * k,
       seq(LF_IBLEN, j => if 0 <= LF_IBLEN * k + j < |f.blks| then f.blks[LF_IBLEN * k + j] else NULL))
  }

  /** The free list of index blocks: s in this order from `head`, through the links on disk. */
  ghost predicate IFreeOk(ibs: map<int, Ib>, head: int, own: map<int, int>, s: seq<int>) {
    && Owns(own, FREE, s) && head == Head(s)
    && (forall i :: 0 <= i < |s| ==> s[i] in ibs && ibs[s[i]].next == NextOf(s, i))
  }

  /** The free list of data blocks, linked through their first words. */
  ghost predicate DFreeOk(blocks: map<int, seq<byte>>, head: int, own: map<int, int>, s: seq<int>) {
    && Owns(own, FREE, s) && head == Head(s)
    && (forall i :: 0 <= i < |s| ==>
          s[i] in blocks && |blocks[s[i]]| == LF_BLKSIZ && DecI(blocks[s[i]][..4]) == NextOf(s, i))
  }

  ghost predicate Sizes(fs: Fs, L: Layout) {
    && L.iown.Keys == fs.ibs.Keys && L.down.Keys == fs.blocks.Keys
    && (forall n :: n in fs.ibs ==> 0 <= n)
    && (forall d :: d in fs.blocks ==> 0 <= d && Int32(d) && |fs.blocks[d]| == LF_BLKSIZ)
    && fs.dir.nfiles == |fs.dir.files| == |L.files|
    && (forall n :: n in L.iown ==> L.iown[n] == FREE || 0 <= L.iown[n] < |L.files|)
    && (forall d :: d in L.down ==> L.down[d] == FREE || 0 <= L.down[d] < |L.files|)
  }

  ghost predicate DiskOk(fs: Fs, L: Layout) {
    && Sizes(fs, L)
    && IFreeOk(fs.ibs, fs.dir.ifree, L.iown, L.ifree)
    && DFreeOk(fs.blocks, fs.dir.dfree, L.down, L.dfree)
  }

  /** The current index block n of a file: the copy in memory if there is one. */
  function IbAt(fs: Fs, oc: Option<Cb>, n: int): Ib
    requires n in fs.ibs
  {
    if oc.Some? && oc.value.inum == n then oc.value.ib else fs.ibs[n]
  }

  /** The current data block d of a file. */
  function DataAt(fs: Fs, oc: Option<Cb>, d: int): seq<byte>
    requires d in fs.blocks
  {
    if oc.Some? && oc.value.dnum == d then oc.value.blk else fs.blocks[d]
  }

  ghost predicate FileOk(fs: Fs, L: Layout, e: int, oc: Option<Cb>) {
    && DiskOk(fs, L) && 0 <= e < |L.files|
    && var f := L.files[e];
       && Owns(L.iown, e, f.ch) && Owns(L.down, e, f.blks)
       && fs.dir.files[e].ilist == Head(f.ch)
       && (forall k :: 0 <= k < |f.ch| ==> IbAt(fs, oc, f.ch[k]) == Want(f, k))
       && (oc.Some? ==> CacheOk(fs, L, e, oc.value))
  }

  /** What is cached belongs to the file; what is not dirty is as on the disk. */
  ghost predicate CacheOk(fs: Fs, L: Layout, e: int, c: Cb) {
    && c.ent == e && |c.blk| == LF_BLKSIZ && 0 <= c.pos && 0 <= c.byt <= LF_BLKSIZ && |c.ib.dba| == LF_IBLEN
    && (c.inum != NULL ==>
      c.inum in L.iown && L.iown[c.inum] == e && (!c.ibdirty ==> c.inum in fs.ibs && c.ib == fs.ibs[c.inum]))
    && (c.dnum != NULL ==> c.dnum in L.down && L.down[c.dnum] == e)
    && (c.inum == NULL ==> !c.ibdirty) && (c.dnum == NULL ==> !c.dbdirty)
  }

  ghost predicate DataClean(fs: Fs, c: Cb) {
    c.dnum != NULL && !c.dbdirty ==> c.dnum in fs.blocks && c.blk == fs.blocks[c.dnum]
  }

  /** Exactly as many blocks as the size needs. */
  predicate Tight(f: FileLay, size: int) {
    |f.blks| == (size + LF_BLKSIZ - 1) / LF_BLKSIZ && |f.ch| == (|f.blks| + LF_IBLEN - 1) / LF_IBLEN
  }

  /** A byte pointer inside the buffer is the pointer for the position. */
  ghost predicate Loaded(f: FileLay, c: Cb) {
    c.byt < LF_BLKSIZ ==>
      && 0 <= c.pos && c.byt == c.pos % LF_BLKSIZ
      && c.pos / LF_BLKSIZ < |f.blks| && c.dnum == f.blks[c.pos / LF_BLKSIZ]
      && c.pos / LF_IDATA < |f.ch| && c.inum == f.ch[c.pos / LF_IDATA]
  }

  /** What holds of a file, open or not, between two operations. */
  ghost predicate FileInv(fs: Fs, L: Layout, e: int, oc: Option<Cb>) {
    && FileOk(fs, L, e, oc)
    && 0 <= fs.dir.files[e].size && Tight(L.files[e], fs.dir.files[e].size)
    && (oc.Some? ==> oc.value.pos <= fs.dir.files[e].size && Loaded(L.files[e], oc.value) && DataClean(fs, oc.value))
  }

  /** The bytes of a file: the disk overlaid by what the control block caches. */
  ghost function Content(fs: Fs, L: Layout, e: int, oc: Option<Cb>): (s: seq<byte>)
    requires FileInv(fs, L, e, oc)
    ensures |s| == fs.dir.files[e].size
  {
    seq(fs.dir.files[e].size, p requires 0 <= p < fs.dir.files[e].size => ByteAt(fs, L.files[e], oc, p))
  }

  /** Byte p of a file; '+' where there is no block. */
  function ByteAt(fs: Fs, f: FileLay, oc: Option<Cb>, p: int): byte {
    if 0 <= p && p / LF_BLKSIZ < |f.blks| && f.blks[p / LF_BLKSIZ] in fs.blocks
      && |DataAt(fs, oc, f.blks[p / LF_BLKSIZ])| == LF_BLKSIZ
    then DataAt(fs, oc, f.blks[p / LF_BLKSIZ])[p % LF_BLKSIZ] else DFILL
  }

  lemma OwnsSame(own: map<int, int>, own': map<int, int>, g: int, s: seq<int>)
    requires Owns(own, g, s) && (forall n :: n in own' && own'[n] == g <==> n in own && own[n] == g)
    ensures Owns(own', g, s)
    ensures forall i :: 0 <= i < |s| ==> s[i] in own && own[s[i]] == g
  {
    forall i | 0 <= i < |s| ensures s[i] in own' && own'[s[i]] == g {
      var x := s[i];
      assert x in own && own[x] == g;
    }
  }

  // ---- other files ----

  /** Everything that belongs to file g is as it was. */
  ghost predicate Untouched(fs: Fs, L: Layout, fs': Fs, L': Layout, g: int) {
    && |L'.files| == |L.files| && |fs'.dir.files| == |fs.dir.files|
    && 0 <= g < |L.files| && g < |fs.dir.files|
    && L'.files[g] == L.files[g] && fs'.dir.files[g] == fs.dir.files[g]
    && (forall n :: n in L'.iown && L'.iown[n] == g <==> n in L.iown && L.iown[n] == g)
    && (forall d :: d in L'.down && L'.down[d] == g <==> d in L.down && L.down[d] == g)
    && (forall n :: n in L.iown && L.iown[n] == g && n in fs.ibs ==> n in fs'.ibs && fs'.ibs[n] == fs.ibs[n])
    && (forall d :: d in L.down && L.down[d] == g && d in fs.blocks ==>
      d in fs'.blocks && fs'.blocks[d] == fs.blocks[d])
  }

  lemma UntouchedCache(fs: Fs, L: Layout, fs': Fs, L': Layout, g: int, c: Cb)
    requires DiskOk(fs, L) && DiskOk(fs', L') && Untouched(fs, L, fs', L', g) && CacheOk(fs, L, g, c)
    ensures CacheOk(fs', L', g, c) && (DataClean(fs, c) ==> DataClean(fs', c))
  {
    hide Owns;
  }

  lemma UntouchedBlocks(fs: Fs, L: Layout, fs': Fs, L': Layout, g: int, oc: Option<Cb>)
    requires FileOk(fs, L, g, oc) && DiskOk(fs', L') && Untouched(fs, L, fs', L', g)
    ensures FileOk(fs', L', g, oc)
    ensures forall p :: ByteAt(fs', L.files[g], oc, p) == ByteAt(fs, L.files[g], oc, p)
  {
    hide Want, CacheOk;
    var f := L.files[g];
    OwnsSame(L.iown, L'.iown, g, f.ch);
    OwnsSame(L.down, L'.down, g, f.blks);
    if oc.Some? { UntouchedCache(fs, L, fs', L', g, oc.value); }
    hide Owns;
    forall k | 0 <= k < |f.ch| ensures IbAt(fs', oc, f.ch[k]) == Want(f, k) {
      assert IbAt(fs, oc, f.ch[k]) == Want(f, k);
    }
  }

  /** An operation that leaves everything of a file alone leaves its bytes alone, also when the
      file is open and partly cached. */
  lemma UntouchedFile(fs: Fs, L: Layout, fs': Fs, L': Layout, g: int, oc: Option<Cb>)
    requires FileInv(fs, L, g, oc) && DiskOk(fs', L') && Untouched(fs, L, fs', L', g)
    ensures FileInv(fs', L', g, oc) && Content(fs', L', g, oc) == Content(fs, L, g, oc)
  {
    hide Loaded, DiskOk, CacheOk, Owns, ByteAt;
    UntouchedBlocks(fs, L, fs', L', g, oc);
    if oc.Some? { UntouchedCache(fs, L, fs', L', g, oc.value); }
  }

  /** Every position below the size has a data block and an index block. */
  lemma BlockOf(f: FileLay, size: int, p: int)
    requires Tight(f, size) && 0 <= p < size
    ensures p / LF_BLKSIZ < |f.blks| && p / LF_IDATA < |f.ch|
  {
    BlockAndIb(p);
    BlockAndIb(size - 1);
  }

  /** Block number and place in the chain of a position. */
  lemma BlockAndIb(p: int)
    requires 0 <= p
    ensures p / LF_IDATA == p / LF_BLKSIZ / LF_IBLEN
    ensures p % LF_IDATA / LF_BLKSIZ == p / LF_BLKSIZ % LF_IBLEN
    ensures LF_IBLEN * (p / LF_IDATA) + p % LF_IDATA / LF_BLKSIZ == p / LF_BLKSIZ
    ensures Cover(p) == LF_IDATA * (p / LF_IDATA)
  {
    var b := p / LF_BLKSIZ;
    assert p == LF_IDATA * (b / LF_IBLEN) + (LF_BLKSIZ * (b % LF_IBLEN) + p % LF_BLKSIZ);
  }

  lemma UntouchedTrans(a: Fs, La: Layout, b: Fs, Lb: Layout, c: Fs, Lc: Layout, g: int)
    requires Untouched(a, La, b, Lb, g) && Untouched(b, Lb, c, Lc, g)
    requires La.iown.Keys <= a.ibs.Keys && La.down.Keys <= a.blocks.Keys
    ensures Untouched(a, La, c, Lc, g)
  {}

  // ---- moving a block from one owner to another ----

  lemma OwnMove(own: map<int, int>, a: int, b: int, s: seq<int>, t: seq<int>)
    requires a != b && s != [] && Owns(own, a, s) && Owns(own, b, t)
    ensures Owns(own[s[0] := b], a, s[1..]) && Owns(own[s[0] := b], b, t + [s[0]])
  {
    TailMembers(s);
    var x := s[0];
    assert x !in t;
    forall n | n in own[x := b] && own[x := b][n] == b ensures n in t + [x] {
      if n != x { assert n in t; }
    }
  }

  // ---- the free lists under writes to the disk and under allocation ----

  lemma IFreePut(ibs: map<int, Ib>, head: int, own: map<int, int>, s: seq<int>, n: int, b: Ib)
    requires IFreeOk(ibs, head, own, s) && n in own && own[n] != FREE
    ensures IFreeOk(ibs[n := b], head, own, s)
  {}

  lemma DFreePut(blocks: map<int, seq<byte>>, head: int, own: map<int, int>, s: seq<int>, d: int, b: seq<byte>)
    requires DFreeOk(blocks, head, own, s) && d in own && own[d] != FREE
    ensures DFreeOk(blocks[d := b], head, own, s)
  {}

  lemma IFreePop(ibs: map<int, Ib>, head: int, own: map<int, int>, s: seq<int>, e: int, t: seq<int>)
    requires IFreeOk(ibs, head, own, s) && s != [] && e != FREE && Owns(own, e, t)
    ensures head == s[0] && head in ibs && head in own && own[head] == FREE && head !in t
    ensures IFreeOk(ibs, ibs[head].next, own[head := e], s[1..]) && Owns(own[head := e], e, t + [head])
  {
    OwnMove(own, FREE, e, s, t);
  }

  lemma DFreePop(blocks: map<int, seq<byte>>, head: int, own: map<int, int>, s: seq<int>, e: int, t: seq<int>)
    requires DFreeOk(blocks, head, own, s) && s != [] && e != FREE && Owns(own, e, t)
    ensures head == s[0] && head in blocks && head in own && own[head] == FREE && head !in t
    ensures |blocks[head]| == LF_BLKSIZ
    ensures DFreeOk(blocks, DecI(blocks[head][..4]), own[head := e], s[1..]) && Owns(own[head := e], e, t + [head])
  {
    OwnMove(own, FREE, e, s, t);
  }
}
