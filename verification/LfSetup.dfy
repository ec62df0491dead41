/** lfflush and the steps of lfsetup keep a consistent file system, keep the bytes of every file,
    and extend only the file they work for. */
module LfSetup {
  import opened Kernel
  import opened Seqs
  import opened Wrappers
  import opened LfCodec
  import opened LfSpec
  import opened LfInv

  /** From (fs, c) to (fs', c') the file of entry e keeps its bytes and may get longer chains, and
      no other file is touched. */
  ghost predicate Extends(fs: Fs, L: Layout, c: Cb, fs': Fs, L': Layout, c': Cb, e: int) {
    && FileOk(fs, L, e, Some(c)) && FileOk(fs', L', e, Some(c')) && |L'.files| == |L.files|
    && c'.pos == c.pos && fs'.dir.files[e].size == fs.dir.files[e].size
    && L.files[e].blks <= L'.files[e].blks && L.files[e].ch <= L'.files[e].ch
    && (forall g :: 0 <= g < |L.files| && g != e ==> Untouched(fs, L, fs', L', g))
    && (forall p :: 0 <= p && p / LF_BLKSIZ < |L.files[e].blks| ==>
          ByteAt(fs', L'.files[e], Some(c'), p) == ByteAt(fs, L.files[e], Some(c), p))
  }

  lemma ExtendsTrans(fs: Fs, L: Layout, c: Cb, fs1: Fs, L1: Layout, c1: Cb, fs2: Fs, L2: Layout, c2: Cb, e: int)
    requires Extends(fs, L, c, fs1, L1, c1, e) && Extends(fs1, L1, c1, fs2, L2, c2, e)
    ensures Extends(fs, L, c, fs2, L2, c2, e)
  {
    hide Owns, Want, CacheOk, ByteAt;
    forall g | 0 <= g < |L.files| && g != e ensures Untouched(fs, L, fs2, L2, g) {
      UntouchedTrans(fs, L, fs1, L1, fs2, L2, g);
    }
  }

  // ---- lfflush ----

  lemma FlushDisk(fs: Fs, L: Layout, e: int, c: Cb)
    requires FileOk(fs, L, e, Some(c))
    ensures DiskOk(Flush(fs, c).0, L)
    ensures forall g :: 0 <= g < |L.files| && g != e ==> Untouched(fs, L, Flush(fs, c).0, L, g)
  {
    hide Want, Owns, IFreeOk, DFreeOk, Head;
    if c.ibdirty { IFreePut(fs.ibs, fs.dir.ifree, L.iown, L.ifree, c.inum, c.ib); }
    if c.dbdirty { DFreePut(fs.blocks, fs.dir.dfree, L.down, L.dfree, c.dnum, c.blk); }
  }

  lemma FlushCache(fs: Fs, L: Layout, e: int, c: Cb)
    requires FileOk(fs, L, e, Some(c))
    ensures CacheOk(Flush(fs, c).0, L, e, Flush(fs, c).1)
  {
    hide Want, Owns, IFreeOk, DFreeOk;
  }

  lemma FlushFile(fs: Fs, L: Layout, e: int, c: Cb)
    requires FileOk(fs, L, e, Some(c))
    ensures FileOk(Flush(fs, c).0, L, e, Some(Flush(fs, c).1))
  {
    hide Want, IFreeOk, DFreeOk, Sizes, DiskOk, ByteAt;
    FlushDisk(fs, L, e, c);
    FlushCache(fs, L, e, c);
    var (fs', c') := Flush(fs, c);
    var f := L.files[e];
    OwnsSame(L.iown, L.iown, e, f.ch);
    assert forall n :: n in fs.ibs && c.inum != NULL ==> IbAt(fs', Some(c'), n) == IbAt(fs, Some(c), n);
  }

  lemma FlushBytes(fs: Fs, L: Layout, e: int, c: Cb, p: int)
    requires FileOk(fs, L, e, Some(c))
    ensures ByteAt(Flush(fs, c).0, L.files[e], Some(Flush(fs, c).1), p) == ByteAt(fs, L.files[e], Some(c), p)
  {
    hide Want, Owns, IFreeOk, DFreeOk;
  }

  /** Writing back changes no byte of any file and leaves nothing dirty. */
  lemma FlushOk(fs: Fs, L: Layout, e: int, c: Cb)
    requires FileOk(fs, L, e, Some(c))
    ensures var (fs', c') := Flush(fs, c);
      && Extends(fs, L, c, fs', L, c', e) && fs'.dir == fs.dir
      && !c'.ibdirty && !c'.dbdirty && (DataClean(fs, c) ==> DataClean(fs', c'))
      && c' == c.(ibdirty := false, dbdirty := false)
  {
    FlushDisk(fs, L, e, c);
    FlushFile(fs, L, e, c);
    hide FileOk, ByteAt, Untouched, DiskOk;
    forall p { FlushBytes(fs, L, e, c, p); }
  }

  // ---- taking a block from a free list ----

  ghost function TakeIb(L: Layout, e: int): Layout
    requires L.ifree != [] && 0 <= e < |L.files|
  {
    L.(ifree := L.ifree[1..], iown := L.iown[L.ifree[0] := e],
       files := L.files[e := L.files[e].(ch := L.files[e].ch + [L.ifree[0]])])
  }

  ghost function TakeDb(L: Layout, e: int): Layout
    requires L.dfree != [] && 0 <= e < |L.files|
  {
    L.(dfree := L.dfree[1..], down := L.down[L.dfree[0] := e],
       files := L.files[e := L.files[e].(blks := L.files[e].blks + [L.dfree[0]])])
  }

  lemma IbAllocOk(fs: Fs, L: Layout, e: int)
    requires DiskOk(fs, L) && L.ifree != [] && 0 <= e < |L.files| && Owns(L.iown, e, L.files[e].ch)
    ensures IbAlloc(fs).Some? && IbAlloc(fs).value.1 == L.ifree[0]
    ensures var (fs', L') := (IbAlloc(fs).value.0, TakeIb(L, e));
      && DiskOk(fs', L') && Owns(L'.iown, e, L'.files[e].ch) && L.ifree[0] !in L.files[e].ch
      && fs'.ibs == fs.ibs && fs'.blocks == fs.blocks && fs'.dir == fs.dir.(ifree := fs'.dir.ifree)
      && fs'.ddir == fs'.dir && !fs'.dirty
      && (forall g :: 0 <= g < |L.files| && g != e ==> Untouched(fs, L, fs', L', g))
  {
    hide IFreeOk, Owns;
    IFreePop(fs.ibs, fs.dir.ifree, L.iown, L.ifree, e, L.files[e].ch);
    hide Owns, IFreeOk, DFreeOk;
  }

  lemma DbAllocOk(fs: Fs, L: Layout, e: int)
    requires DiskOk(fs, L) && L.dfree != [] && 0 <= e < |L.files| && Owns(L.down, e, L.files[e].blks)
    ensures DbAlloc(fs).Some? && DbAlloc(fs).value.1 == L.dfree[0]
    ensures var (fs', L') := (DbAlloc(fs).value.0, TakeDb(L, e));
      && DiskOk(fs', L') && Owns(L'.down, e, L'.files[e].blks) && L.dfree[0] !in L.files[e].blks
      && fs'.ibs == fs.ibs && fs'.blocks == fs.blocks && fs'.dir == fs.dir.(dfree := fs'.dir.dfree)
      && fs'.ddir == fs'.dir && !fs'.dirty
      && (forall g :: 0 <= g < |L.files| && g != e ==> Untouched(fs, L, fs', L', g))
  {
    hide DFreeOk;
    DFreePop(fs.blocks, fs.dir.dfree, L.down, L.dfree, e, L.files[e].blks);
    hide Owns, IFreeOk, DFreeOk;
  }

  // ---- the index block ----

  /** Where the cached index block sits in the chain. */
  ghost predicate AtIb(L: Layout, e: int, c: Cb, k: int)
    requires 0 <= e < |L.files|
  {
    0 <= k < |L.files[e].ch| && c.inum == L.files[e].ch[k]
  }

  /** The cached index block is the one that belongs there. */
  lemma CachedIb(fs: Fs, L: Layout, e: int, c: Cb, k: int)
    requires FileOk(fs, L, e, Some(c)) && AtIb(L, e, c, k)
    ensures c.ib == Want(L.files[e], k) && c.inum != NULL && c.inum in fs.ibs
  {
    assert IbAt(fs, Some(c), L.files[e].ch[k]) == Want(L.files[e], k);
    OwnsSame(L.iown, L.iown, e, L.files[e].ch);
  }

  /** Reading index block k of the chain into a control block that has nothing to lose. */
  lemma LoadIbOk(fs: Fs, L: Layout, e: int, c: Cb, k: int, dnum: int)
    requires FileOk(fs, L, e, Some(c)) && !c.ibdirty && 0 <= k < |L.files[e].ch|
    requires DataClean(fs, c) && !c.dbdirty && (dnum == c.dnum || dnum == NULL)
    ensures L.files[e].ch[k] in fs.ibs && L.files[e].ch[k] != NULL
    ensures var c' := c.(ib := fs.ibs[L.files[e].ch[k]], inum := L.files[e].ch[k], dnum := dnum);
      && Extends(fs, L, c, fs, L, c', e) && AtIb(L, e, c', k) && DataClean(fs, c') && c'.ib == Want(L.files[e], k)
  {
    hide FileOk, ByteAt, Untouched, DataClean, Want;
    LoadIbFile(fs, L, e, c, k, dnum);
    var f := L.files[e];
    var c' := c.(ib := fs.ibs[f.ch[k]], inum := f.ch[k], dnum := dnum);
    SameExtends(fs, L, e, c);
    forall p ensures ByteAt(fs, f, Some(c'), p) == ByteAt(fs, f, Some(c), p) { SameByte(fs, f, c, c', p); }
  }

  lemma LoadIbFile(fs: Fs, L: Layout, e: int, c: Cb, k: int, dnum: int)
    requires FileOk(fs, L, e, Some(c)) && !c.ibdirty && 0 <= k < |L.files[e].ch|
    requires DataClean(fs, c) && !c.dbdirty && (dnum == c.dnum || dnum == NULL)
    ensures 0 <= e < |L.files| && L.files[e].ch[k] in fs.ibs && L.files[e].ch[k] != NULL && NULL !in fs.blocks
    ensures var c' := c.(ib := fs.ibs[L.files[e].ch[k]], inum := L.files[e].ch[k], dnum := dnum);
      && FileOk(fs, L, e, Some(c')) && DataClean(fs, c') && c'.ib == Want(L.files[e], k)
  {
    hide NextOf;
    var f := L.files[e];
    OwnsSame(L.iown, L.iown, e, f.ch);
    OwnsSame(L.down, L.down, e, f.blks);
    assert IbAt(fs, Some(c), f.ch[k]) == Want(f, k);
    var c' := c.(ib := fs.ibs[f.ch[k]], inum := f.ch[k], dnum := dnum);
    hide Owns, IFreeOk, DFreeOk;
    forall i | 0 <= i < |f.ch| ensures IbAt(fs, Some(c'), f.ch[i]) == Want(f, i) {
      assert IbAt(fs, Some(c), f.ch[i]) == Want(f, i);
    }
  }

  lemma SameByte(fs: Fs, f: FileLay, c: Cb, c': Cb, p: int)
    requires DataClean(fs, c) && !c.dbdirty && (c'.dnum == c.dnum || c'.dnum == NULL) && c'.blk == c.blk
    requires NULL !in fs.blocks
    ensures ByteAt(fs, f, Some(c'), p) == ByteAt(fs, f, Some(c), p)
  {}

  /** A cleared index block is the right one at the end of the chain. */
  lemma ClearIsWant(f: FileLay, k: nat)
    requires k == |f.ch| - 1 && |f.blks| <= LF_IBLEN * k
    ensures IbClear(LF_IDATA * k) == Want(f, k)
  {}

  /** A state that differs from a good one only in what e owns is good for all others. */
  lemma TouchOwn(fs: Fs, L: Layout, fs': Fs, e: int)
    requires Sizes(fs, L) && 0 <= e < |L.files| && |fs'.dir.files| == |fs.dir.files|
    requires forall g :: 0 <= g < |fs.dir.files| && g != e ==> fs'.dir.files[g] == fs.dir.files[g]
    requires forall n :: n in fs.ibs && L.iown[n] != e ==> n in fs'.ibs && fs'.ibs[n] == fs.ibs[n]
    requires forall d :: d in fs.blocks && L.down[d] != e ==> d in fs'.blocks && fs'.blocks[d] == fs.blocks[d]
    ensures forall g :: 0 <= g < |L.files| && g != e ==> Untouched(fs, L, fs', L, g)
  {}

  lemma UntouchedBoth(a: Fs, La: Layout, b: Fs, Lb: Layout, c: Fs, Lc: Layout, e: int)
    requires Sizes(a, La)
    requires forall g :: 0 <= g < |La.files| && g != e ==> Untouched(a, La, b, Lb, g)
    requires |Lb.files| == |La.files| && forall g :: 0 <= g < |Lb.files| && g != e ==> Untouched(b, Lb, c, Lc, g)
    ensures forall g :: 0 <= g < |La.files| && g != e ==> Untouched(a, La, c, Lc, g)
  {
    forall g | 0 <= g < |La.files| && g != e ensures Untouched(a, La, c, Lc, g) {
      assert Untouched(a, La, b, Lb, g);
      assert Untouched(b, Lb, c, Lc, g);
      UntouchedTrans(a, La, b, Lb, c, Lc, g);
    }
  }

  /** A new first index block for an empty chain. */
  lemma AllocFirstOk(fs: Fs, L: Layout, e: int, c: Cb)
    requires FileOk(fs, L, e, Some(c)) && L.files[e] == FileLay([], []) && L.ifree != [] && c.inum == NULL
    ensures FirstIb(fs, c).Some?
    ensures var ((fs', c'), L') := (FirstIb(fs, c).value, TakeIb(L, e));
      && Extends(fs, L, c, fs', L', c', e) && AtIb(L', e, c', 0)
      && c' == c.(ib := c'.ib, inum := c'.inum, ibdirty := true)
      && fs'.blocks == fs.blocks && c'.ib.offset == 0
  {
    hide IFreeOk, NextOf, FirstIb, DFreeOk, DecI;
    AllocFirstDisk(fs, L, e, c);
    var ((fs', c'), L') := (FirstIb(fs, c).value, TakeIb(L, e));
    ClearIsWant(L'.files[e], 0);
    hide FirstIb, IFreeOk, DFreeOk, Untouched, Want, IbClear, Sizes;
  }

  /** The result of FirstIb for an empty file, spelled out. */
  lemma AllocFirstDisk(fs: Fs, L: Layout, e: int, c: Cb)
    requires FileOk(fs, L, e, Some(c)) && L.files[e] == FileLay([], []) && L.ifree != [] && c.inum == NULL
    ensures FirstIb(fs, c).Some?
    ensures var ((fs', c'), L') := (FirstIb(fs, c).value, TakeIb(L, e));
      && DiskOk(fs', L') && Owns(L'.iown, e, L'.files[e].ch) && L.ifree[0] in fs.ibs && L.ifree[0] in L'.iown
      && L.ifree[0] != NULL && L'.iown[L.ifree[0]] == e && Owns(L'.down, e, [])
      && c' == c.(ib := IbClear(0), inum := L.ifree[0], ibdirty := true)
      && fs'.ibs == fs.ibs && fs'.blocks == fs.blocks && fs'.dir.files[e] == fs.dir.files[e].(ilist := L.ifree[0])
      && (forall g :: 0 <= g < |L.files| && g != e ==> Untouched(fs, L, fs', L', g))
  {
    IbAllocOk(fs, L, e);
    var (fs1, n) := IbAlloc(fs).value;
    var ((fs', c'), L') := (FirstIb(fs, c).value, TakeIb(L, e));
    assert fs' == fs1.(dir := SetIlist(fs1.dir, e, n));
    assert Owns(L.down, e, []) by { assert FileOk(fs, L, e, Some(c)); }
    OwnsSame(L'.iown, L'.iown, e, [L.ifree[0]]);
    hide IbAlloc, FirstIb, Owns, IFreeOk, DFreeOk, Untouched, IbClear, Want;
    TouchOwn(fs1, L', fs', e);
    UntouchedBoth(fs, L, fs1, L', fs', L', e);
  }

  /** A new index block behind the last one, which is written to disk with its new link. */
  lemma AllocNextOk(fs: Fs, L: Layout, e: int, c: Cb)
    requires FileOk(fs, L, e, Some(c)) && AtIb(L, e, c, |L.files[e].ch| - 1) && L.ifree != []
    requires |L.files[e].blks| <= LF_IBLEN * |L.files[e].ch| && !c.dbdirty && DataClean(fs, c)
    ensures NextIb(fs, c).Some?
    ensures var ((fs', c'), L') := (NextIb(fs, c).value, TakeIb(L, e));
      && Extends(fs, L, c, fs', L', c', e) && AtIb(L', e, c', |L.files[e].ch|)
      && c' == c.(ib := c'.ib, inum := c'.inum, dnum := NULL, ibdirty := true)
      && fs'.blocks == fs.blocks && c'.ib.offset == LF_IDATA * |L.files[e].ch|
  {
    hide Owns, Sizes, DiskOk, NoDup, ByteAt, Int32;
    var f := L.files[e];
    CachedIb(fs, L, e, c, |f.ch| - 1);
    AllocNextDisk(fs, L, e, c);
    AllocNextFile(fs, L, e, c);
    var ((fs', c'), L') := (NextIb(fs, c).value, TakeIb(L, e));
    hide Owns, IFreeOk, DFreeOk, Sizes, ByteAt, Untouched, NextIb, Want, FileOk, CacheOk;
    forall p ensures ByteAt(fs', L'.files[e], Some(c'), p) == ByteAt(fs, f, Some(c), p) {
      SameByte(fs, f, c, c', p);
      SameByte2(fs, fs', f, L'.files[e], c', p);
    }
  }

  lemma SameByte2(fs: Fs, fs': Fs, f: FileLay, f': FileLay, c: Cb, p: int)
    requires fs'.blocks == fs.blocks && f'.blks == f.blks
    ensures ByteAt(fs', f', Some(c), p) == ByteAt(fs, f, Some(c), p)
  {}

  lemma OwnsNoDup(own: map<int, int>, e: int, s: seq<int>)
    requires Owns(own, e, s)
    ensures NoDup(s)
  {}

  /** The result of NextIb at the end of the chain, spelled out. */
  lemma AllocNextDisk(fs: Fs, L: Layout, e: int, c: Cb)
    requires FileOk(fs, L, e, Some(c)) && AtIb(L, e, c, |L.files[e].ch| - 1) && L.ifree != []
    requires c.ib.next == NULL
    ensures NextIb(fs, c).Some?
    ensures var ((fs', c'), L') := (NextIb(fs, c).value, TakeIb(L, e));
      && DiskOk(fs', L') && NULL !in fs.blocks && Owns(L'.iown, e, L'.files[e].ch)
      && c' == c.(inum := L.ifree[0], ib := IbClear(c.ib.offset + LF_IDATA), ibdirty := true, dnum := NULL)
      && fs'.ibs == fs.ibs[c.inum := c.ib.(next := L.ifree[0])] && fs'.blocks == fs.blocks
      && fs'.dir == fs.dir.(ifree := fs'.dir.ifree)
      && (forall g :: 0 <= g < |L.files| && g != e ==> Untouched(fs, L, fs', L', g))
  {
    hide IbAlloc, Owns, IFreeOk, DFreeOk, Untouched, Want;
    IbAllocOk(fs, L, e);
    OwnsSame(L.iown, L.iown, e, L.files[e].ch);
    NextIbIs(fs, c);
    var fs1 := IbAlloc(fs).value.0;
    var fs' := NextIb(fs, c).value.0;
    var L' := TakeIb(L, e);
    hide NextIb;
    IFreePut(fs1.ibs, fs1.dir.ifree, L'.iown, L'.ifree, c.inum, c.ib.(next := L.ifree[0]));
    TouchOwn(fs1, L', fs', e);
    UntouchedBoth(fs, L, fs1, L', fs', L', e);
  }

  lemma NextIbIs(fs: Fs, c: Cb)
    requires c.ib.next == NULL && IbAlloc(fs).Some?
    ensures NextIb(fs, c).Some?
    ensures NextIb(fs, c).value.0
      == IbAlloc(fs).value.0.(ibs := IbAlloc(fs).value.0.ibs[c.inum := c.ib.(next := IbAlloc(fs).value.1)])
    ensures NextIb(fs, c).value.1
      == c.(inum := IbAlloc(fs).value.1, ib := IbClear(c.ib.offset + LF_IDATA), ibdirty := true, dnum := NULL)
  {}

  /** A longer chain changes the link of the block that was the last. */
  lemma WantLonger(f: FileLay, f': FileLay, m: int, k: nat)
    requires f' == f.(ch := f.ch + [m]) && k < |f.ch|
    ensures Want(f', k) == if k == |f.ch| - 1 then Want(f, k).(next := m) else Want(f, k)
  {}

  lemma AllocNextIb(fs: Fs, L: Layout, e: int, c: Cb, i: nat)
    requires FileOk(fs, L, e, Some(c)) && AtIb(L, e, c, |L.files[e].ch| - 1) && L.ifree != []
    requires |L.files[e].blks| <= LF_IBLEN * |L.files[e].ch| && c.ib == Want(L.files[e], |L.files[e].ch| - 1)
    requires i <= |L.files[e].ch|
    ensures NextIb(fs, c).Some?
    ensures var ((fs', c'), f') := (NextIb(fs, c).value, TakeIb(L, e).files[e]);
      f'.ch[i] in fs'.ibs && IbAt(fs', Some(c'), f'.ch[i]) == Want(f', i)
  {
    hide FileOk, NextIb, Want, IbClear, Owns, Untouched, DiskOk;
    ChainFacts(fs, L, e, c);
    AllocNextDisk(fs, L, e, c);
    var fs' := NextIb(fs, c).value.0;
    var c' := NextIb(fs, c).value.1;
    var f, f' := L.files[e], TakeIb(L, e).files[e];
    ClearIsWant(f', |f.ch|);
    if i < |f.ch| {
      WantLonger(f, f', L.ifree[0], i);
      assert IbAt(fs, Some(c), f.ch[i]) == Want(f, i);
    }
  }

  /** The chain of a file and the head of the free list. */
  lemma ChainFacts(fs: Fs, L: Layout, e: int, c: Cb)
    requires FileOk(fs, L, e, Some(c)) && L.ifree != [] && AtIb(L, e, c, |L.files[e].ch| - 1)
    ensures 0 <= e < |L.files| && L.ifree[0] in fs.ibs
    ensures forall i :: 0 <= i < |L.files[e].ch| ==>
      && L.files[e].ch[i] in fs.ibs && L.files[e].ch[i] != L.ifree[0]
      && IbAt(fs, Some(c), L.files[e].ch[i]) == Want(L.files[e], i)
      && (L.files[e].ch[i] == c.inum <==> i == |L.files[e].ch| - 1)
    ensures var k := |L.files[e].ch| - 1; Want(L.files[e], k).offset == LF_IDATA * k && Want(L.files[e], k).next == NULL
  {
    OwnsSame(L.iown, L.iown, e, L.files[e].ch);
    OwnsSame(L.iown, L.iown, FREE, L.ifree);
    hide DFreeOk, CacheOk;
    var f := L.files[e];
    forall i | 0 <= i < |f.ch|
      ensures f.ch[i] in fs.ibs && f.ch[i] != L.ifree[0]
      ensures IbAt(fs, Some(c), f.ch[i]) == Want(f, i) && (f.ch[i] == c.inum <==> i == |f.ch| - 1) {}
  }

  lemma AllocNextFile(fs: Fs, L: Layout, e: int, c: Cb)
    requires FileOk(fs, L, e, Some(c)) && AtIb(L, e, c, |L.files[e].ch| - 1) && L.ifree != []
    requires |L.files[e].blks| <= LF_IBLEN * |L.files[e].ch| && c.ib == Want(L.files[e], |L.files[e].ch| - 1)
      && !c.dbdirty
    ensures NextIb(fs, c).Some?
    ensures FileOk(NextIb(fs, c).value.0, TakeIb(L, e), e, Some(NextIb(fs, c).value.1))
  {
    hide NextIb, WriteDir, IFreeOk, NoDup, Owns;
    AllocNextDisk(fs, L, e, c);
    var ((fs', c'), L') := (NextIb(fs, c).value, TakeIb(L, e));
    var (f, f') := (L.files[e], L'.files[e]);
    OwnsSame(L'.iown, L'.iown, e, f'.ch);
    assert f'.ch[|f.ch|] == c'.inum;
    hide Owns, IFreeOk, DFreeOk, Untouched, NextIb, Want;
    forall i | 0 <= i < |f'.ch| ensures IbAt(fs', Some(c'), f'.ch[i]) == Want(f', i) {
      AllocNextIb(fs, L, e, c, i);
    }
  }

  // ---- the loop of lfsetup ----

  lemma {:induction false} WalkOk(fs: Fs, L: Layout, e: int, c: Cb, k: nat) returns (L': Layout)
    requires FileOk(fs, L, e, Some(c)) && AtIb(L, e, c, k) && !c.dbdirty && DataClean(fs, c)
    requires k <= c.pos / LF_IDATA <= |L.files[e].ch| && (c.ibdirty ==> k == |L.files[e].ch| - 1)
    requires c.pos / LF_IDATA == |L.files[e].ch| ==> L.ifree != [] && |L.files[e].blks| <= LF_IBLEN * |L.files[e].ch|
    ensures L' == if c.pos / LF_IDATA < |L.files[e].ch| then L else TakeIb(L, e)
    ensures Walk(fs, c).Some?
    ensures var (fs', c') := Walk(fs, c).value;
      && Extends(fs, L, c, fs', L', c', e) && AtIb(L', e, c', c.pos / LF_IDATA)
      && !c'.dbdirty && DataClean(fs', c') && fs'.blocks == fs.blocks
      && (L' == L ==> fs' == fs)
    decreases c.pos / LF_IDATA - k
  {
    hide FileOk, CacheOk, DataClean, ByteAt, Untouched;
    CachedIb(fs, L, e, c, k);
    BlockAndIb(c.pos);
    WalkHere(fs, L, e, c, k);
    var f := L.files[e];
    if k == c.pos / LF_IDATA {
      L' := L;
      SameExtends(fs, L, e, c);
    } else if k + 1 < |f.ch| {
      LoadIbOk(fs, L, e, c, k + 1, NULL);
      var c1 := c.(ib := fs.ibs[f.ch[k + 1]], inum := f.ch[k + 1], dnum := NULL);
      assert NextIb(fs, c) == Some((fs, c1));
      L' := WalkOk(fs, L, e, c1, k + 1);
      var (fs', c') := Walk(fs, c1).value;
      hide NextIb, Want;
      ExtendsTrans(fs, L, c, fs, L, c1, fs', L', c', e);
    } else {
      AllocNextOk(fs, L, e, c);
      var (fs1, c1) := NextIb(fs, c).value;
      L' := TakeIb(L, e);
      assert DataClean(fs1, c1) by { NothingCached(fs1, c1); }
      hide NextIb, Want;
      var _ := WalkOk(fs1, L', e, c1, k + 1);
      hide AtIb;
    }
  }

  /** The loop of lfsetup is at place k of the chain. */
  lemma WalkHere(fs: Fs, L: Layout, e: int, c: Cb, k: nat)
    requires FileOk(fs, L, e, Some(c)) && AtIb(L, e, c, k) && 0 <= c.pos
    ensures 0 <= e < |L.files| && c.ib.offset == LF_IDATA * k && Cover(c.pos) == LF_IDATA * (c.pos / LF_IDATA)
    ensures k == c.pos / LF_IDATA ==> Walk(fs, c) == Some((fs, c))
    ensures c.ib.next == NextOf(L.files[e].ch, k)
  {
    CachedIb(fs, L, e, c, k);
    BlockAndIb(c.pos);
    hide FileOk;
  }

  lemma NothingCached(fs: Fs, c: Cb)
    requires c.dnum == NULL
    ensures DataClean(fs, c)
  {}

  // ---- the data block ----

  /** The data block for the position is in memory and lfbyte points to the position in it. */
  ghost predicate AtByte(L: Layout, e: int, c: Cb)
    requires 0 <= e < |L.files|
  {
    && 0 <= c.pos && c.pos / LF_BLKSIZ < |L.files[e].blks| && c.dnum == L.files[e].blks[c.pos / LF_BLKSIZ]
    && c.byt == c.pos % LF_BLKSIZ
  }

  /** An existing data block is found through the index block and read. */
  lemma LoadDataOk(fs: Fs, L: Layout, e: int, c: Cb)
    requires FileOk(fs, L, e, Some(c)) && AtIb(L, e, c, c.pos / LF_IDATA) && !c.dbdirty && DataClean(fs, c)
    requires c.pos / LF_BLKSIZ < |L.files[e].blks|
    ensures LoadBlock(fs, c).Some? && LoadBlock(fs, c).value.0 == fs
    ensures var c' := LoadBlock(fs, c).value.1;
      && Extends(fs, L, c, fs, L, c', e) && AtIb(L, e, c', c.pos / LF_IDATA) && AtByte(L, e, c')
      && !c'.dbdirty && DataClean(fs, c')
  {
    hide FileOk, ByteAt, Untouched, DataClean, LoadBlock;
    LoadDataIs(fs, L, e, c);
    var f := L.files[e];
    var c' := LoadBlock(fs, c).value.1;
    LoadDataFile(fs, L, e, c, c', c'.dnum);
    SameExtends(fs, L, e, c);
    forall p ensures ByteAt(fs, f, Some(c'), p) == ByteAt(fs, f, Some(c), p) {
      CleanByte(fs, f, c, p);
      CleanByte(fs, f, c', p);
    }
  }

  /** What the last part of lfsetup loads for a position that has its data block. */
  lemma LoadDataIs(fs: Fs, L: Layout, e: int, c: Cb)
    requires FileOk(fs, L, e, Some(c)) && AtIb(L, e, c, c.pos / LF_IDATA) && !c.dbdirty && DataClean(fs, c)
    requires c.pos / LF_BLKSIZ < |L.files[e].blks|
    ensures 0 <= e < |L.files| && LoadBlock(fs, c).Some? && LoadBlock(fs, c).value.0 == fs && NULL !in fs.blocks
    ensures var c' := LoadBlock(fs, c).value.1;
      && c'.dnum == L.files[e].blks[c.pos / LF_BLKSIZ] && c'.dnum in L.down && L.down[c'.dnum] == e
      && |c'.blk| == LF_BLKSIZ
      && c' == c.(blk := c'.blk, dbdirty := false, dnum := c'.dnum, byt := c.pos % LF_BLKSIZ) && AtByte(L, e, c')
      && AtIb(L, e, c', c.pos / LF_IDATA) && DataClean(fs, c')
  {
    hide NextOf;
    CachedIb(fs, L, e, c, c.pos / LF_IDATA);
    BlockAndIb(c.pos);
    OwnsSame(L.down, L.down, e, L.files[e].blks);
    var d := L.files[e].blks[c.pos / LF_BLKSIZ];
    assert d in fs.blocks && d != NULL;
    hide IFreeOk, DFreeOk, Owns;
  }

  lemma LoadDataFile(fs: Fs, L: Layout, e: int, c: Cb, c': Cb, d: int)
    requires FileOk(fs, L, e, Some(c)) && d in L.down && L.down[d] == e
    requires c' == c.(blk := c'.blk, dbdirty := false, dnum := d, byt := c.pos % LF_BLKSIZ) && |c'.blk| == LF_BLKSIZ
    ensures FileOk(fs, L, e, Some(c'))
  {
    var f := L.files[e];
    OwnsSame(L.iown, L.iown, e, f.ch);
    hide Owns, IFreeOk, DFreeOk, Want;
    forall i | 0 <= i < |f.ch| ensures IbAt(fs, Some(c'), f.ch[i]) == Want(f, i) {
      assert IbAt(fs, Some(c), f.ch[i]) == Want(f, i);
    }
  }

  /** With nothing dirty in the buffer the bytes are those on the disk. */
  lemma CleanByte(fs: Fs, f: FileLay, c: Cb, p: int)
    requires DataClean(fs, c) && !c.dbdirty && NULL !in fs.blocks
    ensures ByteAt(fs, f, Some(c), p) == ByteAt(fs, f, None, p)
  {}

  /** At the end of the last block a new data block is taken and filled with '+'. */
  lemma LoadNewOk(fs: Fs, L: Layout, e: int, c: Cb)
    requires FileOk(fs, L, e, Some(c)) && AtIb(L, e, c, c.pos / LF_IDATA) && !c.dbdirty && DataClean(fs, c)
    requires c.pos / LF_BLKSIZ == |L.files[e].blks| && L.dfree != []
    ensures LoadBlock(fs, c).Some?
    ensures var ((fs', c'), L') := (LoadBlock(fs, c).value, TakeDb(L, e));
      && Extends(fs, L, c, fs', L', c', e) && AtIb(L', e, c', c.pos / LF_IDATA) && AtByte(L', e, c')
      && !c'.dbdirty
  {
    hide Owns, DFreeOk, Head;
    var f := L.files[e];
    CachedIb(fs, L, e, c, c.pos / LF_IDATA);
    BlockAndIb(c.pos);
    DbAllocOk(fs, L, e);
    var ((fs', c'), L') := (LoadBlock(fs, c).value, TakeDb(L, e));
    LoadNewFile(fs, L, e, c);
    hide FileOk, Untouched, LoadBlock, DbAlloc, ByteAt;
    forall p | 0 <= p && p / LF_BLKSIZ < |f.blks|
      ensures ByteAt(fs', L'.files[e], Some(c'), p) == ByteAt(fs, f, Some(c), p) {
      CleanByte(fs, f, c, p);
      NewByte(fs, fs', f, L'.files[e], c', p);
    }
  }

  lemma NewByte(fs: Fs, fs': Fs, f: FileLay, f': FileLay, c: Cb, p: int)
    requires fs'.blocks == fs.blocks && f'.blks == f.blks + [c.dnum] && c.dnum !in f.blks
    requires 0 <= p && p / LF_BLKSIZ < |f.blks|
    ensures ByteAt(fs', f', Some(c), p) == ByteAt(fs, f, None, p)
  {}

  /** The index block of the new data block, with the new entry; the others are as they were. */
  lemma NewEntry(f: FileLay, f': FileLay, k: int, pos: int, d: int)
    requires 0 <= pos && pos / LF_BLKSIZ == |f.blks| && f' == f.(blks := f.blks + [d]) && 0 <= k
    ensures Want(f', k) == if k == pos / LF_IDATA
      then Want(f, k).(dba := Want(f, k).dba[pos % LF_IDATA / LF_BLKSIZ := d]) else Want(f, k)
  {
    BlockAndIb(pos);
    var (w, w') := (Want(f, k), Want(f', k));
    forall j | 0 <= j < LF_IBLEN
      ensures w'.dba[j] == if LF_IBLEN * k + j == |f.blks| then d else w.dba[j] {}
  }

  lemma LoadNewFile(fs: Fs, L: Layout, e: int, c: Cb)
    requires FileOk(fs, L, e, Some(c)) && AtIb(L, e, c, c.pos / LF_IDATA) && c.ib == Want(L.files[e], c.pos / LF_IDATA)
    requires c.pos / LF_BLKSIZ == |L.files[e].blks| && L.dfree != []
    requires c.ib.dba[c.pos % LF_IDATA / LF_BLKSIZ] == NULL && !c.dbdirty
    ensures LoadBlock(fs, c).Some?
    ensures FileOk(LoadBlock(fs, c).value.0, TakeDb(L, e), e, Some(LoadBlock(fs, c).value.1))
  {
    hide Want, NextOf, Owns, Head, IFreeOk, NoDup, WriteDir, DecI, DecU, Int32;
    DbAllocOk(fs, L, e);
    var ((fs', c'), L') := (LoadBlock(fs, c).value, TakeDb(L, e));
    var (f, f') := (L.files[e], L'.files[e]);
    OwnsSame(L'.iown, L'.iown, e, f'.ch);
    OwnsNoDup(L'.iown, e, f'.ch);
    var (t, j, d) := (c.pos / LF_IDATA, c.pos % LF_IDATA / LF_BLKSIZ, L.dfree[0]);
    assert c'.ib == c.ib.(dba := c.ib.dba[j := d]);
    OwnsSame(L'.down, L'.down, e, f'.blks);
    assert f'.blks[|f.blks|] == d;
    hide Owns, IFreeOk, DFreeOk, Untouched, Want, DbAlloc;
    forall i | 0 <= i < |f'.ch| ensures IbAt(fs', Some(c'), f'.ch[i]) == Want(f', i) {
      assert IbAt(fs, Some(c), f.ch[i]) == Want(f, i);
      NewEntry(f, f', i, c.pos, d);
      assert i != t ==> f.ch[i] != f.ch[t];
    }
  }

  // ---- lfsetup ----

  /** The sizes that lfsetup meets: no position beyond the end, and a free block where one is
      needed. */
  ghost predicate HasBlocks(L: Layout, e: int, pos: int)
    requires 0 <= e < |L.files| && 0 <= pos
  {
    HasIb(L, e, pos) && (pos / LF_BLKSIZ >= |L.files[e].blks| ==> L.dfree != [])
  }

  ghost predicate HasIb(L: Layout, e: int, pos: int)
    requires 0 <= e < |L.files| && 0 <= pos
  {
    pos / LF_IDATA >= |L.files[e].ch| ==> L.ifree != []
  }

  /** The layout after lfsetup: one index block and one data block more where they are missing. */
  ghost function SetupLay(L: Layout, e: int, pos: int): Layout
    requires 0 <= e < |L.files| && 0 <= pos && HasBlocks(L, e, pos)
  {
    var L1 := if pos / LF_IDATA < |L.files[e].ch| then L else TakeIb(L, e);
    if pos / LF_BLKSIZ < |L.files[e].blks| then L1 else TakeDb(L1, e)
  }

  lemma FirstOk(fs: Fs, L: Layout, e: int, c: Cb) returns (k: nat, L': Layout)
    requires FileOk(fs, L, e, Some(c)) && !c.ibdirty && !c.dbdirty && DataClean(fs, c)
    requires Tight(L.files[e], fs.dir.files[e].size) && 0 <= c.pos <= fs.dir.files[e].size && HasIb(L, e, c.pos)
    ensures FirstIb(fs, c).Some? && L' == if L.files[e].ch == [] then (if L.ifree == [] then L else TakeIb(L, e)) else L
    ensures L.files[e].ch == [] ==> L.ifree != []
    ensures var (fs', c') := FirstIb(fs, c).value;
      && Extends(fs, L, c, fs', L', c', e) && AtIb(L', e, c', k) && k <= c.pos / LF_IDATA
      && !c'.dbdirty && DataClean(fs', c') && fs'.blocks == fs.blocks
      && (c'.ibdirty ==> k == |L'.files[e].ch| - 1)
  {
    var f := L.files[e];
    BlockAndIb(c.pos);
    L' := L;
    assert c.inum != NULL ==> c.inum in f.ch;
    if c.inum == NULL && f.ch == [] {
      AllocFirstOk(fs, L, e, c);
      k, L' := 0, TakeIb(L, e);
    } else if c.inum == NULL || c.pos < c.ib.offset {
      LoadIbOk(fs, L, e, c, 0, c.dnum);
      k := 0;
    } else {
      k := IndexOf(f.ch, c.inum);
      CachedIb(fs, L, e, c, k);
      SameExtends(fs, L, e, c);
    }
  }

  lemma SameExtends(fs: Fs, L: Layout, e: int, c: Cb)
    requires FileOk(fs, L, e, Some(c))
    ensures Extends(fs, L, c, fs, L, c, e)
  {
    hide FileOk, ByteAt;
    assert DiskOk(fs, L) by { SameDisk(fs, L, e, c); }
  }

  lemma SameDisk(fs: Fs, L: Layout, e: int, c: Cb)
    requires FileOk(fs, L, e, Some(c))
    ensures DiskOk(fs, L)
  {}
}
