/** lftruncate ends, and moves exactly the blocks of the file onto the two free lists. */
module LfTrunc {
  import opened Kernel
  import opened Seqs
  import opened Bytes
  import opened Wrappers
  import opened LfCodec
  import opened LfSpec
  import opened LfInv
  import opened LfSetup
  import opened LfFile
  import opened LfOps
  import opened LfSync

  function Rev(s: seq<int>): (r: seq<int>)
    ensures |r| == |s|
  {
    seq(|s|, i requires 0 <= i < |s| => s[|s| - 1 - i])
  }

  /** The owner map with everything in s given back. */
  function Freed(own: map<int, int>, s: seq<int>): map<int, int> {
    map n | n in own :: if n in s then FREE else own[n]
  }

  /** The layout after lftruncate: the chain in front of the free index blocks, the data blocks,
      last one first, in front of the free data blocks. */
  ghost function TruncLay(L: Layout, e: int): Layout
    requires 0 <= e < |L.files|
  {
    var f := L.files[e];
    Layout(f.ch + L.ifree, Rev(f.blks) + L.dfree, L.files[e := FileLay([], [])], Freed(L.iown, f.ch),
      Freed(L.down, f.blks))
  }

  // ---- ownership ----

  lemma OwnsFreed(own: map<int, int>, e: int, s: seq<int>, t: seq<int>)
    requires e != FREE && Owns(own, e, s) && Owns(own, FREE, t)
    ensures Owns(Freed(own, s), FREE, s + t) && Owns(Freed(own, s), FREE, Rev(s) + t) && Owns(Freed(own, s), e, [])
  {
    OwnsSame(own, own, e, s);
    OwnsSame(own, own, FREE, t);
    var own' := Freed(own, s);
    forall n | n in own' && own'[n] == FREE ensures n in s + t && n in Rev(s) + t {
      if n in s {
        var i :| 0 <= i < |s| && s[i] == n;
        assert Rev(s)[|s| - 1 - i] == n;
      } else {
        assert n in t;
      }
    }
  }

  // ---- the free list of data blocks ----

  /** s is linked from head through the first words of the blocks. */
  ghost predicate Links(blocks: map<int, seq<byte>>, head: int, s: seq<int>) {
    && head == Head(s)
    && (forall i :: 0 <= i < |s| ==>
          s[i] in blocks && |blocks[s[i]]| == LF_BLKSIZ && DecI(blocks[s[i]][..4]) == NextOf(s, i))
  }

  lemma LinksPush(blocks: map<int, seq<byte>>, head: int, s: seq<int>, d: int, junk: seq<byte>)
    requires Links(blocks, head, s) && d !in s && Int32(head) && |junk| == LF_BLKSIZ - 4
    ensures Links(blocks[d := EncI(head) + junk], d, [d] + s)
  {
    WordRoundTrip(head);
    var (b, t) := (blocks[d := EncI(head) + junk], [d] + s);
    assert (EncI(head) + junk)[..4] == EncI(head);
    forall i | 0 <= i < |t|
      ensures t[i] in b && |b[t[i]]| == LF_BLKSIZ && DecI(b[t[i]][..4]) == NextOf(t, i) {
      if i > 0 { assert t[i] == s[i - 1] && NextOf(t, i) == NextOf(s, i - 1); }
    }
  }

  /** After m data blocks of the file have been freed. */
  ghost predicate FreedTo(fs0: Fs, blks: seq<int>, dfree: seq<int>, m: int, fs: Fs) {
    && 0 <= m <= |blks| && Links(fs.blocks, fs.dir.dfree, Rev(blks[..m]) + dfree)
    && fs.blocks.Keys == fs0.blocks.Keys && fs.ibs == fs0.ibs && fs.dir == fs0.dir.(dfree := fs.dir.dfree)
    && (forall d :: d in fs0.blocks && d !in blks ==> fs.blocks[d] == fs0.blocks[d])
    && fs.dirty == fs0.dirty && Int32(fs.dir.dfree)
    && (forall d :: d in fs.blocks ==> |fs.blocks[d]| == LF_BLKSIZ)
  }

  /** What the blocks being freed must be. */
  ghost predicate CanFree(blocks: map<int, seq<byte>>, blks: seq<int>, dfree: seq<int>) {
    && NoDup(blks) && (forall i :: 0 <= i < |blks| ==>
      blks[i] in blocks && Int32(blks[i]) && blks[i] != NULL && blks[i] !in dfree)
  }

  lemma FreeOne(fs0: Fs, blks: seq<int>, dfree: seq<int>, m: int, fs: Fs, junk: int -> Tail)
    requires CanFree(fs0.blocks, blks, dfree) && FreedTo(fs0, blks, dfree, m, fs) && m < |blks|
    ensures FreedTo(fs0, blks, dfree, m + 1, DbFree(fs, blks[m], junk(blks[m])))
  {
    var d := blks[m];
    FreeOneLinks(fs0, blks, dfree, m, fs, junk(d));
    hide Links, Rev;
  }

  lemma FreeOneLinks(fs0: Fs, blks: seq<int>, dfree: seq<int>, m: int, fs: Fs, junk: Tail)
    requires CanFree(fs0.blocks, blks, dfree) && FreedTo(fs0, blks, dfree, m, fs) && m < |blks|
    ensures Links(DbFree(fs, blks[m], junk).blocks, blks[m], Rev(blks[..m + 1]) + dfree)
  {
    RevPush(blks, dfree, m);
    hide Links, Rev;
    LinksPush(fs.blocks, fs.dir.dfree, Rev(blks[..m]) + dfree, blks[m], junk);
  }

  lemma RevPush(blks: seq<int>, dfree: seq<int>, m: int)
    requires NoDup(blks) && 0 <= m < |blks| && blks[m] !in dfree
    ensures Rev(blks[..m + 1]) + dfree == [blks[m]] + (Rev(blks[..m]) + dfree)
    ensures blks[m] !in Rev(blks[..m]) + dfree
  {
    var s := Rev(blks[..m]) + dfree;
    forall i | 0 <= i < |s| ensures s[i] != blks[m] {
      if i < m { assert s[i] == blks[m - 1 - i]; } else { assert s[i] == dfree[i - m]; }
    }
  }

  function Min(a: int, b: int): int { if a < b then a else b }

  /** The inner loop frees the blocks of one index block in file order. */
  lemma {:induction false} FreeDataOk(fs0: Fs, f: FileLay, dfree: seq<int>, k: nat, i: nat, fs: Fs, junk: int -> Tail)
    returns (fs': Fs)
    requires CanFree(fs0.blocks, f.blks, dfree) && i <= LF_IBLEN
      && FreedTo(fs0, f.blks, dfree, Min(LF_IBLEN * k + i, |f.blks|), fs)
    ensures FreeData(fs, Want(f, k).dba, i, junk) == Some(fs')
    ensures FreedTo(fs0, f.blks, dfree, Min(LF_IBLEN * k + LF_IBLEN, |f.blks|), fs')
    decreases LF_IBLEN - i
  {
    hide Links, Rev, Want, DbFree;
    var dba := Want(f, k).dba;
    var m := LF_IBLEN * k + i;
    assert |dba| == LF_IBLEN by { Slot(f, k, 0); }
    if i == LF_IBLEN {
      fs' := fs;
    } else {
      Slot(f, k, i);
      var fs1 := fs;
      if m < |f.blks| {
        CanFreeOne(fs0, f.blks, dfree, m, fs);
        FreeOne(fs0, f.blks, dfree, m, fs, junk);
        fs1 := DbFree(fs, f.blks[m], junk(f.blks[m]));
      }
      hide FreedTo, CanFree;
      fs' := FreeDataOk(fs0, f, dfree, k, i + 1, fs1, junk);
    }
  }

  lemma CanFreeOne(fs0: Fs, blks: seq<int>, dfree: seq<int>, m: int, fs: Fs)
    requires CanFree(fs0.blocks, blks, dfree) && FreedTo(fs0, blks, dfree, Min(m, |blks|), fs) && 0 <= m < |blks|
    ensures FreedTo(fs0, blks, dfree, m, fs) && blks[m] in fs.blocks && blks[m] != NULL && Int32(fs.dir.dfree)
  {
    hide Links, Rev;
  }

  lemma Slot(f: FileLay, k: nat, i: nat)
    requires i < LF_IBLEN
    ensures |Want(f, k).dba| == LF_IBLEN
    ensures Want(f, k).dba[i] == if LF_IBLEN * k + i < |f.blks| then f.blks[LF_IBLEN * k + i] else NULL
  {}

  // ---- the chain ----

  /** What follows place i of s. */
  function NextElse(s: seq<int>, i: int, last: int): int { if 0 <= i && i + 1 < |s| then s[i + 1] else last }

  /** After k index blocks of the chain: those are linked towards the free list, the rest is as it
      was. */
  ghost predicate ChainTo(fs0: Fs, f: FileLay, dfree: seq<int>, ifree: int, k: int, fs: Fs, left: set<int>) {
    && 0 <= k <= |f.ch| && FreedTo(fs0.(ibs := fs.ibs), f.blks, dfree, Min(LF_IBLEN * k, |f.blks|), fs)
    && fs.ibs.Keys == fs0.ibs.Keys
    && (forall n :: n in fs0.ibs && n !in f.ch ==> fs.ibs[n] == fs0.ibs[n])
    && (forall i :: 0 <= i < k ==> f.ch[i] in fs.ibs && fs.ibs[f.ch[i]].next == NextElse(f.ch, i, ifree))
    && (forall i :: k <= i < |f.ch| ==> f.ch[i] in fs.ibs && f.ch[i] in left && fs.ibs[f.ch[i]] == Want(f, i))
  }

  lemma ChainStep(fs0: Fs, f: FileLay, dfree: seq<int>, ifree: int, k: nat, fs: Fs, left: set<int>, junk: int -> Tail)
    returns (fs1: Fs)
    requires CanFree(fs0.blocks, f.blks, dfree) && ChainTo(fs0, f, dfree, ifree, k, fs, left) && k < |f.ch|
      && NoDup(f.ch)
    ensures f.ch[k] in fs.ibs && fs.ibs[f.ch[k]] == Want(f, k) && FreeData(fs, Want(f, k).dba, 0, junk) == Some(fs1)
    ensures var next := if k + 1 < |f.ch| then f.ch[k + 1] else ifree;
      ChainTo(fs0, f, dfree, ifree, k + 1, fs1.(ibs := fs1.ibs[f.ch[k] := Ib(next, 0, seq(LF_IBLEN, _ => NULL))]),
        left - {f.ch[k]})
  {
    hide Want, Links, Rev, CanFree;
    fs1 := FreeDataOk(fs0.(ibs := fs.ibs), f, dfree, k, 0, fs, junk);
    assert fs1.ibs == fs.ibs;
    FreedIbs(fs0, f, dfree, k, fs1, f.ch[k],
             Ib(if k + 1 < |f.ch| then f.ch[k + 1] else ifree, 0, seq(LF_IBLEN, _ => NULL)));
    hide FreedTo, FreeData;
  }

  /** Writing an index block leaves the data blocks as they are. */
  lemma FreedIbs(fs0: Fs, f: FileLay, dfree: seq<int>, k: nat, fs: Fs, n: int, ib: Ib)
    requires FreedTo(fs0.(ibs := fs.ibs), f.blks, dfree, Min(LF_IBLEN * k + LF_IBLEN, |f.blks|), fs)
    ensures FreedTo(fs0.(ibs := fs.ibs[n := ib]), f.blks, dfree, Min(LF_IBLEN * (k + 1), |f.blks|),
      fs.(ibs := fs.ibs[n := ib]))
  {
    hide Links, Rev;
  }

  lemma {:induction false} ChainOk(fs0: Fs, f: FileLay, dfree: seq<int>, ifree: int, k: nat, fs: Fs, left: set<int>,
                                   junk: int -> Tail)
    returns (fs': Fs)
    requires CanFree(fs0.blocks, f.blks, dfree) && ChainTo(fs0, f, dfree, ifree, k, fs, left) && NoDup(f.ch)
    requires ifree !in f.ch && NULL !in f.ch
    ensures FreeChain(fs, if k < |f.ch| then f.ch[k] else ifree, ifree, left, junk) == Some(fs')
    ensures exists left' :: ChainTo(fs0, f, dfree, ifree, |f.ch|, fs', left')
    decreases |f.ch| - k
  {
    if k == |f.ch| {
      fs' := fs;
    } else {
      var fs1 := ChainStep(fs0, f, dfree, ifree, k, fs, left, junk);
      var next := if k + 1 < |f.ch| then f.ch[k + 1] else ifree;
      assert f.ch[k] in f.ch && f.ch[k] in left;
      assert Want(f, k).next == if k + 1 < |f.ch| then f.ch[k + 1] else NULL;
      assert k + 1 < |f.ch| ==> f.ch[k + 1] in f.ch;
      hide ChainTo, CanFree, Want, FreeData;
      fs' := ChainOk(fs0, f, dfree, ifree, k + 1, fs1.(ibs := fs1.ibs[f.ch[k] := Ib(next, 0,
        seq(LF_IBLEN, _ => NULL))]),
                     left - {f.ch[k]}, junk);
    }
  }

  // ---- lftruncate ----

  lemma TruncOwns(L: Layout, e: int)
    requires 0 <= e < |L.files| && Owns(L.iown, FREE, L.ifree) && Owns(L.down, FREE, L.dfree)
    requires Owns(L.iown, e, L.files[e].ch) && Owns(L.down, e, L.files[e].blks)
    ensures Owns(TruncLay(L, e).iown, FREE, TruncLay(L, e).ifree)
      && Owns(TruncLay(L, e).down, FREE, TruncLay(L, e).dfree)
    ensures Owns(TruncLay(L, e).iown, e, []) && Owns(TruncLay(L, e).down, e, [])
  {
    OwnsFreed(L.iown, e, L.files[e].ch, L.ifree);
    OwnsFreed(L.down, e, L.files[e].blks, L.dfree);
  }

  /** The file system in the middle of lftruncate: the file is empty in the directory and its
      blocks are still where they were. */
  ghost predicate Detached(fs: Fs, L: Layout, e: int) {
    && Sizes(fs, L) && 0 <= e < |L.files|
    && IFreeOk(fs.ibs, fs.dir.ifree, L.iown, L.ifree) && DFreeOk(fs.blocks, fs.dir.dfree, L.down, L.dfree)
    && Owns(L.iown, e, L.files[e].ch) && Owns(L.down, e, L.files[e].blks)
    && (forall k :: 0 <= k < |L.files[e].ch| ==> fs.ibs[L.files[e].ch[k]] == Want(L.files[e], k))
    && Tight(L.files[e], |L.files[e].blks| * LF_BLKSIZ)
    && fs.dir.files[e].size == 0 && fs.dir.files[e].ilist == NULL
  }

  lemma DetachedStart(fs: Fs, L: Layout, e: int)
    requires Detached(fs, L, e)
    ensures CanFree(fs.blocks, L.files[e].blks, L.dfree)
    ensures ChainTo(fs, L.files[e], L.dfree, fs.dir.ifree, 0, fs, fs.ibs.Keys)
    ensures NoDup(L.files[e].ch) && fs.dir.ifree !in L.files[e].ch && NULL !in L.files[e].ch
  {
    hide NextOf;
    DetachedFree(fs, L, e);
    var f := L.files[e];
    OwnsSame(L.iown, L.iown, e, f.ch);
    OwnsSame(L.iown, L.iown, FREE, L.ifree);
    assert Rev(f.blks[..0]) + L.dfree == L.dfree;
    hide Want, CanFree, Tight;
  }

  lemma DetachedFree(fs: Fs, L: Layout, e: int)
    requires Detached(fs, L, e)
    ensures CanFree(fs.blocks, L.files[e].blks, L.dfree)
  {
    OwnsSame(L.down, L.down, e, L.files[e].blks);
    OwnsSame(L.down, L.down, FREE, L.dfree);
    hide Want, IFreeOk, Tight;
  }

  /** The end of the chain walk: both free lists have taken the blocks of the file. */
  lemma ChainEndI(fs: Fs, L: Layout, e: int, fs': Fs, left: set<int>)
    requires Detached(fs, L, e) && ChainTo(fs, L.files[e], L.dfree, fs.dir.ifree, |L.files[e].ch|, fs', left)
    ensures IFreeOk(fs'.ibs, Head(L.files[e].ch + L.ifree), TruncLay(L, e).iown, L.files[e].ch + L.ifree)
  {
    DetachedOwns(fs, L, e);
    FreeApart(fs, L, e);
    ChainLinks(fs, L.files[e], L.dfree, fs.dir.ifree, fs', left, L.ifree);
    hide Detached, ChainTo, Owns, Freed, Rev, IFreeOk;
    ChainFree(fs.ibs, fs.dir.ifree, L.iown, L.ifree, fs'.ibs, L.files[e].ch);
  }

  lemma DetachedOwns(fs: Fs, L: Layout, e: int)
    requires Detached(fs, L, e)
    ensures Owns(Freed(L.iown, L.files[e].ch), FREE, L.files[e].ch + L.ifree)
    ensures IFreeOk(fs.ibs, fs.dir.ifree, L.iown, L.ifree)
  {
    hide Owns, Want, Tight, Sizes;
    TruncOwns(L, e);
  }

  lemma ChainLinks(fs0: Fs, f: FileLay, dfree: seq<int>, ifree: int, fs: Fs, left: set<int>, s: seq<int>)
    requires ChainTo(fs0, f, dfree, ifree, |f.ch|, fs, left)
    requires forall i :: 0 <= i < |s| ==> s[i] !in f.ch && s[i] in fs0.ibs
    ensures forall i :: 0 <= i < |s| ==> s[i] in fs.ibs && fs.ibs[s[i]] == fs0.ibs[s[i]]
    ensures forall i :: 0 <= i < |f.ch| ==> f.ch[i] in fs.ibs && fs.ibs[f.ch[i]].next == NextElse(f.ch, i, ifree)
  {
    hide FreedTo, Want;
    forall i | 0 <= i < |s| ensures s[i] in fs.ibs && fs.ibs[s[i]] == fs0.ibs[s[i]] {
      var n := s[i];
      assert n in fs0.ibs && n !in f.ch;
    }
  }

  lemma FreeApart(fs: Fs, L: Layout, e: int)
    requires Detached(fs, L, e)
    ensures forall i :: 0 <= i < |L.ifree| ==> L.ifree[i] !in L.files[e].ch && L.ifree[i] in fs.ibs
  {
    hide Want, DFreeOk, Tight;
  }

  lemma ChainFree(ibs: map<int, Ib>, head: int, own: map<int, int>, s: seq<int>, ibs': map<int, Ib>, ch: seq<int>)
    requires IFreeOk(ibs, head, own, s) && Owns(Freed(own, ch), FREE, ch + s)
    requires forall i :: 0 <= i < |s| ==> s[i] in ibs' && ibs'[s[i]] == ibs[s[i]]
    requires forall i :: 0 <= i < |ch| ==> ch[i] in ibs' && ibs'[ch[i]].next == NextElse(ch, i, head)
    ensures IFreeOk(ibs', Head(ch + s), Freed(own, ch), ch + s)
  {
    var t := ch + s;
    hide Owns;
    forall i | 0 <= i < |t| ensures t[i] in ibs' && ibs'[t[i]].next == NextOf(t, i) {
      if i >= |ch| {
        assert t[i] == s[i - |ch|] && NextOf(t, i) == NextOf(s, i - |ch|);
      } else {
        assert t[i] == ch[i] && NextOf(t, i) == NextElse(ch, i, Head(s));
      }
    }
  }

  lemma ChainEndD(fs: Fs, L: Layout, e: int, fs': Fs, left: set<int>)
    requires Detached(fs, L, e) && ChainTo(fs, L.files[e], L.dfree, fs.dir.ifree, |L.files[e].ch|, fs', left)
    ensures DFreeOk(fs'.blocks, fs'.dir.dfree, TruncLay(L, e).down, TruncLay(L, e).dfree)
    ensures fs'.blocks.Keys == fs.blocks.Keys && fs'.ibs.Keys == fs.ibs.Keys
    ensures forall d :: d in fs.blocks && d !in L.files[e].blks ==> fs'.blocks[d] == fs.blocks[d]
    ensures forall d :: d in fs'.blocks ==> |fs'.blocks[d]| == LF_BLKSIZ
    ensures fs'.dir == fs.dir.(dfree := fs'.dir.dfree)
  {
    TruncOwns(L, e);
    hide Want, IFreeOk;
    var f := L.files[e];
    assert f.blks[..|f.blks|] == f.blks;
  }

  lemma ChainEnd(fs: Fs, L: Layout, e: int, fs': Fs, left: set<int>)
    requires Detached(fs, L, e) && ChainTo(fs, L.files[e], L.dfree, fs.dir.ifree, |L.files[e].ch|, fs', left)
    ensures var fs2 := fs'.(dir := fs'.dir.(ifree := Head(L.files[e].ch + L.ifree)), dirty := true);
      && DiskOk(fs2, TruncLay(L, e)) && OthersUntouched(fs, L, fs2, TruncLay(L, e), e)
      && fs2.dir.files == fs.dir.files
  {
    ChainEndI(fs, L, e, fs', left);
    ChainEndD(fs, L, e, fs', left);
    var fs2 := fs'.(dir := fs'.dir.(ifree := Head(L.files[e].ch + L.ifree)), dirty := true);
    TruncSizes(fs, L, e, fs2);
    hide Want, IFreeOk, DFreeOk, FreedTo, Owns, Rev, Sizes, Detached;
    forall g | 0 <= g < |L.files| && g != e ensures Untouched(fs, L, fs2, TruncLay(L, e), g) {
      TruncOther(fs, L, e, fs2, g);
    }
  }

  lemma TruncSizes(fs: Fs, L: Layout, e: int, fs': Fs)
    requires Detached(fs, L, e) && fs'.ibs.Keys == fs.ibs.Keys && fs'.blocks.Keys == fs.blocks.Keys
      && fs'.dir.files == fs.dir.files
    requires fs'.dir.nfiles == fs.dir.nfiles && forall d :: d in fs'.blocks ==> |fs'.blocks[d]| == LF_BLKSIZ
    ensures Sizes(fs', TruncLay(L, e))
  {
    hide Want, IFreeOk, DFreeOk, Owns, Rev;
    assert TruncLay(L, e).iown.Keys == L.iown.Keys && TruncLay(L, e).down.Keys == L.down.Keys;
  }

  lemma TruncOther(fs: Fs, L: Layout, e: int, fs2: Fs, g: int)
    requires Detached(fs, L, e) && 0 <= g < |L.files| && g != e
    requires fs2.ibs.Keys == fs.ibs.Keys && fs2.blocks.Keys == fs.blocks.Keys && fs2.dir.files == fs.dir.files
    requires forall n :: n in fs.ibs && n !in L.files[e].ch ==> fs2.ibs[n] == fs.ibs[n]
    requires forall d :: d in fs.blocks && d !in L.files[e].blks ==> fs2.blocks[d] == fs.blocks[d]
    ensures Untouched(fs, L, fs2, TruncLay(L, e), g)
  {
    hide NextOf, Int32, Owns, Head, Want, DFreeOk, Rev, NoDup;
    OwnsSame(L.iown, L.iown, e, L.files[e].ch);
    OwnsSame(L.down, L.down, e, L.files[e].blks);
    assert forall n :: n in L.files[e].ch ==> n in L.iown && L.iown[n] == e;
    assert forall d :: d in L.files[e].blks ==> d in L.down && L.down[d] == e;
    hide Want, IFreeOk, DFreeOk, Owns, Rev;
  }

  // ---- the whole of lftruncate ----

  lemma DetachedOk(fs: Fs, L: Layout, e: int, c: Cb)
    requires FileInv(fs, L, e, Some(c)) && !c.ibdirty && !c.dbdirty
    ensures Detached(fs.(dir := SetIlist(SetSize(fs.dir, e, 0), e, NULL), dirty := true), L, e)
    ensures fs.dir.files[e].size > 0 ==> L.files[e].ch != [] && fs.dir.files[e].ilist == L.files[e].ch[0]
    ensures OthersUntouched(fs, L, fs.(dir := SetIlist(SetSize(fs.dir, e, 0), e, NULL), dirty := true), L, e)
  {
    CleanOnDisk(fs, L, e, c);
    DetachedDisk(fs, L, e);
    hide Want, IFreeOk, DFreeOk, CacheOk, Loaded, Owns;
    var f := L.files[e];
    forall k | 0 <= k < |f.ch| ensures fs.ibs[f.ch[k]] == Want(f, k) {
      assert IbAt(fs, None, f.ch[k]) == Want(f, k);
    }
  }

  lemma DetachedDisk(fs: Fs, L: Layout, e: int)
    requires FileInv(fs, L, e, None)
    ensures var fs1 := fs.(dir := SetIlist(SetSize(fs.dir, e, 0), e, NULL), dirty := true);
      Sizes(fs1, L) && OthersUntouched(fs, L, fs1, L, e)
    ensures forall k :: 0 <= k < |L.files[e].ch| ==> L.files[e].ch[k] in fs.ibs
    ensures Tight(L.files[e], |L.files[e].blks| * LF_BLKSIZ)
    ensures fs.dir.files[e].size > 0 ==> L.files[e].ch != [] && fs.dir.files[e].ilist == L.files[e].ch[0]
  {
    OwnsSame(L.iown, L.iown, e, L.files[e].ch);
    hide Want, IFreeOk, DFreeOk, Owns;
    TouchOwn(fs, L, fs.(dir := SetIlist(SetSize(fs.dir, e, 0), e, NULL), dirty := true), e);
  }

  /** The truncated file is empty and consistent. */
  lemma EmptyFile(fs: Fs, L: Layout, e: int, c: Cb)
    requires DiskOk(fs, L) && 0 <= e < |L.files| && L.files[e] == FileLay([], [])
    requires Owns(L.iown, e, []) && Owns(L.down, e, []) && fs.dir.files[e].size == 0 && fs.dir.files[e].ilist == NULL
    requires c.ent == e && c.pos == 0 && c.inum == NULL && c.dnum == NULL && c.byt == LF_BLKSIZ && !c.ibdirty
      && !c.dbdirty
    requires |c.blk| == LF_BLKSIZ && |c.ib.dba| == LF_IBLEN
    ensures FileInv(fs, L, e, Some(c)) && AbsOf(fs, L, e, c) == Abs([], 0)
  {
    hide IFreeOk, DFreeOk, Want, ByteAt;
  }

  lemma TruncWalk(fs: Fs, L: Layout, e: int, junk: int -> Tail) returns (fs2: Fs)
    requires Detached(fs, L, e) && L.files[e].ch != []
    ensures FreeChain(fs, L.files[e].ch[0], fs.dir.ifree, fs.ibs.Keys, junk) == Some(fs2)
    ensures var fs3 := fs2.(dir := fs2.dir.(ifree := L.files[e].ch[0]), dirty := true);
      && DiskOk(fs3, TruncLay(L, e)) && OthersUntouched(fs, L, fs3, TruncLay(L, e), e) && fs3.dir.files == fs.dir.files
  {
    DetachedStart(fs, L, e);
    fs2 := ChainOk(fs, L.files[e], L.dfree, fs.dir.ifree, 0, fs, fs.ibs.Keys, junk);
    var left :| ChainTo(fs, L.files[e], L.dfree, fs.dir.ifree, |L.files[e].ch|, fs2, left);
    hide Detached, ChainTo, FreeChain, Owns, DiskOk, OthersUntouched, CanFree;
    ChainEnd(fs, L, e, fs2, left);
    assert Head(L.files[e].ch + L.ifree) == L.files[e].ch[0];
  }

  lemma TruncFlushed(fs: Fs, L: Layout, e: int, c: Cb)
    requires FileInv(fs, L, e, Some(c))
    ensures var (fs0, c0) := if c.ibdirty || c.dbdirty then Flush(fs, c) else (fs, c);
      && FileInv(fs0, L, e, Some(c0)) && fs0.dir == fs.dir && OthersUntouched(fs, L, fs0, L, e)
      && c0 == c.(ibdirty := false, dbdirty := false)
  {
    FlushOk(fs, L, e, c);
    FlushSize(fs, L, e, c);
    SameExtends(fs, L, e, c);
    ExtendsUntouched(fs, L, c, fs, L, c, e);
    ExtendsUntouched(fs, L, c, Flush(fs, c).0, L, Flush(fs, c).1, e);
    hide FileInv, Extends, OthersUntouched;
  }

  lemma CbShape(fs: Fs, L: Layout, e: int, c: Cb)
    requires FileInv(fs, L, e, Some(c))
    ensures DiskOk(fs, L) && 0 <= e < |L.files| == |fs.dir.files| && Owns(L.iown, e, L.files[e].ch)
      && Owns(L.down, e, L.files[e].blks)
    ensures c.ent == e && |c.blk| == LF_BLKSIZ && |c.ib.dba| == LF_IBLEN
  {
    hide IFreeOk, DFreeOk, Want, Owns;
  }

  /** lftruncate always ends, leaves the file empty, moves exactly its blocks onto the free lists
      (the old list of free index blocks is the end of the new one, also when it was empty), and
      touches no other file. */
  lemma TruncateOk(fs: Fs, L: Layout, e: int, c: Cb, junk: int -> Tail) returns (fs': Fs, c': Cb)
    requires FileInv(fs, L, e, Some(c)) && fs.dir.files[e].size > 0
    ensures c.ent == e && Truncate(fs, c, junk) == Some((fs', c'))
    ensures FileInv(fs', TruncLay(L, e), e, Some(c')) && AbsOf(fs', TruncLay(L, e), e, c') == Abs([], 0)
    ensures OthersUntouched(fs, L, fs', TruncLay(L, e), e) && fs'.dirty
  {
    hide FileInv, DiskOk, OthersUntouched, Detached, Owns, FreeChain, Flush, Content;
    CbShape(fs, L, e, c);
    TruncFlushed(fs, L, e, c);
    var (fs0, c0) := if c.ibdirty || c.dbdirty then Flush(fs, c) else (fs, c);
    var fs1 := fs0.(dir := SetIlist(SetSize(fs0.dir, e, 0), e, NULL), dirty := true);
    DetachedOk(fs0, L, e, c0);
    var fs2 := TruncWalk(fs1, L, e, junk);
    fs' := fs2.(dir := fs2.dir.(ifree := L.files[e].ch[0]), dirty := true);
    c' := c0.(pos := 0, inum := NULL, dnum := NULL, byt := LF_BLKSIZ);
    TruncOwnsOf(fs, L, e, c);
    EmptyFile(fs', TruncLay(L, e), e, c');
    OthersTrans(fs, L, fs0, L, fs1, L, e);
    OthersTrans(fs, L, fs1, L, fs', TruncLay(L, e), e);
  }

  lemma TruncOwnsOf(fs: Fs, L: Layout, e: int, c: Cb)
    requires FileInv(fs, L, e, Some(c))
    ensures Owns(TruncLay(L, e).iown, e, []) && Owns(TruncLay(L, e).down, e, [])
  {
    hide Owns, Want;
    TruncOwns(L, e);
  }

  lemma OthersTrans(a: Fs, La: Layout, b: Fs, Lb: Layout, c: Fs, Lc: Layout, e: int)
    requires DiskOk(a, La) && OthersUntouched(a, La, b, Lb, e) && OthersUntouched(b, Lb, c, Lc, e)
    ensures OthersUntouched(a, La, c, Lc, e)
  {
    hide IFreeOk, DFreeOk;
    UntouchedBoth(a, La, b, Lb, c, Lc, e);
  }
}
