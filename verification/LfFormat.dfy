/** A new disk is a consistent file system without files, from which every run starts. */
module LfFormat {
  import opened Kernel
  import opened Bytes
  import opened LfCodec
  import opened LfSpec
  import opened LfInv
  import opened LfDisk
  import opened LfDevice
  import opened LfRun

  function Range(lo: int, hi: int): (s: seq<int>)
    requires lo <= hi
    ensures |s| == hi - lo && forall i :: 0 <= i < |s| ==> s[i] == lo + i
  {
    seq(hi - lo, i => lo + i)
  }

  function AllFree(s: seq<int>): map<int, int> { map i | i in s :: FREE }

  /** Both areas are entirely free. */
  ghost function NewLayout(k: nat, n: nat): (L: Layout)
    requires k + 1 <= n
    ensures L.files == []
  {
    Layout(Range(0, IB_PER_SECT * k), Range(k + 1, n), [], AllFree(Range(0, IB_PER_SECT * k)), AllFree(Range(k + 1, n)))
  }

  /** The free lists of a new disk enumerate the index area and the data area, which lie behind the
      directory, one behind the other, inside the disk; there are no files. */
  lemma FormatInv(d: Disk, k: nat, s: Sys)
    requires Formatted(d, k, |d|) && |d| < 0x8000_0000 && s == Sys(ViewOf(d, k), map[])
    ensures SysInv(s, NewLayout(k, |d|)) && AbsSys(s, NewLayout(k, |d|)) == ASys([], map[])
  {
    FormatDisk(d, k, ViewOf(d, k));
    hide DiskOk, ViewOf, NewLayout, Formatted;
    NoFiles(s, NewLayout(k, |d|));
  }

  lemma NoFiles(s: Sys, L: Layout)
    requires DiskOk(s.fs, L) && L.files == [] && s.open == map[]
    ensures SysInv(s, L) && AbsSys(s, L) == ASys([], map[])
  {
    hide DiskOk, FileInv, AbsSys;
    assert AbsSys(s, L).files == [] && AbsSys(s, L).pos.Keys == {};
  }

  /** What the file system reads from a new disk. */
  lemma FormatView(d: Disk, k: nat, fs: Fs)
    requires Formatted(d, k, |d|) && fs == ViewOf(d, k)
    ensures fs.dir.nfiles == 0 && fs.dir.files == [] && fs.dir.ifree == 0 && fs.dir.dfree == k + 1
    ensures (forall i :: i in fs.ibs <==> 0 <= i < IB_PER_SECT * k) && (forall s :: s in fs.blocks <==> k < s < |d|)
    ensures forall i :: 0 <= i < IB_PER_SECT * k ==> fs.ibs[i].next == Succ(i, IB_PER_SECT * k)
    ensures forall s :: k < s < |d| ==> |fs.blocks[s]| == LF_BLKSIZ && DecI(fs.blocks[s][..4]) == Succ(s, |d|)
  {
    assert InUse(NewDir(k)).files == [];
    hide IbOf, SetIb, GetIb;
  }

  lemma FormatDisk(d: Disk, k: nat, fs: Fs)
    requires Formatted(d, k, |d|) && |d| < 0x8000_0000 && fs == ViewOf(d, k)
    ensures DiskOk(fs, NewLayout(k, |d|))
  {
    FormatView(d, k, fs);
    hide ViewOf, Formatted, DiskOk, NewLayout;
    NewDisk(fs, k, |d|);
  }

  lemma NewDisk(fs: Fs, k: nat, n: nat)
    requires 1 <= k && k + 2 <= n < 0x8000_0000
    requires fs.dir.nfiles == 0 && fs.dir.files == [] && fs.dir.ifree == 0 && fs.dir.dfree == k + 1
    requires (forall i :: i in fs.ibs <==> 0 <= i < IB_PER_SECT * k) && (forall s :: s in fs.blocks <==> k < s < n)
    requires forall i :: 0 <= i < IB_PER_SECT * k ==> fs.ibs[i].next == Succ(i, IB_PER_SECT * k)
    requires forall s :: k < s < n ==> |fs.blocks[s]| == LF_BLKSIZ && DecI(fs.blocks[s][..4]) == Succ(s, n)
    ensures DiskOk(fs, NewLayout(k, n))
  {
    hide Range, AllFree, IFreeOk, DFreeOk, Sizes, Succ;
    IFreeNew(fs.ibs, k);
    DFreeNew(fs.blocks, k, n);
    NewSizes(fs, k, n);
  }

  lemma NewSizes(fs: Fs, k: nat, n: nat)
    requires 1 <= k && k + 2 <= n < 0x8000_0000 && fs.dir.nfiles == 0 && fs.dir.files == []
    requires (forall i :: i in fs.ibs <==> 0 <= i < IB_PER_SECT * k) && (forall s :: s in fs.blocks <==> k < s < n)
    requires forall s :: k < s < n ==> |fs.blocks[s]| == LF_BLKSIZ
    ensures Sizes(fs, NewLayout(k, n))
  {
    AllFreeKeys(0, IB_PER_SECT * k);
    AllFreeKeys(k + 1, n);
    hide Range, AllFree;
    var L := NewLayout(k, n);
    forall i ensures i in L.iown.Keys <==> i in fs.ibs.Keys { assert i in L.iown <==> i in fs.ibs; }
    forall s ensures s in L.down.Keys <==> s in fs.blocks.Keys { assert s in L.down <==> s in fs.blocks; }
  }

  lemma AllFreeKeys(lo: int, hi: int)
    requires lo <= hi
    ensures forall i :: i in AllFree(Range(lo, hi)) <==> lo <= i < hi
    ensures forall i :: i in AllFree(Range(lo, hi)) ==> AllFree(Range(lo, hi))[i] == FREE
  {
    RangeKeys(lo, hi);
    hide Range;
  }

  lemma RangeKeys(lo: int, hi: int)
    requires lo <= hi
    ensures forall i :: i in Range(lo, hi) <==> lo <= i < hi
  {
    forall i | lo <= i < hi ensures i in Range(lo, hi) { assert Range(lo, hi)[i - lo] == i; }
  }

  lemma IFreeNew(ibs: map<int, Ib>, k: nat)
    requires 1 <= k && forall i :: 0 <= i < IB_PER_SECT * k ==> i in ibs && ibs[i].next == Succ(i, IB_PER_SECT * k)
    ensures IFreeOk(ibs, 0, AllFree(Range(0, IB_PER_SECT * k)), Range(0, IB_PER_SECT * k))
  {}

  lemma DFreeNew(blocks: map<int, seq<byte>>, k: nat, n: nat)
    requires k + 2 <= n
    requires forall s :: k < s < n ==> s in blocks && |blocks[s]| == LF_BLKSIZ && DecI(blocks[s][..4]) == Succ(s, n)
    ensures DFreeOk(blocks, k + 1, AllFree(Range(k + 1, n)), Range(k + 1, n))
  {}

  // ---- which arguments of lfscreate give a file system ----

  /** The disk is a consistent file system with some number of index sectors. */
  ghost predicate Consistent(d: Disk) {
    exists k: nat, L: Layout :: k < |d| && DiskOk(ViewOf(d, k), L)
  }

  /** Of the arguments that pass its check, lfscreate makes a consistent file system of exactly those
      with at least one index block, except at most seven of them on two sectors. */
  lemma CreateExact(d: Disk, d': Disk, lfiblks: int)
    requires Int32(lfiblks) && 1 <= |d| < TWO32 / LF_BLKSIZ && IbSectors(lfiblks) <= |d| / 2
    requires Created(d, d', IbSectors(lfiblks), |d|)
    ensures Consistent(d') <==> 1 <= lfiblks && !(lfiblks <= IB_PER_SECT && |d| == 2)
  {
    var k := IbSectors(lfiblks);
    hide Created, IbSectors, DiskOk, ViewOf;
    SectorsFor(lfiblks, |d|);
    if 1 <= k && k + 2 <= |d| {
      CreatedGood(d, d', k, |d|);
      FormatDisk(d', k, ViewOf(d', k));
    } else {
      BadHeads(d, d', k);
      forall m: nat, L: Layout | m < |d'| ensures !DiskOk(ViewOf(d', m), L) { NoArea(d', m, L); }
    }
  }

  lemma SectorsFor(lfiblks: int, n: nat)
    requires Int32(lfiblks) && 1 <= n < TWO32 / LF_BLKSIZ && IbSectors(lfiblks) <= n / 2
    ensures 1 <= lfiblks && !(lfiblks <= IB_PER_SECT && n == 2)
            <==> 1 <= IbSectors(lfiblks) && IbSectors(lfiblks) + 2 <= n
  {}

  /** Otherwise the free index blocks would start with block 0, which lies in sector 1, and the free
      data blocks with sector 1 as well, or there is no sector 1. */
  lemma BadHeads(d: Disk, d': Disk, k: nat)
    requires 1 <= |d| < TWO32 / LF_BLKSIZ && k <= |d| / 2 && !(1 <= k && k + 2 <= |d|) && Created(d, d', k, |d|)
    ensures |d'| == |d| && DecDir(d'[0]).ifree == 0 && (|d| == 1 || DecDir(d'[0]).dfree == 1)
  {
    if Turn(k, 0) < Turns(k, |d|) {
      assert d'[0] == LinkOf(0, Turn(k, 0), Turns(k, |d|));
      LinkIs(if Turn(k, 0) + 1 == Turns(k, |d|) then NULL else 1);
    }
  }

  /** With no index block asked for, both lists start in sector 1: the first free index block and the
      link of the first free data block are the same bytes. */
  lemma NoIndexBlocks(d: Disk, d': Disk, lfiblks: int)
    requires -6 <= lfiblks <= 0 && 2 <= |d| < TWO32 / LF_BLKSIZ && Created(d, d', IbSectors(lfiblks), |d|)
    ensures IbSectors(lfiblks) <= |d| / 2
    ensures DecDir(d'[0]).ifree == 0 && DecDir(d'[0]).dfree == Sect(0)
    ensures IbOf(d', 0).next == DecI(d'[Sect(0)][..4]) == Succ(1, |d|)
  {
    hide DecDir, DecI, DecWords, LinkOf;
    BadHeads(d, d', 0);
    InList(0, 1, |d|);
    FirstBytes(d');
  }

  lemma FirstBytes(d: Disk)
    requires 1 < |d|
    ensures IbOf(d, 0).next == DecI(d[1][..4])
  {
    hide DecI, DecWords;
    assert GetIb(d, 0)[..4] == d[1][..4];
  }

  lemma NoArea(d: Disk, k: nat, L: Layout)
    requires k < |d| && DecDir(d[0]).ifree == 0 && (|d| == 1 || DecDir(d[0]).dfree == 1)
    ensures !DiskOk(ViewOf(d, k), L)
  {
    hide DecDir, IbOf, DiskOk;
    if DiskOk(ViewOf(d, k), L) { HeadsIn(ViewOf(d, k), L); }
  }

  lemma HeadsIn(fs: Fs, L: Layout)
    requires DiskOk(fs, L)
    ensures fs.dir.ifree != NULL ==> fs.dir.ifree in fs.ibs
    ensures fs.dir.dfree != NULL ==> fs.dir.dfree in fs.blocks
  {
    if L.ifree != [] { assert L.ifree[0] in fs.ibs; }
    if L.dfree != [] { assert L.dfree[0] in fs.blocks; }
  }
}
