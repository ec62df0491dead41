/** The disk device and the routines that move bytes between it and memory: lfibget, lfibput,
    lfscreate and lfsckfmt. */
module LfDevice {
  import opened Kernel
  import opened Bytes
  import opened LfCodec
  import opened LfSpec
  import opened LfInv
  import opened LfDisk

  /** The index sectors that lfscreate computes for n index blocks: n is signed, the sum is not. */
  function IbSectors(n: int): nat { (n + (IB_PER_SECT - 1)) % TWO32 / IB_PER_SECT }

  /** What follows n in a list that ends before `end`. */
  function Succ(n: int, end: int): int { if n + 1 < end then n + 1 else NULL }

  /** The directory of a new disk. */
  function NewDir(k: nat): Dir {
    Dir(k + 1, 0, 0, seq(LF_NUM_DIR_ENT, _ => Ldentry(0, 0, seq(LF_NAME_LEN, _ => 0))))
  }

  /** A new disk with k index sectors and n sectors in all: the directory, and both lists in
      ascending order. */
  ghost predicate Formatted(d: Disk, k: nat, n: nat) {
    && 1 <= k && k + 2 <= n <= |d|
    && DecDir(d[0]) == NewDir(k)
    && (forall i :: 0 <= i < IB_PER_SECT * k ==> IbOf(d, i) == IbClear(0).(next := Succ(i, IB_PER_SECT * k)))
    && (forall s :: k < s < n ==> DecI(d[s][..4]) == Succ(s, n))
  }

  /** A data block on the free list. */
  function FreeBlock(next: int): Sector
    requires Int32(next)
  {
    EncI(next) + seq(LF_BLKSIZ - 4, _ => 0)
  }

  /** How many data blocks lfscreate writes behind k index sectors on n sectors: the count of free
      blocks is unsigned, the loop makes one turn less, and the last block is written behind it. */
  function Turns(k: nat, n: nat): nat { (n - k - 2) % TWO32 + 1 }

  /** The turn in which the loop, whose sector number wraps around, comes to sector s. */
  function Turn(k: nat, s: nat): int { if k < s then s - k - 1 else s - k - 1 + TWO32 }

  /** The sector of turn i. */
  function TurnSector(k: nat, i: nat): int {
    if k + 1 + i < 0x8000_0000 then k + 1 + i else k + 1 + i - TWO32
  }

  function Inc32(x: int): int { if x + 1 == 0x8000_0000 then -0x8000_0000 else x + 1 }

  /** What turn t of so many leaves in sector s. */
  function LinkOf(s: nat, t: int, turns: nat): Sector
    requires s < 0x7fff_ffff
  {
    FreeBlock(if t + 1 == turns then NULL else s + 1)
  }

  /** What lfscreate makes of d with k index sectors and n sectors in all, whatever they are: the
      loop over the data blocks comes last, and what it does not reach is the directory, the list of
      free index blocks, or as before. */
  ghost predicate Created(d: Disk, d': Disk, k: nat, n: nat)
    requires |d| < 0x8000_0000
  {
    && |d'| == |d|
    && (forall s :: 0 <= s < |d| && Turn(k, s) < Turns(k, n) ==> d'[s] == LinkOf(s, Turn(k, s), Turns(k, n)))
    && (0 < |d| && Turn(k, 0) >= Turns(k, n) ==> DecDir(d'[0]) == NewDir(k))
    && (forall i :: 0 <= i < IB_PER_SECT * k && Sect(i) < |d| && Turn(k, Sect(i)) >= Turns(k, n) ==>
          IbOf(d', i) == IbClear(0).(next := Succ(i, IB_PER_SECT * k)))
    && (forall s :: k < s < |d| && Turn(k, s) >= Turns(k, n) ==> d'[s] == d[s])
  }

  class Device {
    var d: Disk

    /** Fails beyond the end of the disk. */
    method Read(buf: array<byte>, s: int) returns (st: int)
      requires buf.Length == LF_BLKSIZ
      modifies buf
      ensures 0 <= s < |d| ==> st != SYSERR && buf[..] == d[s]
      ensures !(0 <= s < |d|) ==> st == SYSERR && buf[..] == old(buf[..])
    {
      if !(0 <= s < |d|) {
        return SYSERR;
      }
      var sector := d[s];
      forall i | 0 <= i < LF_BLKSIZ { buf[i] := sector[i]; }
      st := LF_BLKSIZ;
    }

    method Write(buf: array<byte>, s: int) returns (st: int)
      requires buf.Length == LF_BLKSIZ
      modifies this
      ensures |d| == |old(d)|
      ensures 0 <= s < |old(d)| ==> st != SYSERR && d == old(d)[s := buf[..]]
      ensures !(0 <= s < |old(d)|) ==> st == SYSERR && d == old(d)
    {
      if !(0 <= s < |d|) {
        return SYSERR;
      }
      d := d[s := buf[..]];
      st := LF_BLKSIZ;
    }

    /** lfibget */
    method IbGet(inum: nat, ibuff: array<byte>)
      requires ibuff.Length == IB_BYTES && Sect(inum) < |d|
      modifies ibuff
      ensures ibuff[..] == GetIb(d, inum)
    {
      var dbuff := new byte[LF_BLKSIZ];
      var _ := Read(dbuff, Sect(inum));
      var from, i := Disp(inum), 0;
      while i < IB_BYTES
        invariant 0 <= i <= IB_BYTES && from == Disp(inum) + i && dbuff[..] == d[Sect(inum)]
        invariant forall j :: 0 <= j < i ==> ibuff[j] == dbuff[Disp(inum) + j]
      {
        ibuff[i] := dbuff[from];
        from, i := from + 1, i + 1;
      }
      assert ibuff[..] == dbuff[..][Disp(inum)..Disp(inum) + IB_BYTES];
    }

    /** lfibput */
    method IbPut(inum: nat, ibuff: array<byte>) returns (st: int)
      requires ibuff.Length == IB_BYTES
      modifies this
      ensures Sect(inum) < |old(d)| ==> st != SYSERR && d == SetIb(old(d), inum, ibuff[..])
      ensures Sect(inum) >= |old(d)| ==> st == SYSERR && d == old(d)
    {
      var dbuff := new byte[LF_BLKSIZ];
      st := Read(dbuff, Sect(inum));
      if st == SYSERR {
        return;
      }
      var to, i := Disp(inum), 0;
      ghost var s := d[Sect(inum)];
      while i < IB_BYTES
        invariant 0 <= i <= IB_BYTES && to == Disp(inum) + i && dbuff != ibuff && d == old(d)
        invariant dbuff[..] == s[..Disp(inum)] + ibuff[..i] + s[to..]
      {
        ghost var before := dbuff[..];
        dbuff[to] := ibuff[i];
        PatchMore(s, Disp(inum), ibuff[..], i, before, dbuff[..]);
        to, i := to + 1, i + 1;
      }
      assert ibuff[..IB_BYTES] == ibuff[..];
      assert dbuff[..] == Patch(s, Disp(inum), ibuff[..]);
      st := Write(dbuff, Sect(inum));
      st := OK;
    }

    /** lfscreate with a disk of dsiz bytes. */
    method Create(lfiblks: int, dsiz: nat) returns (st: int)
      requires Int32(lfiblks) && dsiz < TWO32 && dsiz / LF_BLKSIZ <= |d| < 0x8000_0000
      modifies this
      ensures st == (if IbSectors(lfiblks) > dsiz / LF_BLKSIZ / 2 || |d| == 0 then SYSERR else OK)
      ensures if st == SYSERR then d == old(d) else Created(old(d), d, IbSectors(lfiblks), dsiz / LF_BLKSIZ)
    {
      hide IbOf, SetIb, Created, Turn, Turns, LinkOf, DecDir, EncDir, EncEntries, DecU, EncU;
      var sectors := dsiz / LF_BLKSIZ;
      var ibpersector := LF_BLKSIZ / IB_BYTES;
      var ibsectors := (lfiblks + (ibpersector - 1)) % TWO32 / ibpersector;
      if ibsectors > sectors / 2 {
        return SYSERR;
      }
      var buf := new byte[LF_BLKSIZ];
      Store(buf, EncDir(NewDir(ibsectors), seq(20, _ => 0)));
      var dbindex := ibsectors + 1;
      var dblks := (sectors - ibsectors - 1) % TWO32;
      var w := Write(buf, 0);
      if w == SYSERR {
        return SYSERR;
      }
      DirRoundTrip(NewDir(ibsectors), seq(20, _ => 0));
      ghost var d0 := d;
      CreateIndex(ibsectors);
      ghost var d1 := d;
      CreateData(dbindex, dblks);
      TurnsIs(ibsectors, sectors);
      CreatedBy(old(d), d0, d1, d, ibsectors, sectors);
      st := OK;
    }

    /** The list of free index blocks. */
    method CreateIndex(k: nat)
      requires k < |d| < 0x8000_0000 && IB_PER_SECT * k < 0x8000_0000
      modifies this
      ensures |d| == |old(d)| && d[0] == old(d)[0] && forall s :: k < s < |d| && s != 1 ==> d[s] == old(d)[s]
      ensures forall i :: 0 <= i < IB_PER_SECT * k ==> IbOf(d, i) == IbClear(0).(next := Succ(i, IB_PER_SECT * k))
    {
      hide SetIb, IbOf, EncIb;
      var lfiblks := IB_PER_SECT * k;
      var ibuff := new byte[IB_BYTES];
      var iblock := IbClear(0);
      var i := 0;
      while i < lfiblks - 1
        invariant 0 <= i && (i <= lfiblks - 1 || i == 0) && |d| == |old(d)| && d[0] == old(d)[0]
        invariant forall s :: k < s < |d| && s != 1 ==> d[s] == old(d)[s]
        invariant iblock == IbClear(0).(next := iblock.next)
        invariant forall m :: 0 <= m < i ==> IbOf(d, m) == IbClear(0).(next := m + 1)
      {
        iblock := iblock.(next := i + 1);
        Store(ibuff, EncIb(iblock));
        PutAt(d, k, i, iblock);
        var _ := IbPut(i, ibuff);
        i := i + 1;
      }
      iblock := iblock.(next := NULL);
      Store(ibuff, EncIb(iblock));
      if k == 0 { PutFirst(d, iblock); } else { PutAt(d, k, i, iblock); }
      var _ := IbPut(i, ibuff);
    }

    /** The list of free data blocks. */
    method CreateData(dbindex: nat, dblks: nat)
      requires 1 <= dbindex < 0x100_0000 && dblks < TWO32 && |d| < 0x8000_0000
      modifies this
      ensures |d| == |old(d)|
      ensures forall s :: 0 <= s < |d| ==>
                d[s] == if Turn(dbindex - 1, s) <= (dblks - 1) % TWO32
                        then LinkOf(s, Turn(dbindex - 1, s), (dblks - 1) % TWO32 + 1) else old(d)[s]
    {
      hide FreeBlock;
      var dblock := new byte[LF_BLKSIZ];
      var sect := dbindex;
      var i := 0;
      while i < (dblks - 1) % TWO32
        invariant 0 <= i <= (dblks - 1) % TWO32 && sect == TurnSector(dbindex - 1, i) && |d| == |old(d)|
        invariant forall s :: 0 <= s < |d| ==>
                    d[s] == if Turn(dbindex - 1, s) < i then FreeBlock(s + 1) else old(d)[s]
      {
        StoreLink(dblock, Inc32(sect));
        var _ := Write(dblock, sect);
        sect := Inc32(sect);
        i := i + 1;
      }
      StoreLink(dblock, NULL);
      var _ := Write(dblock, sect);
    }

    static method Store(buf: array<byte>, b: seq<byte>)
      requires buf.Length == |b|
      modifies buf
      ensures buf[..] == b
    {
      forall i | 0 <= i < |b| { buf[i] := b[i]; }
    }

    static method StoreLink(buf: array<byte>, next: int)
      requires buf.Length == LF_BLKSIZ && Int32(next)
      modifies buf
      ensures buf[..] == FreeBlock(next)
    {
      Store(buf, FreeBlock(next));
    }

    /** lfsckfmt: the lengths of both free lists, on any consistent disk. */
    method Check(k: nat, ghost L: Layout) returns (lfiblks: nat, dblks: nat)
      requires 0 < k < |d| && DiskOk(ViewOf(d, k), L)
      ensures lfiblks == |L.ifree| && dblks == |L.dfree|
    {
      var dbuff := new byte[LF_BLKSIZ];
      var ibuff := new byte[IB_BYTES];
      var _ := Read(dbuff, 0);
      var dir := DecDir(dbuff[..]);
      FreeHeads(d, k, L);
      lfiblks := 0;
      var nextib := dir.ifree;
      while nextib != NULL
        invariant 0 <= lfiblks <= |L.ifree| && nextib == (if lfiblks < |L.ifree| then L.ifree[lfiblks] else NULL)
        decreases |L.ifree| - lfiblks
      {
        FreeIb(d, k, L, lfiblks);
        lfiblks := lfiblks + 1;
        IbGet(nextib, ibuff);
        nextib := DecIb(ibuff[..]).next;
      }
      dblks := 0;
      var nextdb := dir.dfree;
      while nextdb != NULL
        invariant 0 <= dblks <= |L.dfree| && nextdb == (if dblks < |L.dfree| then L.dfree[dblks] else NULL)
        decreases |L.dfree| - dblks
      {
        FreeDb(d, k, L, dblks);
        dblks := dblks + 1;
        var _ := Read(dbuff, nextdb);
        assert dbuff[..4] == d[nextdb][..4];
        nextdb := DecI(dbuff[..4]);
      }
    }
  }

  lemma TurnsIs(k: nat, n: nat)
    ensures ((n - k - 1) % TWO32 - 1) % TWO32 == Turns(k, n) - 1
  {}

  /** The three parts of lfscreate, one after the other. */
  lemma CreatedBy(d: Disk, d0: Disk, d1: Disk, d2: Disk, k: nat, n: nat)
    requires 0 < |d| == |d0| == |d1| == |d2| < 0x8000_0000 && k < |d|
    requires DecDir(d0[0]) == NewDir(k) && forall s :: 0 < s < |d| ==> d0[s] == d[s]
    requires d1[0] == d0[0] && forall s :: k < s < |d| && s != 1 ==> d1[s] == d0[s]
    requires forall i :: 0 <= i < IB_PER_SECT * k ==> IbOf(d1, i) == IbClear(0).(next := Succ(i, IB_PER_SECT * k))
    requires forall s :: 0 <= s < |d| ==>
               d2[s] == if Turn(k, s) <= Turns(k, n) - 1 then LinkOf(s, Turn(k, s), Turns(k, n)) else d1[s]
    ensures Created(d, d2, k, n)
  {
    hide NewDir, DecDir, LinkOf;
    forall i | 0 <= i < IB_PER_SECT * k && Sect(i) < |d| && Turn(k, Sect(i)) >= Turns(k, n)
      ensures IbOf(d2, i) == IbClear(0).(next := Succ(i, IB_PER_SECT * k)) {
      assert d2[Sect(i)] == d1[Sect(i)];
      assert IbOf(d2, i) == IbOf(d1, i);
    }
  }

  lemma FreeHeads(d: Disk, k: nat, L: Layout)
    requires 0 < k < |d| && DiskOk(ViewOf(d, k), L)
    ensures forall i :: 0 <= i < |L.ifree| ==> L.ifree[i] != NULL
    ensures forall i :: 0 <= i < |L.dfree| ==> L.dfree[i] != NULL
  {}

  lemma FreeIb(d: Disk, k: nat, L: Layout, i: nat)
    requires 0 < k < |d| && DiskOk(ViewOf(d, k), L) && i < |L.ifree|
    ensures 0 <= L.ifree[i] && Sect(L.ifree[i]) < |d| && DecIb(GetIb(d, L.ifree[i])).next == NextOf(L.ifree, i)
  {
    assert L.ifree[i] in ViewOf(d, k).ibs;
    SectIn(L.ifree[i], k);
  }

  lemma FreeDb(d: Disk, k: nat, L: Layout, i: nat)
    requires 0 < k < |d| && DiskOk(ViewOf(d, k), L) && i < |L.dfree|
    ensures 0 <= L.dfree[i] < |d| && DecI(d[L.dfree[i]][..4]) == NextOf(L.dfree, i)
  {
    assert L.dfree[i] in ViewOf(d, k).blocks;
  }

  lemma PutAt(d: Disk, k: nat, i: nat, b: Ib)
    requires k < |d| && i < IB_PER_SECT * k && IbFits(b)
    ensures Sect(i) < |d| && Sect(i) <= k
    ensures forall m :: 0 <= m < IB_PER_SECT * k ==> IbOf(SetIb(d, i, EncIb(b)), m) == if m == i then b else IbOf(d, m)
    ensures forall s :: 0 <= s < |d| && s != Sect(i) ==> SetIb(d, i, EncIb(b))[s] == d[s]
  {
    SectIn(i, k);
    IbRoundTrip(b);
    GetSetIb(d, i, EncIb(b), i);
    forall m | 0 <= m < IB_PER_SECT * k
      ensures IbOf(SetIb(d, i, EncIb(b)), m) == if m == i then b else IbOf(d, m) {
      SectIn(m, k);
      GetSetIb(d, i, EncIb(b), m);
    }
  }

  lemma PatchMore(s: seq<byte>, p: nat, b: seq<byte>, i: nat, buf: seq<byte>, buf': seq<byte>)
    requires i < |b| && p + |b| <= |s| && buf == s[..p] + b[..i] + s[p + i..] && buf' == buf[p + i := b[i]]
    ensures buf' == s[..p] + b[..i + 1] + s[p + i + 1..]
  {
    assert b[..i + 1] == b[..i] + [b[i]];
  }

  /** Writing index block 0 where there is no index area goes to sector 1. */
  lemma PutFirst(d: Disk, b: Ib)
    requires 0 < |d| && IbFits(b)
    ensures 1 < |d| ==> forall s :: 0 <= s < |d| && s != 1 ==> SetIb(d, 0, EncIb(b))[s] == d[s]
  {}

  /** With room for both areas the disk is formatted, and what lies behind it is as before. */
  lemma CreatedGood(d: Disk, d': Disk, k: nat, n: nat)
    requires |d| < 0x8000_0000 && Created(d, d', k, n) && 1 <= k && k + 2 <= n <= |d|
    ensures |d'| == |d| && Formatted(d', k, n) && forall s :: n <= s < |d| ==> d'[s] == d[s]
  {
    hide NewDir, DecDir, DecI, IbOf, LinkOf;
    forall s | k < s < n ensures DecI(d'[s][..4]) == Succ(s, n) { InList(k, s, n); }
    forall i | 0 <= i < IB_PER_SECT * k ensures IbOf(d', i) == IbClear(0).(next := Succ(i, IB_PER_SECT * k)) {
      SectIn(i, k);
    }
  }

  lemma InList(k: nat, s: nat, n: nat)
    requires k < s < n < 0x8000_0000
    ensures Turn(k, s) < Turns(k, n) && DecI(LinkOf(s, Turn(k, s), Turns(k, n))[..4]) == Succ(s, n)
  {
    hide DecI, FreeBlock;
    LinkIs(Succ(s, n));
  }

  lemma LinkIs(next: int)
    requires Int32(next)
    ensures DecI(FreeBlock(next)[..4]) == next && DecI(FreeBlock(next)[4..8]) == 0
  {
    WordRoundTrip(next);
    assert FreeBlock(next)[..4] == EncI(next);
    assert FreeBlock(next)[4..8] == [0, 0, 0, 0];
  }
}
