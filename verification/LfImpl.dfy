/** The local file system as the program runs it: the directory in memory, the disk, and the
    control block of an open file, changed step by step. */
module LfImpl {
  import opened Kernel
  import opened Bytes
  import opened Wrappers
  import opened LfCodec
  import opened LfSpec
  import opened LfInv
  import opened LfFile
  import opened LfOps
  import opened LfStream
  import opened LfSync
  import S = LfSpec

  /** Lf_data and the disk. */
  class FileSystem {
    var ibs: map<int, Ib>
    var blocks: map<int, seq<byte>>
    var ddir: Dir
    var dir: Dir
    var dirty: bool

    ghost function View(): Fs reads this { Fs(ibs, blocks, ddir, dir, dirty) }

    /** Index blocks and data blocks have their sizes. */
    ghost predicate Shaped() reads this {
      && (forall n :: n in ibs ==> |ibs[n].dba| == LF_IBLEN)
      && (forall d :: d in blocks ==> |blocks[d]| == LF_BLKSIZ)
    }

    method WriteDirectory()
      modifies this`ddir, this`dirty
      ensures ddir == dir && !dirty
    {
      ddir := dir;
      dirty := false;
    }

    method IbAlloc() returns (n: int)
      requires S.IbAlloc(View()).Some?
      modifies this
      ensures S.IbAlloc(old(View())) == Some((View(), n))
    {
      n := dir.ifree;
      var ib := ibs[n];
      dir := dir.(ifree := ib.next);
      WriteDirectory();
    }

    /** Fills the caller's buffer with '+'. */
    method DbAlloc(buf: array<byte>) returns (d: int)
      requires S.DbAlloc(View()).Some? && buf.Length == LF_BLKSIZ
      modifies this, buf
      ensures S.DbAlloc(old(View())) == Some((View(), d)) && buf[..] == seq(LF_BLKSIZ, _ => DFILL)
    {
      d := dir.dfree;
      forall i | 0 <= i < LF_BLKSIZ { buf[i] := blocks[d][i]; }
      assert buf[..4] == blocks[d][..4];
      dir := dir.(dfree := DecI(buf[..4]));
      WriteDirectory();
      forall i | 0 <= i < LF_BLKSIZ { buf[i] := DFILL; }
      assert buf[..] == seq(LF_BLKSIZ, _ => DFILL);
    }

    method DbFree(d: int, junk: Tail)
      requires Int32(dir.dfree)
      modifies this`blocks, this`dir, this`ddir
      ensures View() == S.DbFree(old(View()), d, junk)
    {
      var link := dir.dfree;
      dir := dir.(dfree := d);
      blocks := blocks[d := EncI(link) + junk];
      ddir := dir;
    }
  }

  /** An entry of lfltab in use. */
  class OpenFile {
    const fs: FileSystem
    const ent: int
    const blk: array<byte>
    /** lfstate is LF_USED. */
    var used: bool
    var pos: int
    var inum: int
    var ib: Ib
    var dnum: int
    var byt: int
    var ibdirty: bool
    var dbdirty: bool

    /** The control block as lfsopen leaves it for an existing file. */
    constructor (fs: FileSystem, ent: int, blk: array<byte>, ib: Ib)
      ensures this.fs == fs && this.ent == ent && this.blk == blk && used && C() == Opened(ent, ib, blk[..])
    {
      this.fs, this.ent, this.blk, this.ib, used := fs, ent, blk, ib, true;
      pos, inum, dnum, byt, ibdirty, dbdirty := 0, NULL, NULL, LF_BLKSIZ, false, false;
    }

    ghost function C(): Cb reads this, blk { Cb(ent, pos, inum, ib, dnum, blk[..], byt, ibdirty, dbdirty) }

    ghost predicate Valid() reads this, blk, fs { CbOk(fs.View(), C()) }

    method Flush()
      requires Valid() && fs.Shaped()
      modifies fs, this`ibdirty, this`dbdirty
      ensures fs.View() == S.Flush(old(fs.View()), old(C())).0 && C() == S.Flush(old(fs.View()), old(C())).1
      ensures Valid() && fs.Shaped()
    {
      if fs.dirty {
        fs.WriteDirectory();
      }
      if dbdirty {
        fs.blocks := fs.blocks[dnum := blk[..]];
        dbdirty := false;
      }
      if ibdirty {
        fs.ibs := fs.ibs[inum := ib];
        ibdirty := false;
      }
    }

    /** lfibclear */
    method ClearIb(offset: int)
      requires |ib.dba| == LF_IBLEN
      modifies this`ib
      ensures ib == IbClear(offset)
    {
      ib := ib.(next := NULL);
      ib := ib.(offset := offset);
      var i := 0;
      while i < LF_IBLEN
        invariant 0 <= i <= LF_IBLEN && |ib.dba| == LF_IBLEN && ib.next == NULL && ib.offset == offset
        invariant forall j :: 0 <= j < i ==> ib.dba[j] == NULL
      {
        ib := ib.(dba := ib.dba[i := NULL]);
        i := i + 1;
      }
      assert ib.dba == IbClear(offset).dba;
    }

    /** The first part of lfsetup. */
    method FirstIb()
      requires Valid() && fs.Shaped() && S.FirstIb(fs.View(), C()).Some?
      modifies fs, this`ib, this`inum, this`ibdirty
      ensures S.FirstIb(old(fs.View()), old(C())) == Some((fs.View(), C()))
      ensures fs.Shaped() && |ib.dba| == LF_IBLEN
    {
      var n := inum;
      if n == NULL {
        n := fs.dir.files[ent].ilist;
        if n == NULL {
          n := fs.IbAlloc();
          ClearIb(0);
          fs.dir := SetIlist(fs.dir, ent, n);
          ibdirty := true;
        } else {
          ib := fs.ibs[n];
        }
        inum := n;
      } else if pos < ib.offset {
        n := fs.dir.files[ent].ilist;
        ib := fs.ibs[n];
        inum := n;
      }
    }

    /** One turn of the loop of lfsetup. */
    method NextIb()
      requires S.NextIb(fs.View(), C()).Some? && |ib.dba| == LF_IBLEN && fs.Shaped()
      modifies fs, this`ib, this`inum, this`ibdirty, this`dnum
      ensures S.NextIb(old(fs.View()), old(C())) == Some((fs.View(), C()))
      ensures fs.Shaped() && |ib.dba| == LF_IBLEN
    {
      var n := ib.next;
      if n == NULL {
        n := fs.IbAlloc();
        ib := ib.(next := n);
        fs.ibs := fs.ibs[inum := ib];
        inum := n;
        var newoffset := ib.offset + LF_IDATA;
        ClearIb(newoffset);
        ibdirty := true;
      } else {
        ib := fs.ibs[n];
        inum := n;
      }
      dnum := NULL;
    }

    method Walk()
      requires S.Walk(fs.View(), C()).Some? && 0 <= pos && |ib.dba| == LF_IBLEN
      requires fs.Shaped()
      modifies fs, this`ib, this`inum, this`ibdirty, this`dnum
      ensures S.Walk(old(fs.View()), old(C())) == Some((fs.View(), C()))
      ensures fs.Shaped() && |ib.dba| == LF_IBLEN
    {
      while Cover(pos) > ib.offset
        invariant S.Walk(fs.View(), C()).Some? && S.Walk(fs.View(), C()) == S.Walk(old(fs.View()), old(C()))
        invariant |ib.dba| == LF_IBLEN && fs.Shaped()
        decreases Cover(pos) - ib.offset
      {
        NextIb();
      }
    }

    /** The last part of lfsetup. */
    method LoadBlock()
      requires 0 <= pos && blk.Length == LF_BLKSIZ && S.LoadBlock(fs.View(), C()).Some?
      requires fs.Shaped()
      modifies fs, blk, this`ib, this`ibdirty, this`dbdirty, this`dnum, this`byt
      ensures S.LoadBlock(old(fs.View()), old(C())) == Some((fs.View(), C()))
      ensures fs.Shaped()
    {
      var dindex := pos % LF_IDATA / LF_BLKSIZ;
      var d := ib.dba[dindex];
      if d == NULL {
        d := fs.DbAlloc(blk);
        ib := ib.(dba := ib.dba[dindex := d]);
        ibdirty := true;
      } else if d != dnum {
        forall i | 0 <= i < LF_BLKSIZ { blk[i] := fs.blocks[d][i]; }
        assert blk[..] == fs.blocks[d];
        dbdirty := false;
      }
      dnum := d;
      byt := pos % LF_BLKSIZ;
    }

    /** lfsetup */
    method Setup()
      requires Valid() && fs.Shaped() && S.Setup(fs.View(), C()).Some?
      modifies fs, blk, this`ib, this`inum, this`ibdirty, this`dbdirty, this`dnum, this`byt
      ensures S.Setup(old(fs.View()), old(C())) == Some((fs.View(), C()))
      ensures fs.Shaped() && |blk[..]| == LF_BLKSIZ
    {
      if ibdirty || dbdirty {
        Flush();
      }
      FirstIb();
      Walk();
      LoadBlock();
    }

    /** lflgetc */
    method Getc() returns (r: int)
      requires Valid() && fs.Shaped() && (used ==> S.Getc(fs.View(), C()).Some?)
      modifies fs, blk, this
      ensures fs.Shaped() && used == old(used)
      ensures if used then S.Getc(old(fs.View()), old(C())) == Some((fs.View(), C(), r))
              else r == SYSERR && fs.View() == old(fs.View()) && C() == old(C())
    {
      if !used {
        return SYSERR;
      }
      if pos >= fs.dir.files[ent].size {
        return EOF;
      }
      if byt >= LF_BLKSIZ {
        Setup();
      }
      r := blk[byt] as int;
      byt := byt + 1;
      pos := pos + 1;
    }

    /** lflputc */
    method Putc(ch: byte) returns (ok: bool)
      requires Valid() && fs.Shaped() && (used ==> S.Putc(fs.View(), C(), ch).Some?)
      modifies fs, blk, this
      ensures fs.Shaped() && used == old(used)
      ensures if used then S.Putc(old(fs.View()), old(C()), ch) == Some((fs.View(), C(), ok))
              else !ok && fs.View() == old(fs.View()) && C() == old(C())
    {
      hide S.PutByte, S.Setup;
      if !used {
        return false;
      }
      if pos > fs.dir.files[ent].size {
        return false;
      }
      if byt >= LF_BLKSIZ {
        Setup();
      }
      PutcIs(old(fs.View()), old(C()), fs.View(), C(), ch);
      StoreByte(ch);
      ok := true;
    }

    /** The end of lflputc. */
    method StoreByte(ch: byte)
      requires 0 <= byt < blk.Length && 0 <= ent < |fs.dir.files| && fs.Shaped()
      modifies fs`dir, fs`dirty, blk, this`byt, this`pos, this`dbdirty
      ensures fs.View() == S.PutByte(old(fs.View()), old(C()), ch).0 && C() == S.PutByte(old(fs.View()), old(C()), ch).1
      ensures fs.Shaped()
    {
      if pos >= fs.dir.files[ent].size {
        fs.dir := SetSize(fs.dir, ent, fs.dir.files[ent].size + 1);
        fs.dirty := true;
      }
      blk[byt] := ch;
      byt := byt + 1;
      pos := pos + 1;
      dbdirty := true;
    }

    /** lflseek */
    method Seek(offset: nat) returns (ok: bool)
      requires Valid()
      modifies this`pos, this`byt
      ensures C() == if used then S.Seek(fs.View(), old(C()), offset).0 else old(C())
      ensures ok == (used && S.Seek(fs.View(), old(C()), offset).1)
    {
      if !used {
        return false;
      }
      if offset > fs.dir.files[ent].size {
        return false;
      }
      pos := offset;
      byt := LF_BLKSIZ;
      ok := true;
    }

    /** lflclose */
    method Close() returns (ok: bool)
      requires Valid() && fs.Shaped()
      modifies fs, this`ibdirty, this`dbdirty, this`used
      ensures ok == old(used) && !used
      ensures if ok then fs.View() == S.Close(old(fs.View()), old(C())).0 && C() == S.Close(old(fs.View()), old(C())).1
              else fs.View() == old(fs.View()) && C() == old(C())
    {
      if !used {
        return false;
      }
      if fs.dirty || dbdirty || ibdirty {
        Flush();
      }
      used := false;
      ok := true;
    }

    /** lftruncate */
    method Truncate(junk: int -> Tail)
      requires Valid() && fs.Shaped() && S.Truncate(fs.View(), C(), junk).Some?
      modifies fs, this
      ensures S.Truncate(old(fs.View()), old(C()), junk) == Some((fs.View(), C()))
    {
      if fs.dir.files[ent].size == 0 {
        return;
      }
      if ibdirty || dbdirty {
        Flush();
      }
      pos, inum, dnum, byt := 0, NULL, NULL, LF_BLKSIZ;
      var ifree := fs.dir.ifree;
      var firstib := fs.dir.files[ent].ilist;
      fs.dir := SetIlist(SetSize(fs.dir, ent, 0), ent, NULL);
      fs.dirty := true;
      FreeBlocks(firstib, ifree, junk);
      fs.dir := fs.dir.(ifree := firstib);
      fs.dirty := true;
    }

    /** The loop of lftruncate. */
    method FreeBlocks(firstib: int, ifree: int, junk: int -> Tail)
      requires fs.Shaped() && FreeChain(fs.View(), firstib, ifree, fs.ibs.Keys, junk).Some?
      modifies fs
      ensures FreeChain(old(fs.View()), firstib, ifree, old(fs.ibs.Keys), junk) == Some(fs.View())
    {
      var nextib := firstib;
      ghost var left := fs.ibs.Keys;
      while nextib != ifree
        invariant fs.Shaped() && FreeChain(fs.View(), nextib, ifree, left, junk).Some?
        invariant FreeChain(fs.View(), nextib, ifree, left, junk)
          == FreeChain(old(fs.View()), firstib, ifree, old(fs.ibs.Keys), junk)
        decreases left
      {
        var iblock := fs.ibs[nextib];
        iblock := FreeSlots(iblock, junk);
        if iblock.next == NULL {
          iblock := iblock.(next := ifree);
        }
        fs.ibs := fs.ibs[nextib := iblock];
        left := left - {nextib};
        nextib := iblock.next;
      }
    }

    /** The inner loop: every data block of an index block is freed and its slot cleared. */
    method FreeSlots(ib0: Ib, junk: int -> Tail) returns (iblock: Ib)
      requires |ib0.dba| == LF_IBLEN && FreeData(fs.View(), ib0.dba, 0, junk).Some? && fs.Shaped()
      modifies fs`blocks, fs`dir, fs`ddir
      ensures FreeData(old(fs.View()), ib0.dba, 0, junk) == Some(fs.View()) && fs.Shaped()
      ensures iblock == Ib(ib0.next, 0, seq(LF_IBLEN, _ => NULL))
    {
      iblock := ib0;
      var i := 0;
      while i < LF_IBLEN
        invariant 0 <= i <= LF_IBLEN == |iblock.dba| && iblock.next == ib0.next && fs.Shaped()
        invariant FreeData(fs.View(), ib0.dba, i, junk).Some?
        invariant FreeData(fs.View(), ib0.dba, i, junk) == FreeData(old(fs.View()), ib0.dba, 0, junk)
        invariant forall j :: 0 <= j < i ==> iblock.dba[j] == NULL
        invariant forall j :: i <= j < LF_IBLEN ==> iblock.dba[j] == ib0.dba[j]
      {
        var nextdb := iblock.dba[i];
        if nextdb != NULL {
          fs.DbFree(nextdb, junk(nextdb));
        }
        iblock := iblock.(dba := iblock.dba[i := NULL]);
        i := i + 1;
      }
      iblock := iblock.(offset := 0);
      assert iblock.dba == seq(LF_IBLEN, _ => NULL);
    }

    /** The file is consistent under layout L. */
    ghost predicate Ok(L: Layout) reads this, blk, fs { used && fs.Shaped() && FileInv(fs.View(), L, ent, Some(C())) }

    /** The byte sequence and the cursor. */
    ghost function A(L: Layout): Abs
      reads this, blk, fs
      requires Ok(L)
    {
      AbsOf(fs.View(), L, ent, C())
    }

    /** lflgetc on a consistent file. */
    method GetByte(ghost L: Layout) returns (r: int)
      requires Ok(L)
      modifies fs, blk, this
      ensures Ok(L) && OthersUntouched(old(fs.View()), L, fs.View(), L, ent)
      ensures A(L) == AbsGetc(old(A(L))).0 && r == AbsGetc(old(A(L))).1
    {
      InvCb(fs.View(), L, ent, C());
      hide FileInv, OthersUntouched, Content, CbOk, S.Getc;
      ghost var fs', c', _ := GetcOk(fs.View(), L, ent, C());
      r := Getc();
    }

    /** lflputc on a consistent file, where n more bytes have their blocks. */
    method PutByte(ghost L: Layout, ch: byte, ghost n: nat) returns (ok: bool, ghost L': Layout)
      requires Ok(L) && 0 <= pos && 0 <= ent < |L.files| == |fs.dir.files| && 0 <= fs.dir.files[ent].size
      requires n > 0 && Enough(L, ent, fs.dir.files[ent].size, pos, n)
      modifies fs, blk, this
      ensures ok && Ok(L') && OthersUntouched(old(fs.View()), L, fs.View(), L', ent)
        && old(A(L)).pos <= |old(A(L)).data|
      ensures A(L') == AbsPutc(old(A(L)), ch) && |L'.files| == |fs.dir.files| == |L.files|
      ensures 0 <= pos && 0 <= fs.dir.files[ent].size && Enough(L', ent, fs.dir.files[ent].size, pos, n - 1)
    {
      InvCb(fs.View(), L, ent, C());
      hide FileInv, Content, CbOk, S.Putc, Enough, AbsPutc, Untouched;
      ghost var fs', L1, c' := PutcEnough(fs.View(), L, ent, C(), ch, n);
      InvCb(fs', L1, ent, c');
      InvSizes(fs', L1, ent, c');
      ok := Putc(ch);
      L' := L1;
    }

    /** The cursor is inside the file. */
    lemma InFile(L: Layout)
      requires Ok(L)
      ensures 0 <= ent < |L.files| == |fs.dir.files| && A(L).pos == pos <= fs.dir.files[ent].size == |A(L).data|
    {
      InvSizes(fs.View(), L, ent, C());
    }

    lemma Unmoved(L: Layout)
      requires Ok(L)
      ensures FileInv(fs.View(), L, ent, Some(C())) && OthersUntouched(fs.View(), L, fs.View(), L, ent)
    {
      OthersSame(fs.View(), L, ent, Some(C()));
    }

    /** lflread: what is left of the file up to count bytes, EOF when nothing is. */
    method Read(ghost L: Layout, buff: array<byte>, count: int) returns (r: int)
      requires Ok(L) && count <= buff.Length && buff != blk
      modifies fs, blk, this, buff
      ensures Ok(L) && OthersUntouched(old(fs.View()), L, fs.View(), L, ent)
      ensures ReadResult(old(A(L)), count, old(buff[..]), r, A(L), buff[..])
    {
      hide FileInv, OthersUntouched, Content, Ok, A, ReadTo, ReadResult, AbsGetc, Untouched, FileSystem.View;
      InFile(L);
      Unmoved(L);
      var numread := 0;
      ghost var a, b := A(L), buff[..];
      ReadNone(a, b);
      if count < 0 {
        return SYSERR;
      }
      while numread < count
        invariant 0 <= numread <= count && Ok(L) && OthersUntouched(old(fs.View()), L, fs.View(), L, ent)
        invariant A(L).data == a.data && A(L).pos == a.pos + numread <= |a.data|
        invariant ReadTo(a, b, buff[..], numread)
      {
        label Before:
        var nxtbyte := GetByte(L);
        GetcCases(old@Before(A(L)));
        OthersChain(old(fs.View()), L, old@Before(fs.View()), L, fs.View(), L, ent, old(C()));
        if nxtbyte == EOF {
          ReadDone(a, b, buff[..], numread, count, A(L));
          return if numread == 0 then EOF else numread;
        }
        ReadMore(a, b, buff[..], numread);
        buff[numread] := nxtbyte as byte;
        numread := numread + 1;
      }
      ReadDone(a, b, buff[..], numread, count, A(L));
      r := numread;
    }

    /** lflwrite: the bytes replace what is at the cursor and extend the file as needed. */
    method Write(ghost L: Layout, buff: array<byte>, count: int) returns (r: int, ghost L': Layout)
      requires Ok(L) && count <= buff.Length && buff != blk
      requires 0 <= ent < |L.files| == |fs.dir.files| && 0 <= pos <= fs.dir.files[ent].size
      requires count >= 0 ==> Enough(L, ent, fs.dir.files[ent].size, pos, count)
      modifies fs, blk, this
      ensures Ok(L') && OthersUntouched(old(fs.View()), L, fs.View(), L', ent)
      ensures old(A(L)).pos <= |old(A(L)).data|
      ensures count < 0 ==> r == SYSERR && A(L') == old(A(L))
      ensures count >= 0 ==> r == count && A(L') == AbsWrite(old(A(L)), buff[..count])
    {
      hide FileInv, OthersUntouched, Content, Ok, A, AbsWrite, AbsPutc, Enough;
      InFile(L);
      Unmoved(L);
      L' := L;
      if count < 0 {
        r := SYSERR;
        return;
      }
      ghost var a := A(L);
      AbsWriteNone(a);
      var i := 0;
      while i < count
        invariant 0 <= i <= count && Ok(L') && OthersUntouched(old(fs.View()), L, fs.View(), L', ent)
        invariant A(L') == AbsWrite(a, buff[..i])
        invariant 0 <= ent < |L'.files| == |fs.dir.files| && 0 <= pos && 0 <= fs.dir.files[ent].size
        invariant Enough(L', ent, fs.dir.files[ent].size, pos, count - i)
      {
        label Before:
        WriteStep(a, buff[..i], buff[i]);
        assert buff[..i + 1] == buff[..i] + [buff[i]];
        var ok, L1 := PutByte(L', buff[i], count - i);
        OthersChain(old(fs.View()), L, old@Before(fs.View()), L', fs.View(), L1, ent, old(C()));
        L' := L1;
        if !ok {
          return SYSERR, L';
        }
        i := i + 1;
      }
      r := count;
    }

    lemma OthersChain(f0: Fs, L0: Layout, f1: Fs, L1: Layout, f2: Fs, L2: Layout, e: int, c: Cb)
      requires FileInv(f0, L0, e, Some(c)) && OthersUntouched(f0, L0, f1, L1, e) && OthersUntouched(f1, L1, f2, L2, e)
      ensures OthersUntouched(f0, L0, f2, L2, e)
    {
      OthersTwice(f0, L0, f1, L1, f2, L2, e, Some(c));
    }
  }
}
