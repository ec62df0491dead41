/** The operations on an open local file as functions on the file system and the control block of
    the file: lfiballoc, lfdballoc, lfflush, lfsetup, lflgetc, lflputc, lflseek, lftruncate. The
    disk is seen through its layout: index blocks, data blocks and the directory sector.
    None stands for the panics "out of index blocks" and "out of data blocks", for an access
    outside the disk, and for a walk along index blocks that makes no progress. */
module LfSpec {
  import opened Kernel
  import opened Bytes
  import opened LfCodec
  import opened Wrappers

  const LF_IDATA := 8192
  const EOF := -2
  const DFILL: byte := 43

  /** ddir is the directory sector, dir the copy in memory with its dirty bit. */
  datatype Fs = Fs(ibs: map<int, Ib>, blocks: map<int, seq<byte>>, ddir: Dir, dir: Dir, dirty: bool)

  /** The control block of an open file; byt is the offset of lfbyte in the data buffer, which is
      LF_BLKSIZ when the pointer is outside the buffer. */
  datatype Cb = Cb(ent: int, pos: int, inum: int, ib: Ib, dnum: int, blk: seq<byte>, byt: int,
                   ibdirty: bool, dbdirty: bool)

  predicate CbOk(fs: Fs, c: Cb) {
    0 <= c.ent < |fs.dir.files| && |c.blk| == LF_BLKSIZ && |c.ib.dba| == LF_IBLEN && 0 <= c.pos
      && 0 <= c.byt <= LF_BLKSIZ
  }

  function IbClear(offset: int): Ib { Ib(NULL, offset, seq(LF_IBLEN, _ => NULL)) }

  function Size(fs: Fs, c: Cb): int requires 0 <= c.ent < |fs.dir.files| { fs.dir.files[c.ent].size }

  function SetSize(d: Dir, e: int, size: int): Dir
    requires 0 <= e < |d.files|
  {
    d.(files := d.files[e := d.files[e].(size := size)])
  }

  function SetIlist(d: Dir, e: int, n: int): Dir
    requires 0 <= e < |d.files|
  {
    d.(files := d.files[e := d.files[e].(ilist := n)])
  }

  function WriteDir(fs: Fs, d: Dir): Fs { fs.(dir := d, ddir := d, dirty := false) }

  /** lfiballoc */
  function IbAlloc(fs: Fs): Option<(Fs, int)> {
    var n := fs.dir.ifree;
    if n == NULL || n !in fs.ibs then None
    else Some((WriteDir(fs, fs.dir.(ifree := fs.ibs[n].next)), n))
  }

  /** lfdballoc */
  function DbAlloc(fs: Fs): Option<(Fs, int)> {
    var d := fs.dir.dfree;
    if d == NULL || d !in fs.blocks || |fs.blocks[d]| != LF_BLKSIZ then None
    else Some((WriteDir(fs, fs.dir.(dfree := DecI(fs.blocks[d][..4]))), d))
  }

  /** lfflush of an open file */
  function Flush(fs: Fs, c: Cb): (Fs, Cb) {
    var fs1 := if fs.dirty then fs.(ddir := fs.dir, dirty := false) else fs;
    var fs2 := if c.dbdirty then fs1.(blocks := fs1.blocks[c.dnum := c.blk]) else fs1;
    var fs3 := if c.ibdirty then fs2.(ibs := fs2.ibs[c.inum := c.ib]) else fs2;
    (fs3, c.(dbdirty := false, ibdirty := false))
  }

  /** The first part of lfsetup: an index block of the file is in memory. */
  function FirstIb(fs: Fs, c: Cb): Option<(Fs, Cb)>
    requires 0 <= c.ent < |fs.dir.files|
  {
    var first := fs.dir.files[c.ent].ilist;
    if c.inum == NULL then
      if first == NULL then
        var (fs1, n) :- IbAlloc(fs);
        Some((fs1.(dir := SetIlist(fs1.dir, c.ent, n)), c.(ib := IbClear(0), inum := n, ibdirty := true)))
      else if first !in fs.ibs then None
      else Some((fs, c.(ib := fs.ibs[first], inum := first)))
    else if c.pos < c.ib.offset then
      if first !in fs.ibs then None else Some((fs, c.(ib := fs.ibs[first], inum := first)))
    else Some((fs, c))
  }

  function Cover(pos: int): int { pos - pos % LF_IDATA }

  /** One turn of the loop of lfsetup. */
  function NextIb(fs: Fs, c: Cb): Option<(Fs, Cb)> {
    var n := c.ib.next;
    if n == NULL then
      var (fs1, m) :- IbAlloc(fs);
      var fs2 := fs1.(ibs := fs1.ibs[c.inum := c.ib.(next := m)]);
      Some((fs2, c.(inum := m, ib := IbClear(c.ib.offset + LF_IDATA), ibdirty := true, dnum := NULL)))
    else if n !in fs.ibs then None
    else Some((fs, c.(ib := fs.ibs[n], inum := n, dnum := NULL)))
  }

  function Walk(fs: Fs, c: Cb): Option<(Fs, Cb)>
    decreases Cover(c.pos) - c.ib.offset
  {
    if Cover(c.pos) <= c.ib.offset then Some((fs, c))
    else
      var (fs1, c1) :- NextIb(fs, c);
      if c1.ib.offset <= c.ib.offset || c1.pos != c.pos then None else Walk(fs1, c1)
  }

  /** The last part of lfsetup: the data block for the position is in memory. */
  function LoadBlock(fs: Fs, c: Cb): Option<(Fs, Cb)>
    requires 0 <= c.pos
  {
    var j := c.pos % LF_IDATA / LF_BLKSIZ;
    if |c.ib.dba| != LF_IBLEN then None
    else
      var d := c.ib.dba[j];
      if d == NULL then
        var (fs1, m) :- DbAlloc(fs);
        Some((fs1, c.(blk := seq(LF_BLKSIZ, _ => DFILL), ib := c.ib.(dba := c.ib.dba[j := m]), ibdirty := true,
                      dnum := m, byt := c.pos % LF_BLKSIZ)))
      else if d != c.dnum then
        if d !in fs.blocks then None
        else Some((fs, c.(blk := fs.blocks[d], dbdirty := false, dnum := d, byt := c.pos % LF_BLKSIZ)))
      else Some((fs, c.(byt := c.pos % LF_BLKSIZ)))
  }

  /** lfsetup */
  function Setup(fs: Fs, c: Cb): Option<(Fs, Cb)>
    requires 0 <= c.ent < |fs.dir.files| && 0 <= c.pos
  {
    var (fs0, c0) := if c.ibdirty || c.dbdirty then Flush(fs, c) else (fs, c);
    var (fs1, c1) :- FirstIb(fs0, c0);
    var (fs2, c2) :- Walk(fs1, c1);
    if c2.pos != c.pos then None else LoadBlock(fs2, c2)
  }

  /** lflgetc: the byte read, or EOF. */
  function Getc(fs: Fs, c: Cb): Option<(Fs, Cb, int)>
    requires CbOk(fs, c)
  {
    if c.pos >= Size(fs, c) then Some((fs, c, EOF))
    else
      var (fs1, c1) :- if c.byt >= LF_BLKSIZ then Setup(fs, c) else Some((fs, c));
      if 0 <= c1.byt < |c1.blk| then Some((fs1, c1.(byt := c1.byt + 1, pos := c1.pos + 1), c1.blk[c1.byt] as int))
      else None
  }

  /** The end of lflputc: a longer file when the byte is appended, and the byte in the buffer. */
  function PutByte(fs: Fs, c: Cb, ch: byte): (Fs, Cb)
    requires 0 <= c.byt < |c.blk| && 0 <= c.ent < |fs.dir.files|
  {
    var size := Size(fs, c);
    var fs' := if c.pos >= size then fs.(dir := SetSize(fs.dir, c.ent, size + 1), dirty := true) else fs;
    (fs', c.(blk := c.blk[c.byt := ch], byt := c.byt + 1, pos := c.pos + 1, dbdirty := true))
  }

  /** lflputc */
  function Putc(fs: Fs, c: Cb, ch: byte): Option<(Fs, Cb, bool)>
    requires CbOk(fs, c)
  {
    if c.pos > Size(fs, c) then Some((fs, c, false))
    else
      var (fs1, c1) :- if c.byt >= LF_BLKSIZ then Setup(fs, c) else Some((fs, c));
      if !(0 <= c1.byt < |c1.blk| && 0 <= c1.ent < |fs1.dir.files|) then None
      else
        var (fs2, c2) := PutByte(fs1, c1, ch);
        Some((fs2, c2, true))
  }

  /** lflseek */
  function Seek(fs: Fs, c: Cb, offset: nat): (Cb, bool)
    requires CbOk(fs, c)
  {
    if offset > Size(fs, c) then (c, false) else (c.(pos := offset, byt := LF_BLKSIZ), true)
  }

  /** lflclose, up to the release of the control block. */
  function Close(fs: Fs, c: Cb): (Fs, Cb) {
    if fs.dirty || c.dbdirty || c.ibdirty then Flush(fs, c) else (fs, c)
  }

  /** What is behind the link word of a free data block. */
  type Tail = b: seq<byte> | |b| == LF_BLKSIZ - 4 witness seq(LF_BLKSIZ - 4, _ => 0)

  /** lfdbfree; junk is what the stack buffer holds behind the link word. */
  function DbFree(fs: Fs, d: int, junk: Tail): Fs
    requires Int32(fs.dir.dfree)
  {
    var dir := fs.dir.(dfree := d);
    fs.(blocks := fs.blocks[d := EncI(fs.dir.dfree) + junk], dir := dir, ddir := dir)
  }

  /** The inner loop of lftruncate from slot i on: the data blocks of one index block are freed. */
  function FreeData(fs: Fs, dba: seq<int>, i: nat, junk: int -> Tail): Option<Fs>
    decreases |dba| - i
  {
    if i >= |dba| then Some(fs)
    else if dba[i] == NULL then FreeData(fs, dba, i + 1, junk)
    else if !Int32(fs.dir.dfree) || dba[i] !in fs.blocks then None
    else FreeData(DbFree(fs, dba[i], junk(dba[i])), dba, i + 1, junk)
  }

  /** The loop of lftruncate over the chain, from index block n; `left` are the index blocks not
      visited yet, so that None stands for a walk that comes back to where it was. */
  function FreeChain(fs: Fs, n: int, ifree: int, left: set<int>, junk: int -> Tail): Option<Fs>
    decreases left
  {
    if n == ifree then Some(fs)
    else if n !in left || n !in fs.ibs then None
    else
      var ib := fs.ibs[n];
      var fs1 :- FreeData(fs, ib.dba, 0, junk);
      var next := if ib.next == NULL then ifree else ib.next;
      FreeChain(fs1.(ibs := fs1.ibs[n := Ib(next, 0, seq(LF_IBLEN, _ => NULL))]), next, ifree, left - {n}, junk)
  }

  /** lftruncate */
  function Truncate(fs: Fs, c: Cb, junk: int -> Tail): Option<(Fs, Cb)>
    requires 0 <= c.ent < |fs.dir.files|
  {
    if Size(fs, c) == 0 then Some((fs, c))
    else
      var (fs0, c0) := if c.ibdirty || c.dbdirty then Flush(fs, c) else (fs, c);
      var ifree := fs0.dir.ifree;
      var first := fs0.dir.files[c.ent].ilist;
      var fs1 := fs0.(dir := SetIlist(SetSize(fs0.dir, c.ent, 0), c.ent, NULL), dirty := true);
      var fs2 :- FreeChain(fs1, first, ifree, fs1.ibs.Keys, junk);
      Some((fs2.(dir := fs2.dir.(ifree := first), dirty := true),
        c0.(pos := 0, inum := NULL, dnum := NULL, byt := LF_BLKSIZ)))
  }
}
