/** Reading and writing many bytes of a local file, and the blocks that a write needs. */
module LfStream {
  import opened Kernel
  import opened Bytes
  import opened Wrappers
  import opened LfCodec
  import opened LfSpec
  import opened LfInv
  import opened LfSetup
  import opened LfFile
  import opened LfOps
  import opened LfPanic
  import opened LfRun

  /** What n single-byte reads deliver, and what writing s does. */
  function Rest(a: Abs, n: nat): (s: seq<byte>)
    requires a.pos <= |a.data|
    ensures |s| == if a.pos + n <= |a.data| then n else |a.data| - a.pos
  {
    if a.pos + n <= |a.data| then a.data[a.pos..a.pos + n] else a.data[a.pos..]
  }

  function AbsWrite(a: Abs, s: seq<byte>): (b: Abs)
    requires a.pos <= |a.data|
    ensures b.pos == a.pos + |s| <= |b.data|
  {
    Abs(a.data[..a.pos] + s + (if a.pos + |s| <= |a.data| then a.data[a.pos + |s|..] else []), a.pos + |s|)
  }

  lemma WriteStep(a: Abs, s: seq<byte>, ch: byte)
    requires a.pos <= |a.data|
    ensures AbsWrite(a, s + [ch]) == AbsPutc(AbsWrite(a, s), ch)
  {}

  /** n bytes have been read into a buffer that held b. */
  ghost predicate ReadTo(a: Abs, b: seq<byte>, buf: seq<byte>, n: nat) {
    a.pos + n <= |a.data| && n <= |b| && buf == a.data[a.pos..a.pos + n] + b[n..]
  }

  lemma ReadNone(a: Abs, b: seq<byte>)
    requires a.pos <= |a.data|
    ensures ReadTo(a, b, b, 0)
    ensures forall count :: count < 0 ==> ReadResult(a, count, b, SYSERR, a, b)
  {}

  lemma ReadMore(a: Abs, b: seq<byte>, buf: seq<byte>, n: nat)
    requires ReadTo(a, b, buf, n) && a.pos + n < |a.data| && n < |b|
    ensures n < |buf| && ReadTo(a, b, buf[n := a.data[a.pos + n]], n + 1)
  {}

  /** lflread from a to a2: what is left of the file up to count bytes at the front of the buffer,
      EOF when nothing is. */
  ghost predicate ReadResult(a: Abs, count: int, b: seq<byte>, r: int, a2: Abs, buf: seq<byte>) {
    if count < 0 then r == SYSERR && a2 == a && buf == b
    else
      && a.pos <= |a.data| && a2.data == a.data
      && var s := Rest(a, count);
      && r == (if s == [] && count > 0 then EOF else |s|) && a2.pos == a.pos + |s|
      && |s| <= |b| && buf == s + b[|s|..]
  }

  lemma ReadDone(a: Abs, b: seq<byte>, buf: seq<byte>, n: nat, count: nat, a2: Abs)
    requires ReadTo(a, b, buf, n) && n <= count && (n < count ==> a.pos + n == |a.data|)
    requires a2.data == a.data && a2.pos == a.pos + n
    ensures ReadResult(a, count, b, if n == 0 && count > 0 then EOF else n, a2, buf)
  {}

  lemma GetcCases(a: Abs)
    ensures AbsGetc(a).0.data == a.data
    ensures a.pos < |a.data| ==> AbsGetc(a).1 == a.data[a.pos] as int >= 0 && AbsGetc(a).0.pos == a.pos + 1
    ensures a.pos >= |a.data| ==> AbsGetc(a).1 == EOF && AbsGetc(a).0 == a
  {}

  lemma AbsWriteNone(a: Abs)
    requires a.pos <= |a.data|
    ensures AbsWrite(a, []) == a
  {}

  function Ceil(a: nat, b: nat): nat
    requires b > 0
  {
    (a + b - 1) / b
  }

  /** The free lists have what n more bytes from position pos on need. */
  ghost predicate Enough(L: Layout, e: int, size: int, pos: int, n: nat)
    requires 0 <= e < |L.files| && 0 <= pos && 0 <= size
  {
    var blks := Ceil(if pos + n > size then pos + n else size, LF_BLKSIZ);
    && |L.files[e].blks| + |L.dfree| >= blks
    && |L.files[e].ch| + |L.ifree| >= Ceil(blks, LF_IBLEN)
  }

  lemma EnoughHas(L: Layout, e: int, size: int, pos: int, n: nat)
    requires 0 <= e < |L.files| && 0 <= pos <= size && n > 0 && Enough(L, e, size, pos, n)
    ensures HasBlocks(L, e, pos)
  {
    BlockAndIb(pos);
  }

  lemma ReadyLayCounts(L: Layout, e: int, c: Cb)
    requires 0 <= e < |L.files| && 0 <= c.pos && (c.byt >= LF_BLKSIZ ==> HasBlocks(L, e, c.pos))
    ensures var L' := ReadyLay(L, e, c);
      && |L'.files| == |L.files|
      && |L'.files[e].blks| + |L'.dfree| == |L.files[e].blks| + |L.dfree|
      && |L'.files[e].ch| + |L'.ifree| == |L.files[e].ch| + |L.ifree|
  {}

  lemma EnoughStep(L: Layout, e: int, size: int, c: Cb, n: nat)
    requires 0 <= e < |L.files| && 0 <= c.pos <= size && n > 0 && Enough(L, e, size, c.pos, n)
    ensures HasBlocks(L, e, c.pos) && |ReadyLay(L, e, c).files| == |L.files|
    ensures Enough(ReadyLay(L, e, c), e, Reach(size, c.pos), c.pos + 1, n - 1)
  {
    EnoughHas(L, e, size, c.pos, n);
    ReadyLayCounts(L, e, c);
    hide HasBlocks, ReadyLay;
  }

  /** One byte of a longer write. */
  lemma PutcEnough(fs: Fs, L: Layout, e: int, c: Cb, ch: byte, n: nat) returns (fs': Fs, L': Layout, c': Cb)
    requires FileInv(fs, L, e, Some(c)) && n > 0 && Enough(L, e, fs.dir.files[e].size, c.pos, n)
    ensures CbOk(fs, c) && Putc(fs, c, ch) == Some((fs', c', true))
    ensures FileInv(fs', L', e, Some(c')) && OthersUntouched(fs, L, fs', L', e)
    ensures AbsOf(fs', L', e, c') == AbsPutc(AbsOf(fs, L, e, c), ch)
    ensures Enough(L', e, fs'.dir.files[e].size, c'.pos, n - 1)
  {
    hide Head, Putc, Content, OthersUntouched;
    InvCb(fs, L, e, c);
    EnoughStep(L, e, fs.dir.files[e].size, c, n);
    fs', L', c' := PutcOk(fs, L, e, c, ch);
    hide FileInv, Enough, HasBlocks, Putc, OthersUntouched;
    assert fs'.dir.files[e].size == |AbsOf(fs', L', e, c').data| && c'.pos == AbsOf(fs', L', e, c').pos;
  }

  /** lflwrite: the bytes one after the other; None is a panic. */
  function PutAll(fs: Fs, c: Cb, s: seq<byte>): Option<(Fs, Cb)>
    decreases |s|
  {
    if s == [] then Some((fs, c))
    else if !CbOk(fs, c) then None
    else
      var (fs1, c1, _) :- Putc(fs, c, s[0]);
      PutAll(fs1, c1, s[1..])
  }

  /** One byte does not change whether the blocks are enough. */
  lemma EnoughSame(L: Layout, e: int, size: int, c: Cb, n: nat)
    requires 0 <= e < |L.files| && 0 <= c.pos <= size && n > 0 && (c.byt >= LF_BLKSIZ ==> HasBlocks(L, e, c.pos))
    ensures |ReadyLay(L, e, c).files| == |L.files|
    ensures Enough(ReadyLay(L, e, c), e, Reach(size, c.pos), c.pos + 1, n - 1) <==> Enough(L, e, size, c.pos, n)
  {
    ReadyLayCounts(L, e, c);
    hide HasBlocks, ReadyLay;
  }

  lemma EnoughNone(fs: Fs, L: Layout, e: int, c: Cb)
    requires FileInv(fs, L, e, Some(c))
    ensures 0 <= e < |L.files| == |fs.dir.files| && 0 <= c.pos <= fs.dir.files[e].size
    ensures Enough(L, e, fs.dir.files[e].size, c.pos, 0)
  {
    hide FileOk, Loaded, DataClean, Content;
    InvSizes(fs, L, e, c);
  }

  /** lflwrite does not panic exactly when the free lists have what all its bytes together need. */
  lemma {:induction false} WriteExact(fs: Fs, L: Layout, e: int, c: Cb, s: seq<byte>)
    requires FileInv(fs, L, e, Some(c))
    ensures 0 <= e < |L.files| == |fs.dir.files| && 0 <= c.pos <= fs.dir.files[e].size
    ensures PutAll(fs, c, s).Some? <==> Enough(L, e, fs.dir.files[e].size, c.pos, |s|)
    decreases |s|
  {
    hide FileInv, Enough, HasBlocks, Putc, OthersUntouched, Content, ReadyLay, CbOk;
    InvSizes(fs, L, e, c);
    EnoughNone(fs, L, e, c);
    if s != [] {
      PutcExact(fs, L, e, c, s[0]);
      if c.byt < LF_BLKSIZ || HasBlocks(L, e, c.pos) {
        var fs1, L1, c1 := PutcOk(fs, L, e, c, s[0]);
        EnoughSame(L, e, fs.dir.files[e].size, c, |s|);
        InvSizes(fs1, L1, e, c1);
        AfterPut(fs, L, e, c, s[0], fs1, L1, c1);
        WriteExact(fs1, L1, e, c1, s[1..]);
      } else if Enough(L, e, fs.dir.files[e].size, c.pos, |s|) {
        EnoughHas(L, e, fs.dir.files[e].size, c.pos, |s|);
      }
    }
  }

  lemma AfterPut(fs: Fs, L: Layout, e: int, c: Cb, ch: byte, fs1: Fs, L1: Layout, c1: Cb)
    requires FileInv(fs, L, e, Some(c)) && FileInv(fs1, L1, e, Some(c1))
    requires AbsOf(fs1, L1, e, c1) == AbsPutc(AbsOf(fs, L, e, c), ch)
    ensures 0 <= e < |fs.dir.files| && 0 <= e < |fs1.dir.files|
    ensures c1.pos == c.pos + 1 && fs1.dir.files[e].size == Reach(fs.dir.files[e].size, c.pos)
  {
    InvSizes(fs, L, e, c);
    InvSizes(fs1, L1, e, c1);
    hide FileInv, Content;
  }

  lemma OthersTwice(a: Fs, La: Layout, b: Fs, Lb: Layout, c: Fs, Lc: Layout, e: int, oc: Option<Cb>)
    requires FileInv(a, La, e, oc) && OthersUntouched(a, La, b, Lb, e) && OthersUntouched(b, Lb, c, Lc, e)
    ensures OthersUntouched(a, La, c, Lc, e)
  {
    hide IFreeOk, DFreeOk, Want, CacheOk, Tight;
    UntouchedBoth(a, La, b, Lb, c, Lc, e);
  }

  lemma OthersSame(fs: Fs, L: Layout, e: int, oc: Option<Cb>)
    requires FileInv(fs, L, e, oc)
    ensures OthersUntouched(fs, L, fs, L, e)
  {
    hide IFreeOk, DFreeOk, Want, CacheOk, Tight;
  }

  lemma InvSizes(fs: Fs, L: Layout, e: int, c: Cb)
    requires FileInv(fs, L, e, Some(c))
    ensures 0 <= e < |L.files| == |fs.dir.files| && 0 <= c.pos <= fs.dir.files[e].size
    ensures |AbsOf(fs, L, e, c).data| == fs.dir.files[e].size && AbsOf(fs, L, e, c).pos == c.pos
  {
    hide IFreeOk, DFreeOk, Want, Tight, Owns, ByteAt;
  }

  // ---- reading back what was written ----

  /** A write and a read of many bytes, byte by byte. */
  function Puts(e: int, s: seq<byte>): seq<Op> { if s == [] then [] else [Put(e, s[0])] + Puts(e, s[1..]) }

  function Gets(e: int, n: nat): seq<Op> { if n == 0 then [] else [Get(e)] + Gets(e, n - 1) }

  lemma {:induction false} ARunCat(a: ASys, p: seq<Op>, q: seq<Op>)
    ensures ARun(a, p + q).0 == ARun(ARun(a, p).0, q).0
    ensures ARun(a, p + q).1 == ARun(a, p).1 + ARun(ARun(a, p).0, q).1
    decreases |p|
  {
    hide AStep;
    if p == [] {
      assert p + q == q;
    } else {
      assert (p + q)[0] == p[0] && (p + q)[1..] == p[1..] + q;
      ARunCat(AStep(a, p[0]).0, p[1..], q);
    }
  }

  predicate Ready(a: ASys, e: int) { 0 <= e < |a.files| && e in a.pos && a.pos[e] <= |a.files[e]| }

  function FileOf(a: ASys, e: int): (f: Abs)
    requires Ready(a, e)
    ensures f.pos <= |f.data|
  {
    Abs(a.files[e], a.pos[e])
  }

  lemma WriteFront(a: Abs, s: seq<byte>)
    requires a.pos <= |a.data| && s != []
    ensures AbsPutc(a, s[0]).pos <= |AbsPutc(a, s[0]).data| && AbsWrite(AbsPutc(a, s[0]), s[1..]) == AbsWrite(a, s)
  {}

  lemma {:induction false} APuts(a: ASys, e: int, s: seq<byte>)
    requires Ready(a, e)
    ensures Ready(ARun(a, Puts(e, s)).0, e) && FileOf(ARun(a, Puts(e, s)).0, e) == AbsWrite(FileOf(a, e), s)
    ensures ARun(a, Puts(e, s)).1 == seq(|s|, _ => OK)
    decreases |s|
  {
    if s == [] {
      AbsWriteNone(FileOf(a, e));
    } else {
      APutIs(a, e, s[0]);
      WriteFront(FileOf(a, e), s);
      hide AbsPutc, AbsWrite, AStep;
      var a1 := AStep(a, Put(e, s[0])).0;
      assert Ready(a1, e) && FileOf(a1, e) == AbsPutc(FileOf(a, e), s[0]);
      APuts(a1, e, s[1..]);
      assert Puts(e, s)[0] == Put(e, s[0]) && Puts(e, s)[1..] == Puts(e, s[1..]);
      assert [OK] + seq(|s| - 1, _ => OK) == seq(|s|, _ => OK);
    }
  }

  /** The bytes as lflgetc returns them. */
  function Ints(s: seq<byte>): (r: seq<int>)
    ensures |r| == |s| && forall i :: 0 <= i < |s| ==> r[i] == s[i] as int
  {
    if s == [] then [] else [s[0] as int] + Ints(s[1..])
  }

  lemma {:induction false} AGets(a: ASys, e: int, n: nat)
    requires Ready(a, e) && a.pos[e] + n <= |a.files[e]|
    ensures ARun(a, Gets(e, n)).1 == Ints(a.files[e][a.pos[e]..a.pos[e] + n])
    decreases n
  {
    hide AStep;
    if n > 0 {
      GetOne(a, e);
      var a1 := AStep(a, Get(e)).0;
      AGets(a1, e, n - 1);
      assert Gets(e, n)[0] == Get(e) && Gets(e, n)[1..] == Gets(e, n - 1);
      SliceFront(a.files[e], a.pos[e], n);
    }
  }

  lemma GetOne(a: ASys, e: int)
    requires Ready(a, e) && a.pos[e] < |a.files[e]|
    ensures Ready(AStep(a, Get(e)).0, e) && AStep(a, Get(e)).0.files[e] == a.files[e]
    ensures AStep(a, Get(e)).0.pos[e] == a.pos[e] + 1 && AStep(a, Get(e)).1 == a.files[e][a.pos[e]] as int
  {
    GetcCases(FileOf(a, e));
    hide AbsGetc;
  }

  lemma SliceFront(s: seq<byte>, p: nat, n: nat)
    requires n > 0 && p + n <= |s|
    ensures s[p..p + n][0] == s[p] && s[p..p + n][1..] == s[p + 1..p + n]
  {}

  /** Writing bytes, seeking back to where they start and reading as many: what is returned. */
  lemma ABack(a: ASys, e: int, data: seq<byte>)
    requires Ready(a, e)
    ensures ARun(a, Puts(e, data) + ([SeekTo(e, a.pos[e])] + Gets(e, |data|))).1
      == seq(|data|, _ => OK) + ([OK] + Ints(data))
  {
    hide ARun, Puts, Gets;
    var p := a.pos[e];
    var a1 := ARun(a, Puts(e, data)).0;
    ARunCat(a, Puts(e, data), [SeekTo(e, p)] + Gets(e, |data|));
    APuts(a, e, data);
    ARunCat(a1, [SeekTo(e, p)], Gets(e, |data|));
    SeekOne(a1, e, p);
    var a2 := ARun(a1, [SeekTo(e, p)]).0;
    AGets(a2, e, |data|);
    assert a2.files[e][p..p + |data|] == data;
  }

  lemma SeekOne(a: ASys, e: int, p: nat)
    requires Ready(a, e) && p <= |a.files[e]|
    ensures ARun(a, [SeekTo(e, p)]).0 == With(a, e, Abs(a.files[e], p)) && ARun(a, [SeekTo(e, p)]).1 == [OK]
  {
    assert [SeekTo(e, p)][1..] == [];
    var a1 := AStep(a, SeekTo(e, p)).0;
    assert ARun(a1, []) == (a1, []);
  }

  /** On the file system itself, with its buffers and blocks: bytes written to an open file, wherever
      its cursor stands, are what is read after seeking back. */
  lemma ReadBack(s: Sys, L: Layout, e: int, data: seq<byte>, junk: int -> Tail)
    requires SysInv(s, L) && e in s.open && 0 <= s.open[e].pos
    requires Run(s, Puts(e, data) + ([SeekTo(e, s.open[e].pos)] + Gets(e, |data|)), junk).Some?
    ensures Run(s, Puts(e, data) + ([SeekTo(e, s.open[e].pos)] + Gets(e, |data|)), junk).value.1
      == seq(|data|, _ => OK) + ([OK] + Ints(data))
  {
    hide Run, ARun, SysInv, AbsSys, FileInv, Content;
    var ops := Puts(e, data) + ([SeekTo(e, s.open[e].pos)] + Gets(e, |data|));
    OpenIn(s, L, e);
    HandleInv(s, L, e);
    CursorIn(s.fs, L, e, s.open[e]);
    PutsPossible(e, data);
    GetsPossible(e, |data|);
    var s1, L1, rs := RunRefines(s, L, ops, junk);
    ABack(AbsSys(s, L), e, data);
  }

  lemma CursorIn(fs: Fs, L: Layout, e: int, c: Cb)
    requires FileInv(fs, L, e, Some(c))
    ensures 0 <= c.pos <= |Content(fs, L, e, Some(c))|
  {
    hide DiskOk, Owns, Want;
  }

  lemma PutsPossible(e: int, s: seq<byte>)
    ensures forall i :: 0 <= i < |Puts(e, s)| ==> Possible(Puts(e, s)[i])
  {}

  lemma GetsPossible(e: int, n: nat)
    ensures forall i :: 0 <= i < |Gets(e, n)| ==> Possible(Gets(e, n)[i])
  {}
}
