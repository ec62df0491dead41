/** The on-disk byte layout of the local file system (lfilesys.h): 32-bit little-endian words,
    72-byte index blocks, seven of them to a sector, and the directory sector. */
module LfCodec {
  import opened Kernel
  import opened Bytes

  const LF_BLKSIZ := 512
  const LF_IBLEN := 16
  const IB_BYTES := 72
  const IB_PER_SECT := 7
  const LF_NUM_DIR_ENT := 20
  const LF_NAME_LEN := 16
  const NULL := -1

  /** An index block. */
  datatype Ib = Ib(next: int, offset: int, dba: seq<int>)

  /** A directory entry and the directory. */
  datatype Ldentry = Ldentry(size: int, ilist: int, name: seq<byte>)
  datatype Dir = Dir(dfree: int, ifree: int, nfiles: int, files: seq<Ldentry>)

  predicate IbFits(b: Ib) {
    Int32(b.next) && Uint32(b.offset) && |b.dba| == LF_IBLEN && forall j :: 0 <= j < LF_IBLEN ==> Int32(b.dba[j])
  }

  predicate EntryFits(e: Ldentry) { Uint32(e.size) && Int32(e.ilist) && |e.name| == LF_NAME_LEN }

  predicate DirFits(d: Dir) {
    Int32(d.dfree) && Int32(d.ifree) && Int32(d.nfiles) && |d.files| == LF_NUM_DIR_ENT
    && forall i :: 0 <= i < LF_NUM_DIR_ENT ==> EntryFits(d.files[i])
  }

  // ---- words ----

  function EncU(x: int): (b: seq<byte>)
    requires Uint32(x)
    ensures |b| == 4
  {
    var a := x / 256;
    var b := a / 256;
    [(x % 256) as byte, (a % 256) as byte, (b % 256) as byte, (b / 256) as byte]
  }

  function DecU(b: seq<byte>): (x: int)
    requires |b| == 4
    ensures Uint32(x)
  {
    b[0] as int + 256 * (b[1] as int + 256 * (b[2] as int + 256 * b[3] as int))
  }

  function EncI(x: int): (b: seq<byte>)
    requires Int32(x)
    ensures |b| == 4
  {
    EncU(if x < 0 then x + TWO32 else x)
  }

  function DecI(b: seq<byte>): (x: int)
    requires |b| == 4
    ensures Int32(x)
  {
    var u := DecU(b);
    if u >= 0x8000_0000 then u - TWO32 else u
  }

  lemma WordRoundTrip(x: int)
    ensures Uint32(x) ==> DecU(EncU(x)) == x
    ensures Int32(x) ==> DecI(EncI(x)) == x
  {}

  // ---- arrays of words ----

  function EncWords(ws: seq<int>): (b: seq<byte>)
    requires forall i :: 0 <= i < |ws| ==> Int32(ws[i])
    ensures |b| == 4 * |ws|
  {
    if ws == [] then [] else EncI(ws[0]) + EncWords(ws[1..])
  }

  function DecWords(b: seq<byte>, n: nat): (ws: seq<int>)
    requires |b| == 4 * n
    ensures |ws| == n && forall i :: 0 <= i < n ==> Int32(ws[i])
  {
    if n == 0 then [] else [DecI(b[..4])] + DecWords(b[4..], n - 1)
  }

  lemma {:induction false} WordsRoundTrip(ws: seq<int>)
    requires forall i :: 0 <= i < |ws| ==> Int32(ws[i])
    ensures DecWords(EncWords(ws), |ws|) == ws
  {
    if ws != [] {
      var b := EncWords(ws);
      assert b[..4] == EncI(ws[0]) && b[4..] == EncWords(ws[1..]);
      WordRoundTrip(ws[0]);
      WordsRoundTrip(ws[1..]);
    }
  }

  // ---- index blocks ----

  function EncIb(b: Ib): (r: seq<byte>)
    requires IbFits(b)
    ensures |r| == IB_BYTES
  {
    EncI(b.next) + EncU(b.offset) + EncWords(b.dba)
  }

  function DecIb(r: seq<byte>): (b: Ib)
    requires |r| == IB_BYTES
    ensures |b.dba| == LF_IBLEN
  {
    Ib(DecI(r[..4]), DecU(r[4..8]), DecWords(r[8..], LF_IBLEN))
  }

  lemma IbRoundTrip(b: Ib)
    requires IbFits(b)
    ensures DecIb(EncIb(b)) == b
  {
    var r := EncIb(b);
    assert r[..4] == EncI(b.next) && r[4..8] == EncU(b.offset) && r[8..] == EncWords(b.dba);
    WordRoundTrip(b.next);
    WordRoundTrip(b.offset);
    WordsRoundTrip(b.dba);
  }

  // ---- the directory ----

  function EncEntry(e: Ldentry): (r: seq<byte>)
    requires EntryFits(e)
    ensures |r| == 24
  {
    EncU(e.size) + EncI(e.ilist) + e.name
  }

  function DecEntry(r: seq<byte>): Ldentry
    requires |r| == 24
  {
    Ldentry(DecU(r[..4]), DecI(r[4..8]), r[8..])
  }

  function EncEntries(es: seq<Ldentry>): (r: seq<byte>)
    requires forall i :: 0 <= i < |es| ==> EntryFits(es[i])
    ensures |r| == 24 * |es|
  {
    if es == [] then [] else EncEntry(es[0]) + EncEntries(es[1..])
  }

  function DecEntries(r: seq<byte>, n: nat): (es: seq<Ldentry>)
    requires |r| == 24 * n
    ensures |es| == n
  {
    if n == 0 then [] else [DecEntry(r[..24])] + DecEntries(r[24..], n - 1)
  }

  lemma EntryRoundTrip(e: Ldentry)
    requires EntryFits(e)
    ensures DecEntry(EncEntry(e)) == e
  {
    var r := EncEntry(e);
    assert r[..4] == EncU(e.size) && r[4..8] == EncI(e.ilist) && r[8..] == e.name;
    WordRoundTrip(e.size);
    WordRoundTrip(e.ilist);
  }

  lemma {:induction false} EntriesRoundTrip(es: seq<Ldentry>)
    requires forall i :: 0 <= i < |es| ==> EntryFits(es[i])
    ensures DecEntries(EncEntries(es), |es|) == es
  {
    if es != [] {
      var r := EncEntries(es);
      assert r[..24] == EncEntry(es[0]) && r[24..] == EncEntries(es[1..]);
      EntryRoundTrip(es[0]);
      EntriesRoundTrip(es[1..]);
    }
  }

  /** The directory sector; `pad` is the padding at its end. */
  function EncDir(d: Dir, pad: seq<byte>): (r: seq<byte>)
    requires DirFits(d) && |pad| == 20
    ensures |r| == LF_BLKSIZ
  {
    EncI(d.dfree) + EncI(d.ifree) + EncI(d.nfiles) + EncEntries(d.files) + pad
  }

  function DecDir(r: seq<byte>): (d: Dir)
    requires |r| == LF_BLKSIZ
  {
    Dir(DecI(r[..4]), DecI(r[4..8]), DecI(r[8..12]), DecEntries(r[12..492], LF_NUM_DIR_ENT))
  }

  lemma DirRoundTrip(d: Dir, pad: seq<byte>)
    requires DirFits(d) && |pad| == 20
    ensures DecDir(EncDir(d, pad)) == d
  {
    var r := EncDir(d, pad);
    assert r[..4] == EncI(d.dfree) && r[4..8] == EncI(d.ifree) && r[8..12] == EncI(d.nfiles);
    assert r[12..492] == EncEntries(d.files);
    WordRoundTrip(d.dfree);
    WordRoundTrip(d.ifree);
    WordRoundTrip(d.nfiles);
    EntriesRoundTrip(d.files);
  }
}
