/** The disk as sectors of bytes: where index blocks, data blocks and the directory lie, and what
    writing one of them changes. */
module LfDisk {
  import opened Bytes
  import opened LfCodec
  import opened LfSpec

  type Sector = b: seq<byte> | |b| == LF_BLKSIZ witness seq(LF_BLKSIZ, _ => 0)
  type Disk = seq<Sector>

  /** ib2sect and ib2disp. */
  function Sect(n: nat): nat { n / IB_PER_SECT + 1 }

  function Disp(n: nat): (r: nat)
    ensures r + IB_BYTES <= LF_BLKSIZ
  {
    n % IB_PER_SECT * IB_BYTES
  }

  /** The 72 bytes of index block n, and the disk with them replaced. */
  function GetIb(d: Disk, n: nat): (b: seq<byte>)
    requires Sect(n) < |d|
    ensures |b| == IB_BYTES
  {
    d[Sect(n)][Disp(n)..Disp(n) + IB_BYTES]
  }

  function SetIb(d: Disk, n: nat, b: seq<byte>): (r: Disk)
    requires Sect(n) < |d| && |b| == IB_BYTES
    ensures |r| == |d|
  {
    d[Sect(n) := Patch(d[Sect(n)], Disp(n), b)]
  }

  /** A sector with the bytes from i on replaced by b. */
  function Patch(s: Sector, i: nat, b: seq<byte>): Sector
    requires i + |b| <= LF_BLKSIZ
  {
    s[..i] + b + s[i + |b|..]
  }

  /** lfibput then lfibget gives the index block back and leaves the other index blocks, also those
      in the same sector, and the other sectors as they were. */
  lemma GetSetIb(d: Disk, n: nat, b: seq<byte>, m: nat)
    requires Sect(n) < |d| && |b| == IB_BYTES && Sect(m) < |d|
    ensures GetIb(SetIb(d, n, b), m) == if m == n then b else GetIb(d, m)
    ensures forall s :: 0 <= s < |d| && s != Sect(n) ==> SetIb(d, n, b)[s] == d[s]
  {
    var (s, i) := (d[Sect(n)], Disp(n));
    if Sect(m) == Sect(n) && m != n {
      assert n % IB_PER_SECT != m % IB_PER_SECT;
      var j := Disp(m);
      assert j + IB_BYTES <= i || i + IB_BYTES <= j;
      assert Patch(s, i, b)[j..j + IB_BYTES] == s[j..j + IB_BYTES];
    }
  }

  // ---- the disk as index blocks, data blocks and directory ----

  /** The entries in use. */
  function InUse(d: Dir): Dir {
    if 0 <= d.nfiles <= |d.files| then d.(files := d.files[..d.nfiles]) else d
  }

  ghost function IbsOf(d: Disk, k: nat): map<int, Ib>
    requires k < |d|
  {
    map n | 0 <= n < IB_PER_SECT * k :: IbOf(d, n)
  }

  function IbOf(d: Disk, n: int): Ib {
    if 0 <= n && Sect(n) < |d| then DecIb(GetIb(d, n)) else IbClear(0)
  }

  function BlocksOf(d: Disk, k: nat): map<int, seq<byte>> {
    map s | k < s < |d| :: d[s]
  }

  /** A disk with k index sectors as the state of the file system that has just read its
      directory. */
  ghost function ViewOf(d: Disk, k: nat): Fs
    requires k < |d|
  {
    var dir := InUse(DecDir(d[0]));
    Fs(IbsOf(d, k), BlocksOf(d, k), dir, dir, false)
  }

  lemma SectIn(n: nat, k: nat)
    ensures n < IB_PER_SECT * k <==> Sect(n) <= k
  {}

  /** Writing an index block changes that index block and nothing else. */
  lemma ViewSetIb(d: Disk, k: nat, n: nat, b: Ib)
    requires k < |d| && n < IB_PER_SECT * k && IbFits(b)
    ensures Sect(n) < |d|
    ensures ViewOf(SetIb(d, n, EncIb(b)), k) == ViewOf(d, k).(ibs := IbsOf(d, k)[n := b])
  {
    SectIn(n, k);
    var d' := SetIb(d, n, EncIb(b));
    forall m | 0 <= m < IB_PER_SECT * k ensures IbOf(d', m) == if m == n then b else IbOf(d, m) {
      SectIn(m, k);
      GetSetIb(d, n, EncIb(b), m);
      IbRoundTrip(b);
    }
    hide SetIb, IbOf;
    GetSetIb(d, n, EncIb(b), n);
    assert IbsOf(d', k) == IbsOf(d, k)[n := b];
    assert BlocksOf(d', k) == BlocksOf(d, k);
  }
}
