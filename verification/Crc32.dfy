/** CRC-32: the table-driven loop, unrolled eight times, against the shift register that takes one
    bit at a time, and what the checksum detects. */
module Crc32 {

  /** x^32 mod p for the polynomial of RFC 1952, section 8; the lowest power is the top bit. */
  const POLY: bv32 := 0xedb8_8320
  const ONES: bv32 := 0xffff_ffff

  function Xor(a: bv32, b: bv32): bv32 { a ^ b }

  function Half(a: bv32): bv32 { a >> 1 }

  function Low(a: bv32): bv32 { a & 1 }

  /** The register multiplied by x. */
  function Shift(c: bv32): bv32 { if c & 1 == 1 then POLY ^ (c >> 1) else c >> 1 }

  /** One incoming bit. */
  function FeedBit(c: bv32, bit: bv32): bv32 { if (c ^ bit) & 1 == 1 then POLY ^ (c >> 1) else c >> 1 }

  /** The low n bits of b, lowest first. */
  function FeedBits(c: bv32, b: bv32, n: nat): bv32
    decreases n
  {
    if n == 0 then c else FeedBits(FeedBit(c, Low(b)), Half(b), n - 1)
  }

  /** The reference: every byte bit by bit; the register is complemented before and after. */
  function Feed(c: bv32, s: seq<bv8>): bv32
    decreases |s|
  {
    if s == [] then c else Feed(FeedBits(c, s[0] as bv32, 8), s[1..])
  }

  function Crc(start: bv32, s: seq<bv8>): bv32 { Not(Feed(Not(start), s)) }

  function Not(c: bv32): bv32 { c ^ ONES }

  // ---- exclusive or and shifts ----

  /** What the bit shifted out adds. */
  function Odd(c: bv32): bv32 { if c & 1 == 1 then POLY else 0 }

  lemma ShiftIs(c: bv32, bit: bv32)
    ensures Shift(c) == Xor(Half(c), Odd(c))
    ensures FeedBit(c, bit) == Xor(Half(c), Odd(Xor(c, bit)))
  {
    XorZero(POLY, c >> 1);
  }

  lemma XorZero(p: bv32, a: bv32)
    ensures a ^ p == p ^ a && a ^ 0 == a
  {}

  lemma HalfXor(a: bv32, b: bv32)
    ensures Half(Xor(a, b)) == Xor(Half(a), Half(b))
  {}

  lemma OddXor(a: bv32, b: bv32)
    ensures Odd(Xor(a, b)) == Xor(Odd(a), Odd(b))
  {
    Parity(a, b, POLY);
  }

  lemma Parity(a: bv32, b: bv32, p: bv32)
    ensures (a ^ b) & 1 == 1 <==> (a & 1 == 1) != (b & 1 == 1)
    ensures p ^ p == 0 && p ^ 0 == p && 0 ^ p == p
  {}

  lemma OddLow(c: bv32, b: bv32)
    ensures Odd(Xor(c, Low(b))) == Odd(Xor(c, b))
  {
    SameLow(c, b);
  }

  lemma SameLow(c: bv32, b: bv32)
    ensures (c ^ (b & 1)) & 1 == (c ^ b) & 1
  {}

  lemma XorSwap(a: bv32, b: bv32, c: bv32, d: bv32)
    ensures Xor(Xor(a, b), Xor(c, d)) == Xor(Xor(a, c), Xor(b, d))
    ensures Xor(Xor(a, b), c) == Xor(Xor(a, c), b)
  {}

  /** Multiplying by x is linear. */
  lemma ShiftXor(a: bv32, b: bv32)
    ensures Shift(Xor(a, b)) == Xor(Shift(a), Shift(b))
  {
    hide Xor, Shift, Half, Odd;
    ShiftIs(a, 0);
    ShiftIs(b, 0);
    ShiftIs(Xor(a, b), 0);
    HalfXor(a, b);
    OddXor(a, b);
    XorSwap(Half(a), Half(b), Odd(a), Odd(b));
  }

  function Shifts(c: bv32, n: nat): bv32
    decreases n
  {
    if n == 0 then c else Shifts(Shift(c), n - 1)
  }

  lemma {:induction false} ShiftsXor(a: bv32, b: bv32, n: nat)
    ensures Shifts(Xor(a, b), n) == Xor(Shifts(a, n), Shifts(b, n))
    decreases n
  {
    hide Xor, Shift;
    if n > 0 {
      ShiftXor(a, b);
      ShiftsXor(Shift(a), Shift(b), n - 1);
    }
  }

  // ---- a byte at a time ----

  /** b without its n low bits. */
  function Drop(b: bv32, n: nat): bv32
    decreases n
  {
    if n == 0 then b else Drop(Half(b), n - 1)
  }

  /** Feeding bits is shifting the register with the bits already in it, but for the bits not yet
      taken. */
  lemma {:induction false} FeedBitsShift(c: bv32, b: bv32, n: nat)
    ensures Shifts(Xor(c, b), n) == Xor(FeedBits(c, b, n), Drop(b, n))
    decreases n
  {
    hide Xor, Shift, Half, Low, FeedBit;
    if n > 0 {
      FeedBitShift(c, b);
      FeedBitsShift(FeedBit(c, Low(b)), Half(b), n - 1);
    }
  }

  lemma FeedBitShift(c: bv32, b: bv32)
    ensures Shift(Xor(c, b)) == Xor(FeedBit(c, Low(b)), Half(b))
  {
    hide Xor, Shift, Half, Odd, FeedBit, Low;
    ShiftIs(Xor(c, b), 0);
    ShiftIs(c, Low(b));
    HalfXor(c, b);
    OddLow(c, b);
    XorSwap(Half(c), Half(b), Odd(Xor(c, b)), 0);
  }

  /** The eight bits of a byte at once. */
  lemma FeedByte(c: bv32, b: bv32)
    requires b <= 0xff
    ensures FeedBits(c, b, 8) == Shifts(Xor(c, b), 8)
  {
    hide Xor, FeedBits, Shifts;
    FeedBitsShift(c, b, 8);
    DropByte(b);
    XorNone(FeedBits(c, b, 8));
  }

  lemma XorNone(a: bv32)
    ensures Xor(a, 0) == a
  {}

  lemma DropByte(b: bv32)
    ensures Drop(b, 8) == b >> 8
    ensures b <= 0xff ==> Drop(b, 8) == 0
  {
    DropIs(b);
    ShiftOut(b);
  }

  function Half8(b: bv32): bv32 { Half(Half(Half(Half(Half(Half(Half(Half(b)))))))) }

  lemma DropIs(b: bv32)
    ensures Drop(b, 8) == Half8(b)
  {
    hide Half;
    assert Drop(b, 8) == Drop(Half(Half(b)), 6) == Drop(Half(Half(Half(Half(b)))), 4);
  }

  lemma ShiftOut(b: bv32)
    ensures Half8(b) == b >> 8
    ensures b <= 0xff ==> b >> 8 == 0
  {}

  // ---- the table ----

  /** make_crc_table's entry n. */
  function Entry(n: bv32): bv32 { Shifts(n, 8) }

  /** DO1 */
  function TableStep(c: bv32, b: bv32): bv32 { Xor(Entry(Low8(Xor(c, b))), Byte1(c)) }

  function Low8(x: bv32): bv32 { x & 0xff }

  function Byte1(x: bv32): bv32 { x >> 8 }

  /** Bits that are not shifted out are only moved. */
  lemma {:induction false} HighShifts(h: bv32, n: nat)
    requires n <= 8 && Clear(h, n)
    ensures Shifts(h, n) == Drop(h, n)
    decreases n
  {
    hide Shift, Half;
    if n > 0 {
      EvenShift(h);
      HighShifts(Half(h), n - 1);
    }
  }

  /** The n low bits are clear. */
  predicate Clear(h: bv32, n: nat)
    decreases n
  {
    n > 0 ==> h & 1 == 0 && Clear(Half(h), n - 1)
  }

  lemma EvenShift(h: bv32)
    requires h & 1 == 0
    ensures Shift(h) == Half(h)
  {}

  function High(x: bv32): bv32 { x & 0xffff_ff00 }

  lemma HighByte(x: bv32)
    ensures Shifts(High(x), 8) == Byte1(x)
  {
    hide High, Byte1;
    ClearLow(x);
    HighShifts(High(x), 8);
    DropByte(High(x));
    SameHigh(x);
  }

  lemma SameHigh(x: bv32)
    ensures High(x) >> 8 == Byte1(x)
  {}

  /** Bit i of h is clear for all i < 8. */
  lemma ClearLow(x: bv32)
    ensures Clear(High(x), 8)
  {
    EightClear(High(x));
    LowByteClear(x);
  }

  lemma LowByteClear(x: bv32)
    ensures var h := High(x);
      && h & 1 == 0 && Half(h) & 1 == 0 && Half(Half(h)) & 1 == 0 && Half(Half(Half(h))) & 1 == 0
      && var m := Half(Half(Half(Half(h))));
      && m & 1 == 0 && Half(m) & 1 == 0 && Half(Half(m)) & 1 == 0 && Half(Half(Half(m))) & 1 == 0
  {}

  lemma EightClear(h: bv32)
    requires h & 1 == 0 && Half(h) & 1 == 0 && Half(Half(h)) & 1 == 0 && Half(Half(Half(h))) & 1 == 0
    requires var m := Half(Half(Half(Half(h))));
      && m & 1 == 0 && Half(m) & 1 == 0 && Half(Half(m)) & 1 == 0 && Half(Half(Half(m))) & 1 == 0
    ensures Clear(h, 8)
  {
    hide Half;
    var m := Half(Half(Half(Half(h))));
    assert Clear(Half(Half(m)), 2);
    assert Clear(m, 4);
    assert Clear(Half(Half(h)), 6);
  }

  lemma Halves(x: bv32)
    ensures Xor(Low8(x), High(x)) == x
  {}

  /** One table step is the eight bits of the byte. */
  lemma TableByte(c: bv32, b: bv32)
    requires b <= 0xff
    ensures TableStep(c, b) == FeedBits(c, b, 8)
  {
    hide Xor, FeedBits, Shifts, Low8, High, Byte1;
    var x := Xor(c, b);
    FeedByte(c, b);
    Halves(x);
    HighByte(x);
    ShiftsXor(Low8(x), High(x), 8);
    HighSame(c, b);
  }

  lemma HighSame(c: bv32, b: bv32)
    requires b <= 0xff
    ensures Byte1(Xor(c, b)) == Byte1(c)
  {}

  // ---- checksums of longer strings ----

  lemma {:induction false} FeedAppend(c: bv32, a: seq<bv8>, b: seq<bv8>)
    ensures Feed(c, a + b) == Feed(Feed(c, a), b)
    decreases |a|
  {
    hide FeedBits;
    if a == [] {
      assert a + b == b;
    } else {
      assert (a + b)[1..] == a[1..] + b;
      FeedAppend(FeedBits(c, a[0] as bv32, 8), a[1..], b);
    }
  }

  lemma OnesTwice(c: bv32)
    ensures Not(Not(c)) == c
  {}

  /** The checksum of a concatenation can be taken piece by piece. */
  lemma CrcAppend(c: bv32, a: seq<bv8>, b: seq<bv8>)
    ensures Crc(Crc(c, a), b) == Crc(c, a + b)
  {
    hide Feed, Not;
    FeedAppend(Not(c), a, b);
    OnesTwice(Feed(Not(c), a));
  }

  // ---- what is detected ----

  lemma ShiftInjective(a: bv32, b: bv32)
    requires Shift(a) == Shift(b)
    ensures a == b
  {
    TopBit(a);
    TopBit(b);
    SameHalf(a, b);
  }

  /** The polynomial has its top bit set, so that the bit shifted out can be read off. */
  lemma TopBit(a: bv32)
    ensures Shift(a) & 0x8000_0000 == 0 <==> a & 1 == 0
  {}

  lemma SameHalf(a: bv32, b: bv32)
    requires a & 1 == b & 1
    ensures a >> 1 == b >> 1 ==> a == b
    ensures POLY ^ (a >> 1) == POLY ^ (b >> 1) ==> a == b
  {}

  lemma {:induction false} ShiftsInjective(a: bv32, b: bv32, n: nat)
    requires Shifts(a, n) == Shifts(b, n)
    ensures a == b
    decreases n
  {
    hide Shift;
    if n > 0 {
      ShiftsInjective(Shift(a), Shift(b), n - 1);
      ShiftInjective(a, b);
    }
  }

  lemma XorInjective(c: bv32, a: bv32, b: bv32)
    ensures Xor(c, a) == Xor(c, b) ==> a == b
    ensures Xor(a, c) == Xor(b, c) ==> a == b
  {}

  /** Different registers stay different whatever follows. */
  lemma {:induction false} FeedInjective(c: bv32, d: bv32, s: seq<bv8>)
    requires Feed(c, s) == Feed(d, s)
    ensures c == d
    decreases |s|
  {
    hide Xor, Shifts, FeedBits;
    if s != [] {
      FeedInjective(FeedBits(c, s[0] as bv32, 8), FeedBits(d, s[0] as bv32, 8), s[1..]);
      FeedByte(c, s[0] as bv32);
      FeedByte(d, s[0] as bv32);
      ShiftsInjective(Xor(c, s[0] as bv32), Xor(d, s[0] as bv32), 8);
      XorInjective(s[0] as bv32, c, d);
    }
  }

  /** Up to four bytes as one word, the first byte lowest. */
  function Word(s: seq<bv8>): (w: bv32)
    requires |s| <= 4
    decreases |s|
  {
    if s == [] then 0 else Xor(s[0] as bv32, Up(Word(s[1..])))
  }

  function Up(w: bv32): bv32 { w << 8 }

  predicate Below(w: bv32, n: nat)
    requires n <= 4
  {
    match n
    case 0 => w == 0
    case 1 => w <= 0xff
    case 2 => w <= 0xffff
    case 3 => w <= 0xff_ffff
    case 4 => true
  }

  lemma UpBelow(b: bv32, w: bv32, n: nat)
    requires b <= 0xff && n < 4 && Below(w, n)
    ensures Below(Xor(b, Up(w)), n + 1)
    ensures High(Up(w)) == Up(w) && Byte1(Up(w)) == w
  {
    match n case 0 => UpBelow0(b, w); case 1 => UpBelow1(b, w); case 2 => UpBelow2(b, w); case 3 => UpBelow3(w);
  }

  lemma UpBelow0(b: bv32, w: bv32)
    requires b <= 0xff && w == 0
    ensures Xor(b, Up(w)) <= 0xff && High(Up(w)) == Up(w) && Byte1(Up(w)) == w
  {}

  lemma UpBelow1(b: bv32, w: bv32)
    requires b <= 0xff && w <= 0xff
    ensures Xor(b, Up(w)) <= 0xffff && High(Up(w)) == Up(w) && Byte1(Up(w)) == w
  {}

  lemma UpBelow2(b: bv32, w: bv32)
    requires b <= 0xff && w <= 0xffff
    ensures Xor(b, Up(w)) <= 0xff_ffff && High(Up(w)) == Up(w) && Byte1(Up(w)) == w
  {}

  lemma UpBelow3(w: bv32)
    requires w <= 0xff_ffff
    ensures High(Up(w)) == Up(w) && Byte1(Up(w)) == w
  {}

  lemma {:induction false} WordBelow(s: seq<bv8>)
    requires |s| <= 4
    ensures Below(Word(s), |s|)
    decreases |s|
  {
    hide Xor, Up, Below;
    if s == [] {
      NoneBelow();
    } else {
      WordBelow(s[1..]);
      ByteBelow(s[0]);
      UpBelow(s[0] as bv32, Word(s[1..]), |s| - 1);
    }
  }

  lemma NoneBelow()
    ensures Below(0, 0)
  {}

  lemma ByteBelow(b: bv8)
    ensures b as bv32 <= 0xff
  {}

  lemma ShiftsAdd(c: bv32, m: nat, n: nat)
    ensures Shifts(c, m + n) == Shifts(Shifts(c, m), n)
    decreases m
  {
    hide Shift;
    if m > 0 { ShiftsAdd(Shift(c), m - 1, n); }
  }

  lemma XorAssoc(a: bv32, b: bv32, c: bv32)
    ensures Xor(a, Xor(b, c)) == Xor(Xor(a, b), c)
  {}

  /** Up to four bytes are fed as if they were in the register from the start. */
  lemma {:induction false} FeedWord(c: bv32, s: seq<bv8>)
    requires |s| <= 4
    ensures Feed(c, s) == Shifts(Xor(c, Word(s)), 8 * |s|)
    decreases |s|
  {
    hide Xor, Up, Below, Shifts, FeedBits, High, Byte1;
    if s == [] {
      NoShifts(c);
    } else {
      var b, w := s[0] as bv32, Word(s[1..]);
      ByteBelow(s[0]);
      WordBelow(s[1..]);
      UpBelow(b, w, |s| - 1);
      FeedByte(c, b);
      FeedWord(FeedBits(c, b, 8), s[1..]);
      XorAssoc(c, b, Up(w));
      ShiftsXor(Xor(c, b), Up(w), 8);
      HighByte(Up(w));
      ShiftsAdd(Xor(Xor(c, b), Up(w)), 8, 8 * (|s| - 1));
    }
  }

  lemma NoShifts(c: bv32)
    ensures Xor(c, 0) == c && Shifts(c, 0) == c
  {}

  lemma {:induction false} WordInjective(a: seq<bv8>, b: seq<bv8>)
    requires |a| == |b| <= 4 && Word(a) == Word(b)
    ensures a == b
    decreases |a|
  {
    hide Xor, Up, Below, High, Byte1;
    if a != [] {
      WordBelow(a[1..]);
      WordBelow(b[1..]);
      ByteBelow(a[0]);
      ByteBelow(b[0]);
      UpBelow(a[0] as bv32, Word(a[1..]), |a| - 1);
      UpBelow(b[0] as bv32, Word(b[1..]), |a| - 1);
      Apart(a[0], b[0], Up(Word(a[1..])), Up(Word(b[1..])));
      WordInjective(a[1..], b[1..]);
      assert a == [a[0]] + a[1..] && b == [b[0]] + b[1..];
    }
  }

  lemma Apart(a: bv8, b: bv8, v: bv32, w: bv32)
    requires High(v) == v && High(w) == w && Xor(a as bv32, v) == Xor(b as bv32, w)
    ensures a == b && v == w
  {}

  /** Messages of the same length that differ only within four neighbouring bytes have different
      checksums. */
  lemma BurstDetected(start: bv32, p: seq<bv8>, a: seq<bv8>, b: seq<bv8>, q: seq<bv8>)
    requires |a| == |b| <= 4 && a != b
    ensures Crc(start, p + a + q) != Crc(start, p + b + q)
  {
    hide Feed, Xor, Shifts, Not;
    var c := Feed(Not(start), p);
    FeedAppend(Not(start), p + a, q);
    FeedAppend(Not(start), p, a);
    FeedAppend(Not(start), p + b, q);
    FeedAppend(Not(start), p, b);
    FeedWord(c, a);
    FeedWord(c, b);
    if Crc(start, p + a + q) == Crc(start, p + b + q) {
      OnesTwice(Feed(Feed(c, a), q));
      OnesTwice(Feed(Feed(c, b), q));
      FeedInjective(Feed(c, a), Feed(c, b), q);
      ShiftsInjective(Xor(c, Word(a)), Xor(c, Word(b)), 8 * |a|);
      XorInjective(c, Word(a), Word(b));
      WordInjective(a, b);
    }
  }

  // ---- the program ----

  lemma IndexIn(x: bv32)
    ensures 0 <= Low8(x) as int < 256 && Low8(x) as int as bv32 == Low8(x)
  {}

  /** The exclusive-or pattern, put together from the terms of the polynomial. */
  method MakePattern() returns (poly: bv32)
    ensures poly == POLY
  {
    var p: seq<bv6> := [0, 1, 2, 4, 5, 7, 8, 10, 11, 12, 16, 22, 23, 26];
    poly := 0;
    var n := 0;
    while n < |p|
      invariant 0 <= n <= |p| && poly == Terms(n)
    {
      poly := poly | (1 << (31 - p[n]));
      TermsStep(n);
      n := n + 1;
    }
  }

  /** make_crc_table */
  method MakeCrcTable() returns (crcTable: array<bv32>)
    ensures fresh(crcTable) && IsTable(crcTable[..])
  {
    hide Shift, Terms;
    var poly := MakePattern();
    crcTable := new bv32[256];
    var n := 0;
    while n < 256
      invariant 0 <= n <= 256
      invariant forall m :: 0 <= m < n ==> crcTable[m] == EntryAt(m)
    {
      var c := n as bv32;
      var k := 0;
      while k < 8
        invariant 0 <= k <= 8 && Shifts(c, 8 - k) == EntryAt(n)
        invariant forall m :: 0 <= m < n ==> crcTable[m] == EntryAt(m)
      {
        ShiftCode(c, poly);
        c := if c & 1 != 0 then poly ^ (c >> 1) else c >> 1;
        k := k + 1;
      }
      assert c == EntryAt(n);
      crcTable[n] := c;
      n := n + 1;
    }
  }

  function EntryAt(n: int): bv32
    requires 0 <= n < 256
  {
    Shifts(n as bv32, 8)
  }

  ghost predicate IsTable(t: seq<bv32>) { |t| == 256 && forall n :: 0 <= n < 256 ==> t[n] == EntryAt(n) }

  lemma Lookup(t: seq<bv32>, x: bv32)
    requires IsTable(t)
    ensures 0 <= Low8(x) as int < 256 && t[Low8(x) as int] == Entry(Low8(x))
  {
    hide Shifts, Low8;
    IndexIn(x);
  }

  /** DO1, DO2, DO4 and DO8 */
  method Do1(crcTable: array<bv32>, crc: bv32, buf: seq<bv8>, i: nat) returns (r: bv32)
    requires IsTable(crcTable[..]) && i < |buf|
    ensures r == Feed(crc, buf[i..i + 1])
  {
    hide FeedBits, Shifts, Entry, Xor, Low8, Byte1;
    ByteBelow(buf[i]);
    Lookup(crcTable[..], Xor(crc, buf[i] as bv32));
    TableByte(crc, buf[i] as bv32);
    FeedOne(crc, buf, i);
    r := Xor(crcTable[Low8(Xor(crc, buf[i] as bv32)) as int], Byte1(crc));
  }

  method Do2(crcTable: array<bv32>, crc: bv32, buf: seq<bv8>, i: nat) returns (r: bv32)
    requires IsTable(crcTable[..]) && i + 2 <= |buf|
    ensures r == Feed(crc, buf[i..i + 2])
  {
    hide IsTable, Feed;
    FeedSplit(crc, buf, i, i + 1, i + 2);
    r := Do1(crcTable, crc, buf, i);
    r := Do1(crcTable, r, buf, i + 1);
  }

  method Do4(crcTable: array<bv32>, crc: bv32, buf: seq<bv8>, i: nat) returns (r: bv32)
    requires IsTable(crcTable[..]) && i + 4 <= |buf|
    ensures r == Feed(crc, buf[i..i + 4])
  {
    hide IsTable, Feed;
    FeedSplit(crc, buf, i, i + 2, i + 4);
    r := Do2(crcTable, crc, buf, i);
    r := Do2(crcTable, r, buf, i + 2);
  }

  method Do8(crcTable: array<bv32>, crc: bv32, buf: seq<bv8>, i: nat) returns (r: bv32)
    requires IsTable(crcTable[..]) && i + 8 <= |buf|
    ensures r == Feed(crc, buf[i..i + 8])
  {
    hide IsTable, Feed;
    FeedSplit(crc, buf, i, i + 4, i + 8);
    r := Do4(crcTable, crc, buf, i);
    r := Do4(crcTable, r, buf, i + 4);
  }

  /** crc32 */
  method Crc32(crcTable: array<bv32>, start: bv32, buf: seq<bv8>) returns (crc: bv32)
    requires IsTable(crcTable[..])
    ensures crc == Crc(start, buf)
  {
    hide FeedBits, IsTable, Not;
    crc := Not(start);
    var i, len := 0, |buf|;
    while len >= 8
      invariant len == |buf| - i && 0 <= i <= |buf| && crc == Feed(Not(start), buf[0..i])
    {
      FeedSplit(Not(start), buf, 0, i, i + 8);
      crc := Do8(crcTable, crc, buf, i);
      i := i + 8;
      len := len - 8;
    }
    while len > 0
      invariant len == |buf| - i && 0 <= i <= |buf| && crc == Feed(Not(start), buf[0..i])
    {
      FeedSplit(Not(start), buf, 0, i, i + 1);
      crc := Do1(crcTable, crc, buf, i);
      i := i + 1;
      len := len - 1;
    }
    assert buf[0..i] == buf;
    crc := Not(crc);
  }

  lemma FeedOne(c: bv32, s: seq<bv8>, i: nat)
    requires i < |s|
    ensures Feed(c, s[i..i + 1]) == FeedBits(c, s[i] as bv32, 8)
  {
    hide FeedBits;
    assert s[i..i + 1] == [s[i]];
    assert [s[i]][1..] == [];
  }

  lemma FeedSplit(c: bv32, s: seq<bv8>, i: nat, j: nat, k: nat)
    requires i <= j <= k <= |s|
    ensures Feed(c, s[i..k]) == Feed(Feed(c, s[i..j]), s[j..k])
  {
    hide Feed;
    assert s[i..k] == s[i..j] + s[j..k];
    FeedAppend(c, s[i..j], s[j..k]);
  }

  /** The pattern after i terms. */
  function Terms(i: nat): bv32
    requires i <= 14
  {
    match i
    case 0 => 0 case 1 => 0x8000_0000 case 2 => 0xc000_0000 case 3 => 0xe000_0000 case 4 => 0xe800_0000
    case 5 => 0xec00_0000 case 6 => 0xed00_0000 case 7 => 0xed80_0000 case 8 => 0xeda0_0000 case 9 => 0xedb0_0000
    case 10 => 0xedb8_0000 case 11 => 0xedb8_8000 case 12 => 0xedb8_8200 case 13 => 0xedb8_8300 case 14 => POLY
  }

  lemma TermsStep(i: nat)
    requires i < 14
    ensures Terms(i + 1) == Terms(i) | (1 << (31 - [0, 1, 2, 4, 5, 7, 8, 10, 11, 12, 16, 22, 23, 26][i] as bv6))
  {}

  lemma ShiftCode(c: bv32, poly: bv32)
    requires poly == POLY
    ensures Shift(c) == if c & 1 != 0 then poly ^ (c >> 1) else c >> 1
  {}
}
