/** Bytes and flat memory made of fixed-size blocks. */
module Bytes {
  newtype byte = x: int | 0 <= x < 256

  /** Block g of a flat memory cut into blocks of n bytes. */
  function Block(mem: seq<byte>, n: int, g: int): (b: seq<byte>)
    requires 0 < n
  {
    if 0 <= g && (g + 1) * n <= |mem| then
      MulOrder(n, g);
      mem[g * n..(g + 1) * n]
    else []
  }

  lemma MulOrder(n: int, g: int)
    requires 0 < n && 0 <= g
    ensures 0 <= g * n && (g + 1) * n == g * n + n
  {}

  /** mem with block g replaced. */
  function SetBlock(mem: seq<byte>, n: int, g: int, b: seq<byte>): (m: seq<byte>)
    requires 0 < n && 0 <= g && (g + 1) * n <= |mem| && |b| == n
    ensures |m| == |mem|
  {
    MulOrder(n, g);
    mem[..g * n] + b + mem[(g + 1) * n..]
  }

  lemma SetBlockBlocks(mem: seq<byte>, n: int, g: int, b: seq<byte>, h: int)
    requires 0 < n && 0 <= g && (g + 1) * n <= |mem| && |b| == n
    ensures Block(SetBlock(mem, n, g, b), n, h) == if h == g then b else Block(mem, n, h)
  {
    var m := SetBlock(mem, n, g, b);
    MulOrder(n, g);
    if h == g {
      assert m[g * n..(g + 1) * n] == b;
    } else if 0 <= h && (h + 1) * n <= |mem| {
      MulOrder(n, h);
      if h < g {
        MulLe(n, h + 1, g);
        assert m[h * n..(h + 1) * n] == mem[h * n..(h + 1) * n];
      } else {
        MulLe(n, g + 1, h);
        assert m[h * n..(h + 1) * n] == mem[h * n..(h + 1) * n];
      }
    }
  }

  lemma MulLe(n: int, a: int, b: int)
    requires 0 < n && a <= b
    ensures a * n <= b * n
  {}
}
