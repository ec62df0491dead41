/** The kernel heap: getmem, getstk, freemem and freestk. */
module KernelHeaps {
  import opened Kernel
  import opened Wrappers
  import opened FreeList
  import opened MemBlk
  import opened NodeLists
  import opened HeapRun

  class KernelHeap {
    /** memlist and the nodes. */
    const nodes: NodeList

    ghost predicate Valid() reads this, nodes { nodes.Valid() && nodes.space == TWO32 }

    /** meminit; `zero` and `zlen` are the words at address 0. */
    constructor (minheap: int, maxheap: int, zero: int, zlen: int)
      requires 0 < minheap < maxheap < TWO32
      ensures Valid() && fresh(nodes) && nodes.lo == minheap && nodes.hi == maxheap
      ensures nodes.list == Fresh(minheap, maxheap).list
    {
      nodes := new NodeList(minheap, maxheap, TWO32, zero, zlen);
    }

    /** getmem */
    method GetMem(nbytes: int) returns (p: int)
      requires Valid() && 0 <= nbytes < TWO32
      modifies nodes
      ensures Valid()
      ensures var g := Get(old(nodes.list), RoundMb(nbytes));
        if nbytes == 0 || g.None? then p == SYSERR && nodes.list == old(nodes.list)
        else nodes.list == g.value.0 && p == g.value.1
    {
      hide RoundMb, Get;
      if nbytes == 0 {
        return SYSERR;
      }
      var q := nodes.First(RoundMb(nbytes));
      if q == NULL {
        return SYSERR;
      }
      p := q;
    }

    /** getstk: the highest word of the block. */
    method GetStk(nbytes: int) returns (p: int)
      requires Valid() && 0 <= nbytes < TWO32
      modifies nodes
      ensures Valid()
      ensures var g := GetTop(old(nodes.list), RoundMb(nbytes));
        if nbytes == 0 || g.None? then p == SYSERR && nodes.list == old(nodes.list)
        else nodes.list == g.value.0 && p == g.value.1 + RoundMb(nbytes) - WORD
    {
      hide RoundMb, GetTop;
      if nbytes == 0 {
        return SYSERR;
      }
      p := nodes.Last(RoundMb(nbytes));
      if p == NULL {
        return SYSERR;
      }
      p := p + RoundMb(nbytes) - WORD;
    }

    /** freemem, for any arguments: what it refuses, what it leaves in the nodes otherwise, and that the
        list is in order afterwards for a block of at least one byte inside the heap. */
    method FreeMem(blkaddr: int, nbytes: int) returns (st: int)
      requires Valid() && 0 <= nbytes < TWO32
      modifies nodes
      ensures st == if nbytes > 0 && nodes.lo <= blkaddr <= nodes.hi
                       && !Refuses(old(nodes.list), blkaddr, RoundMb(nbytes), TWO32) then OK else SYSERR
      ensures st == SYSERR ==> Valid() && nodes.Fields() == old(nodes.Fields()) && nodes.list == old(nodes.list)
      ensures st == OK ==>
        nodes.Fields() == Given(old(nodes.Fields()), old(nodes.list), blkaddr, RoundMb(nbytes), TWO32)
      ensures st == OK && nbytes <= MAX_REQUEST && blkaddr + RoundMb(nbytes) <= nodes.hi ==>
        Valid() && Some(nodes.list) == Put(old(nodes.list), blkaddr, RoundMb(nbytes))
      ensures st == OK && nbytes > MAX_REQUEST && Left(old(nodes.list), Pos(old(nodes.list), blkaddr), blkaddr) ==>
        Valid() && nodes.list == old(nodes.list)
    {
      hide Put, Refuses, Given, Pos, Left, Canon, NodesOk;
      if nbytes == 0 || blkaddr < nodes.lo || blkaddr > nodes.hi {
        return SYSERR;
      }
      var ok := nodes.Give(blkaddr, RoundMb(nbytes));
      st := if ok then OK else SYSERR;
    }

    /** freestk: freemem of the block that getstk took, which is nothing for a length within seven
        bytes of 2^32. */
    method FreeStk(p: int, len: int) returns (st: int)
      requires Valid() && 0 <= p < TWO32 && 0 <= len < TWO32
      modifies nodes
      ensures var a := Wrap(p - RoundMb(len) + WORD, TWO32);
        && st == (if RoundMb(len) > 0 && nodes.lo <= a <= nodes.hi && !Refuses(old(nodes.list), a, RoundMb(len), TWO32)
                  then OK else SYSERR)
        && (st == SYSERR ==> Valid() && nodes.Fields() == old(nodes.Fields()) && nodes.list == old(nodes.list))
        && (st == OK ==> nodes.Fields() == Given(old(nodes.Fields()), old(nodes.list), a, RoundMb(len), TWO32))
        && (st == OK && a + RoundMb(len) <= nodes.hi ==>
              Valid() && Some(nodes.list) == Put(old(nodes.list), a, RoundMb(len)))
    {
      hide RoundMb, Put, Refuses, Given, Pos, Left, Canon, NodesOk, Wrap;
      RoundTwice(len);
      st := FreeMem(Wrap(p - RoundMb(len) + WORD, TWO32), RoundMb(len));
    }
  }

  lemma RoundTwice(x: int)
    requires 0 <= x < TWO32
    ensures RoundMb(RoundMb(x)) == RoundMb(x) <= MAX_REQUEST
  {}

  /** The number of bytes that a caller of freemem gives back: nbytes rounded up, not in 32 bits. */
  function RoundUp(nbytes: int): (r: int)
    requires 0 <= nbytes < TWO32
    ensures r >= nbytes && (nbytes <= MAX_REQUEST ==> r == RoundMb(nbytes)) && (nbytes > MAX_REQUEST ==> r == TWO32)
  {
    (nbytes + 7) / 8 * 8
  }

  /** Of the calls that freemem accepts, exactly those do what they promise whose block lies inside the
      heap; a request within seven bytes of 2^32 never does. */
  lemma FreeMemExact(m: Nodes, s: seq<Blk>, lo: int, hi: int, a: int, nbytes: int)
    requires NodesOk(m, s) && Canon(s, lo, hi) && 0 < lo <= a <= hi < TWO32 && 0 < nbytes < TWO32
    requires !Refuses(s, a, RoundMb(nbytes), TWO32)
    ensures Restores(Given(m, s, a, RoundMb(nbytes), TWO32), s, lo, hi, a, RoundUp(nbytes))
            <==> nbytes <= MAX_REQUEST && a + RoundMb(nbytes) <= hi
  {
    hide NodesOk, Canon, Refuses, Given, Restores;
    if nbytes <= MAX_REQUEST {
      GiveExact(m, s, lo, hi, a, RoundMb(nbytes), TWO32);
    } else {
      NeverRestored(Given(m, s, a, RoundMb(nbytes), TWO32), s, lo, hi, a, RoundUp(nbytes));
    }
  }

  lemma NeverRestored(g: Nodes, s: seq<Blk>, lo: int, hi: int, a: int, n: int)
    requires 0 < n && hi < a + n
    ensures !Restores(g, s, lo, hi, a, n)
  {
    hide Canon, Rep, Grown;
    forall r | Canon(r, lo, hi) && Rep(g.next, g.len, r) ensures !Grown(s, r, a, n) { TooFar(s, r, lo, hi, a, n); }
  }
}
