/** A free list on its nodes in memory, as the kernel heap and the virtual heaps work on it: the
    searches of getmem, getstk and freemem, and what they do to the links. */
module NodeLists {
  import opened Wrappers
  import opened FreeList
  import opened MemBlk

  /** The kernel may touch every address. */
  ghost const EVERYWHERE: iset<int> := iset x: int | true

  class NodeList {
    const lo: int
    const hi: int
    /** The number of addresses, at which sums wrap around. */
    const space: nat
    var mnext: map<int, int>
    var mlength: map<int, int>
    /** The free list that the nodes form. */
    ghost var list: seq<Blk>

    ghost predicate Valid() reads this {
      0 < lo <= hi < space && Canon(list, lo, hi) && NodesOk(Fields(), list)
    }

    ghost function Fields(): Nodes reads this { Nodes(mnext, mlength) }

    /** One free block; `zero` and `zlen` are what the memory at address 0 holds. */
    constructor (lo: int, hi: int, space: nat, zero: int, zlen: int)
      requires 0 < lo < hi < space
      ensures Valid() && this.lo == lo && this.hi == hi && this.space == space && list == [Blk(lo, hi - lo)]
    {
      this.lo, this.hi, this.space := lo, hi, space;
      mnext := map[NULL := zero, HEAD := lo, lo := NULL];
      mlength := map[NULL := zlen, HEAD := hi - lo, lo := hi - lo];
      list := [Blk(lo, hi - lo)];
      new;
      OneNode(Blk(lo, hi - lo), mnext, mlength);
    }

    // Every node is read and written through these four; `may` are the addresses that may be touched.

    function NextAt(p: int, ghost may: iset<int>): int
      requires p in mnext && (p == HEAD || p in may)
      reads this
    {
      mnext[p]
    }

    function LengthAt(p: int, ghost may: iset<int>): int
      requires p in mlength && (p == HEAD || p in may)
      reads this
    {
      mlength[p]
    }

    method SetNext(p: int, x: int, ghost may: iset<int>)
      requires p == HEAD || p in may
      modifies this`mnext
      ensures mnext == old(mnext)[p := x]
    {
      mnext := mnext[p := x];
    }

    method SetLength(p: int, x: int, ghost may: iset<int>)
      requires p == HEAD || p in may
      modifies this`mlength
      ensures mlength == old(mlength)[p := x]
    {
      mlength := mlength[p := x];
    }

    /** All nodes of the list may be touched. */
    ghost predicate Within(may: iset<int>) reads this { forall i :: 0 <= i < |list| ==> list[i].a in may }

    /** Unlinks the node at curr. */
    method TakeWhole(prev: int, curr: int, nbytes: int, ghost i: nat, ghost may: iset<int>)
      requires Valid() && Within(may) && i < |list| && prev == Addr(list, i - 1) && curr == list[i].a
        && 0 <= nbytes == list[i].n
      modifies this
      ensures Valid() && list == old(list)[..i] + old(list)[i + 1..]
    {
      hide Canon, Rep, Total;
      CanonApart(list, lo, hi);
      NodeAt(list, i, mnext, mlength);
      Unlink(list, i, mnext, mlength);
      TakenCanon(list, lo, hi, i, nbytes);
      SetNext(prev, NextAt(curr, may), may);
      SetLength(HEAD, LengthAt(HEAD, may) - nbytes, may);
      list := list[..i] + list[i + 1..];
    }

    /** Takes nbytes off the front of the block at curr. */
    method TakeFront(prev: int, curr: int, nbytes: int, ghost i: nat, ghost may: iset<int>)
      requires Valid() && Within(may) && curr + nbytes in may && i < |list| && prev == Addr(list, i - 1)
        && curr == list[i].a && 0 <= nbytes < list[i].n
      modifies this
      ensures Valid() && list == old(list)[i := Blk(curr + nbytes, old(list)[i].n - nbytes)]
    {
      hide Canon, Rep, Total;
      CanonApart(list, lo, hi);
      NodeAt(list, i, mnext, mlength);
      var leftover := curr + nbytes;
      TakenCanon(list, lo, hi, i, nbytes);
      SplitNode(list, i, Blk(leftover, list[i].n - nbytes), nbytes, mnext, mlength);
      SetNext(prev, leftover, may);
      SetNext(leftover, NextAt(curr, may), may);
      SetLength(leftover, LengthAt(curr, may) - nbytes, may);
      SetLength(HEAD, LengthAt(HEAD, may) - nbytes, may);
      list := list[i := Blk(leftover, list[i].n - nbytes)];
    }

    /** The search of getmem and vmhgetmem: the first node that is large enough, and the one before it; NULL
        when there is none. */
    method FindFirst(n: int, ghost may: iset<int>) returns (prev: int, curr: int, ghost i: nat)
      requires Valid() && Within(may) && 0 <= n
      ensures i <= |list| && (curr == NULL <==> i == |list|)
      ensures forall j :: 0 <= j < i ==> list[j].n < n
      ensures curr != NULL ==>
        && prev == Addr(list, i - 1) && curr == list[i].a && list[i].n >= n && curr in mlength
        && mlength[curr] == list[i].n
    {
      hide Canon, Rep, Total;
      Header(list, mnext, mlength);
      prev, curr, i := HEAD, NextAt(HEAD, may), 0;
      CanonApart(list, lo, hi);
      while curr != NULL
        invariant 0 <= i <= |list| && prev == Addr(list, i - 1) && curr == Addr(list, i)
        invariant forall j :: 0 <= j < i ==> list[j].n < n
        decreases |list| - i
      {
        NodeAt(list, i, mnext, mlength);
        CanonAt(list, lo, hi, i);
        if LengthAt(curr, may) >= n {
          return;
        }
        prev := curr;
        curr := NextAt(curr, may);
        i := i + 1;
      }
      if i < |list| { CanonAt(list, lo, hi, i); }
    }

    /** getmem as far as the nodes go: the search, and the block taken. */
    method First(n: int) returns (p: int)
      requires Valid() && 0 <= n
      modifies this
      ensures Valid()
      ensures var g := Get(old(list), n);
        if g.None? then p == NULL && list == old(list) else list == g.value.0 && p == g.value.1 != NULL
    {
      hide Canon, Rep, Total, Get, FirstFit;
      var prev, curr, i := FindFirst(n, EVERYWHERE);
      GetIs(list, n, i);
      if curr == NULL {
        return NULL;
      }
      if LengthAt(curr, EVERYWHERE) == n {
        TakeWhole(prev, curr, n, i, EVERYWHERE);
      } else {
        TakeFront(prev, curr, n, i, EVERYWHERE);
      }
      p := curr;
    }

    /** The search of getstk: the whole list is scanned for the last block that fits, and its top
        is taken. */
    method Last(n: int) returns (p: int)
      requires Valid() && 0 <= n
      modifies this
      ensures Valid()
      ensures var g := GetTop(old(list), n);
        if g.None? then p == NULL && list == old(list) else list == g.value.0 && p == g.value.1 != NULL
    {
      hide Canon, Rep, Total, GetTop, LastFit, Wrap, Apart;
      Header(list, mnext, mlength);
      var prev, curr := HEAD, mnext[HEAD];
      var fits, fitsprev := NULL, NULL;
      ghost var i, k := 0, -1;
      CanonApart(list, lo, hi);
      while curr != NULL
        modifies {}
        invariant 0 <= i <= |list| && prev == Addr(list, i - 1) && curr == Addr(list, i) && -1 <= k < i
        invariant k < 0 ==> fits == NULL
        invariant k >= 0 ==> fits == list[k].a && fitsprev == Addr(list, k - 1) && list[k].n >= n
        invariant forall j :: k < j < i ==> list[j].n < n
        decreases |list| - i
      {
        NodeAt(list, i, mnext, mlength);
        if mlength[curr] >= n {
          fits := curr;
          fitsprev := prev;
          k := i;
        }
        prev := curr;
        curr := mnext[curr];
        i := i + 1;
      }
      GetTopIs(list, n, k);
      if fits == NULL {
        return NULL;
      }
      NodeAt(list, k, mnext, mlength);
      CanonAt(list, lo, hi, k);
      if n == mlength[fits] {
        TakeWhole(fitsprev, fits, n, k, EVERYWHERE);
      } else {
        fits := TakeBack(fits, n, k);
      }
      p := fits;
    }

    /** Takes nbytes off the end of the block at curr. */
    method TakeBack(curr: int, nbytes: int, ghost i: nat) returns (a: int)
      requires Valid() && i < |list| && curr == list[i].a && 0 <= nbytes < list[i].n
      modifies this
      ensures Valid() && list == old(list)[i := Blk(curr, old(list)[i].n - nbytes)]
      ensures a == curr + old(list)[i].n - nbytes > 0
    {
      hide Canon, Rep, Total;
      CanonApart(list, lo, hi);
      NodeAt(list, i, mnext, mlength);
      TakenCanon(list, lo, hi, i, nbytes);
      Shrink(list, i, nbytes, mnext, mlength);
      mlength := mlength[curr := mlength[curr] - nbytes];
      a := curr + mlength[curr];
      mlength := mlength[HEAD := mlength[HEAD] - nbytes];
      list := list[i := Blk(curr, list[i].n - nbytes)];
    }

    /** The walk of freemem, and the block given back unless it seems to overlap its neighbours. Inside
        the heap the list is then the new list; otherwise the fields are what the program leaves. */
    method Give(block: int, n: int) returns (ok: bool)
      requires Valid() && lo <= block <= hi && 0 <= n < space
      modifies this
      ensures ok <==> !Refuses(old(list), block, n, space)
      ensures block + n <= hi ==> (ok <==> Put(old(list), block, n).Some?)
      ensures ok ==> Fields() == Given(old(Fields()), old(list), block, n, space)
      ensures !ok ==> Valid() && Fields() == old(Fields()) && list == old(list)
      ensures ok && n > 0 && block + n <= hi ==> Valid() && Some(list) == Put(old(list), block, n)
      ensures ok && n == 0 && Left(old(list), Pos(old(list), block), block) ==> Valid() && list == old(list)
    {
      hide Canon, Rep, Total, Put, Pos, Given, Wrap, Refuses;
      PutFitsIf(list, lo, hi, block, n, space);
      var merged, b, next;
      ok, merged, b, next := GiveLink(block, n, EVERYWHERE);
      if ok {
        GiveOutcome(old(Fields()), list, lo, hi, block, n, space);
        MergeNext(b, next, EVERYWHERE);
        if n > 0 && block + n <= hi { list := Put(list, block, n).value; }
      }
    }

    /** The first half of freemem: the block is linked, or added to the one before it. Then b is the block
        that may have to be merged with the one at next. */
    method GiveLink(block: int, n: int, ghost may: iset<int>) returns (ok: bool, merged: bool, b: int, next: int)
      requires Valid() && Within(may) && block in may && lo <= block <= hi && 0 <= n < space
      modifies this`mnext, this`mlength
      ensures ok <==> !Refuses(list, block, n, space)
      ensures !ok ==> Fields() == old(Fields())
      ensures ok ==> LinkedAs(old(Fields()), Fields(), list, block, n, space, merged, b, next)
    {
      hide Canon, Rep, Total, Pos, Wrap, Apart, After, Given, LinkLeft, MergeRight;
      var prev;
      ghost var k;
      prev, next, k := FindPlace(block, may);
      if k > 0 { NodeAt(list, k - 1, mnext, mlength); }
      var top := if prev == HEAD then NULL else prev + LengthAt(prev, may);
      Halves(Fields(), list, lo, hi, block, n, space);
      assert top == Top(list, k);
      merged := top == block;
      b := if merged then prev else block;
      if (prev != HEAD && block < top) || (next != NULL && Wrap(block + n, space) > next) {
        return false, merged, b, next;
      }
      ok := true;
      Link(block, n, prev, next, top, may);
    }

    /** The block is added to the one before it, which ends at top, or linked behind it. */
    method Link(block: int, n: int, prev: int, next: int, top: int, ghost may: iset<int>)
      requires HEAD in mlength && prev in mlength && space > 0 && block in may && (prev == HEAD || prev in may)
      modifies this`mnext, this`mlength
      ensures Fields() == LinkLeft(old(Fields()), prev, next, top, block, n, space)
    {
      hide Wrap;
      SetLength(HEAD, Wrap(LengthAt(HEAD, may) + n, space), may);
      if top == block {
        SetLength(prev, Wrap(LengthAt(prev, may) + n, space), may);
      } else {
        SetNext(block, next, may);
        SetLength(block, n, may);
        SetNext(prev, block, may);
      }
    }

    /** The end of freemem: the block is merged with the one behind it where they touch. */
    method MergeNext(b: int, next: int, ghost may: iset<int>)
      requires b in mlength && next in mnext && next in mlength && space > 0 && b in may
      requires Wrap(b + mlength[b], space) == next ==> next in may
      modifies this`mnext, this`mlength
      ensures Fields() == MergeRight(old(Fields()), b, next, space)
    {
      hide Wrap;
      if Wrap(b + LengthAt(b, may), space) == next {
        SetLength(b, Wrap(LengthAt(b, may) + LengthAt(next, may), space), may);
        SetNext(b, NextAt(next, may), may);
      }
    }

    /** The walk of freemem: the nodes between which the block belongs. */
    method FindPlace(block: int, ghost may: iset<int>) returns (prev: int, next: int, ghost k: nat)
      requires Valid() && Within(may) && lo <= block
      ensures k == Pos(list, block) && prev == Addr(list, k - 1) && next == Addr(list, k)
      ensures (prev == HEAD <==> k == 0) && (next == NULL <==> k == |list|) && (k == 0 || 0 < prev < block)
      ensures k > 0 ==> prev in may
    {
      hide Canon, Rep, Total, Apart;
      Header(list, mnext, mlength);
      prev, next, k := HEAD, NextAt(HEAD, may), 0;
      CanonApart(list, lo, hi);
      while next != NULL && next < block
        invariant 0 <= k <= |list| && prev == Addr(list, k - 1) && next == Addr(list, k)
        invariant forall j :: 0 <= j < k ==> list[j].a < block
        decreases |list| - k
      {
        NodeAt(list, k, mnext, mlength);
        prev := next;
        next := NextAt(next, may);
        k := k + 1;
      }
      if k < |list| { CanonAt(list, lo, hi, k); }
      if k > 0 { CanonAt(list, lo, hi, k - 1); }
      PosIs(list, block, k);
    }
  }

  /** The fields after the first half of freemem: the second half makes of them what freemem leaves. */
  ghost predicate LinkedAs(m: Nodes, m1: Nodes, s: seq<Blk>, a: int, n: int, space: nat, merged: bool, b: int,
    next: int)
    requires NodesOk(m, s) && space > 0
  {
    var k: int := Pos(s, a);
    && b in m1.len && next in m1.next && next in m1.len && MergeRight(m1, b, next, space) == Given(m, s, a, n, space)
    && next == Addr(s, k) && b == (if merged then Addr(s, k - 1) else a) && (merged <==> Left(s, k, a))
    && (if merged then k > 0 && b in m.len && m1.len[b] == Wrap(m.len[b] + n, space) else m1.len[b] == n)
  }

  lemma Halves(m: Nodes, s: seq<Blk>, lo: int, hi: int, a: int, n: int, space: nat)
    requires NodesOk(m, s) && Canon(s, lo, hi) && 0 < lo <= a && space > 0
    ensures var k: int := Pos(s, a);
      && HEAD in m.len && Addr(s, k - 1) in m.len && Addr(s, k) in m.next && Addr(s, k) in m.len
      && var (prev, next, top) := (Addr(s, k - 1), Addr(s, k), Top(s, k));
         LinkedAs(m, LinkLeft(m, prev, next, top, a, n, space), s, a, n, space, top == a,
           if top == a then prev else a, next)
  {
    hide Canon, Rep, Total, Pos, Wrap, After, Linked, LinkLeft, MergeRight;
    var k: int := Pos(s, a);
    AddrIn(m, s, k - 1);
    AddrIn(m, s, k);
    if k > 0 { CanonAt(s, lo, hi, k - 1); }
    TwoHalves(m, Addr(s, k - 1), Addr(s, k), Top(s, k), a, n, space);
  }

  lemma TwoHalves(m: Nodes, prev: int, next: int, top: int, a: int, n: int, space: nat)
    requires HEAD in m.len && prev in m.len && next in m.next && next in m.len && space > 0
    requires top == a ==> prev != HEAD
    ensures var (m1, b) := (LinkLeft(m, prev, next, top, a, n, space), if top == a then prev else a);
      && b in m1.len && next in m1.next && next in m1.len
      && MergeRight(m1, b, next, space) == Linked(m, prev, next, top, a, n, space)
      && m1.len[b] == if top == a then Wrap(m.len[b] + n, space) else n
  {
    hide Wrap;
  }

  lemma OneNode(b: Blk, mnext: map<int, int>, mlength: map<int, int>)
    requires b.a > 0 && HEAD in mnext && mnext[HEAD] == b.a && b.a in mnext && mnext[b.a] == NULL
    requires HEAD in mlength && mlength[HEAD] == b.n && b.a in mlength && mlength[b.a] == b.n
    ensures Rep(mnext, mlength, [b])
  {
    TotalSingle(b);
  }

  lemma Header(s: seq<Blk>, mnext: map<int, int>, mlength: map<int, int>)
    requires Rep(mnext, mlength, s)
    ensures HEAD in mnext && mnext[HEAD] == Addr(s, 0) && HEAD in mlength && mlength[HEAD] == Total(s)
  {
    assert Addr(s, -1) == HEAD && After(s, -1) == Addr(s, 0);
  }

  /** The first fit, or that there is none, after i blocks that are too small. */
  lemma GetIs(s: seq<Blk>, n: int, i: nat)
    requires i <= |s| && forall j :: 0 <= j < i ==> s[j].n < n
    ensures i == |s| ==> Get(s, n).None?
    ensures i < |s| && s[i].n >= n ==> FirstFit(s, n) == i
    ensures i < |s| && s[i].n == n ==> Get(s, n) == Some((s[..i] + s[i + 1..], s[i].a))
    ensures i < |s| && s[i].n > n ==> Get(s, n) == Some((s[i := Blk(s[i].a + n, s[i].n - n)], s[i].a))
  {}

  lemma GetTopIs(s: seq<Blk>, n: int, k: int)
    requires -1 <= k < |s| && (k >= 0 ==> s[k].n >= n) && forall j :: k < j < |s| ==> s[j].n < n
    ensures k < 0 ==> GetTop(s, n).None?
    ensures k >= 0 && s[k].n == n ==> GetTop(s, n) == Some((s[..k] + s[k + 1..], s[k].a))
    ensures k >= 0 && s[k].n > n ==> GetTop(s, n) == Some((s[k := Blk(s[k].a, s[k].n - n)], s[k].a + s[k].n - n))
  {}

  /** What the fields of node i hold. */
  lemma NodeAt(s: seq<Blk>, i: nat, mnext: map<int, int>, mlength: map<int, int>)
    requires i < |s| && Rep(mnext, mlength, s)
    ensures s[i].a in mnext && mnext[s[i].a] == After(s, i) && s[i].a in mlength && mlength[s[i].a] == s[i].n
      && HEAD in mlength
    ensures Addr(s, i - 1) in mnext && mnext[Addr(s, i - 1)] == Addr(s, i)
  {
    assert Addr(s, i) == s[i].a && After(s, i - 1) == Addr(s, i);
  }

  lemma TakenCanon(s: seq<Blk>, lo: int, hi: int, i: nat, n: int)
    requires Canon(s, lo, hi) && i < |s| && 0 <= n <= s[i].n
    ensures n == s[i].n ==> Canon(s[..i] + s[i + 1..], lo, hi)
    ensures n < s[i].n ==>
      Canon(s[i := Blk(s[i].a + n, s[i].n - n)], lo, hi) && Canon(s[i := Blk(s[i].a, s[i].n - n)], lo, hi)
    ensures forall m :: 0 <= m < |s| && m != i && n < s[i].n ==> s[m].a != s[i].a + n
  {
    if n == s[i].n { CanonDrop(s, lo, hi, i, i + 1); }
  }

  lemma SplitNode(s: seq<Blk>, i: nat, b: Blk, n: int, mnext: map<int, int>, mlength: map<int, int>)
    requires Rep(mnext, mlength, s) && Apart(s) && i < |s| && b == Blk(s[i].a + n, s[i].n - n) && n >= 0
    requires forall m :: 0 <= m < |s| && m != i ==> s[m].a != b.a
    ensures Rep(mnext[Addr(s, i - 1) := b.a][b.a := After(s, i)], mlength[b.a := b.n][HEAD := mlength[HEAD] - n],
      s[i := b])
  {
    TotalOf(s, i, i + 1);
    assert s[..i] + [b] + s[i + 1..] == s[i := b];
    Link(s, i, i + 1, b, -n, mnext, mlength);
  }

  lemma Shrink(s: seq<Blk>, i: nat, n: int, mnext: map<int, int>, mlength: map<int, int>)
    requires Rep(mnext, mlength, s) && Apart(s) && i < |s|
    ensures Rep(mnext, mlength[s[i].a := s[i].n - n][HEAD := mlength[HEAD] - n], s[i := Blk(s[i].a, s[i].n - n)])
  {
    var b := Blk(s[i].a, s[i].n - n);
    TotalOf(s, i, i + 1);
    NodeAt(s, i, mnext, mlength);
    assert s[..i] + [b] + s[i + 1..] == s[i := b];
    assert mnext[Addr(s, i - 1) := b.a][b.a := After(s, i)] == mnext;
    Link(s, i, i + 1, b, -n, mnext, mlength);
  }

  /** Where freemem's walk stops. */
  lemma PosIs(s: seq<Blk>, a: int, k: nat)
    requires k <= |s| && (k < |s| ==> s[k].a >= a) && forall j :: 0 <= j < k ==> s[j].a < a
    ensures Pos(s, a) == k
  {}

  lemma PutFitsIf(s: seq<Blk>, lo: int, hi: int, a: int, n: int, space: nat)
    requires 0 < lo <= a && 0 <= n && hi < space
    ensures a + n <= hi ==> (Put(s, a, n).None? <==> Refuses(s, a, n, space))
  {
    hide Put, Refuses;
    if a + n <= hi { PutFits(s, lo, hi, a, n, space); }
  }

  /** The two cases in which freemem leaves a list in order. */
  lemma GiveOutcome(m: Nodes, s: seq<Blk>, lo: int, hi: int, a: int, n: int, space: nat)
    requires NodesOk(m, s) && Canon(s, lo, hi) && 0 < lo <= a <= hi < space && 0 <= n < space
      && !Refuses(s, a, n, space)
    ensures n > 0 && a + n <= hi ==>
      Put(s, a, n).Some? && NodesOk(Given(m, s, a, n, space), Put(s, a, n).value) && Canon(Put(s, a, n).value, lo, hi)
    ensures n == 0 && Left(s, Pos(s, a), a) ==> Given(m, s, a, n, space) == m
  {
    hide Canon, NodesOk, Given, Refuses, Put, Pos, Left;
    if n > 0 && a + n <= hi {
      PutFits(s, lo, hi, a, n, space);
      GivenRep(m, s, lo, hi, a, n, space);
      PutCanon(s, lo, hi, a, n);
    } else if n == 0 && Left(s, Pos(s, a), a) {
      GivenSame(m, s, lo, hi, a, space);
    }
  }

  // ---- blocks of no length, and blocks that reach beyond the heap ----

  /** At the end of a free block nothing changes. */
  lemma GivenSame(m: Nodes, s: seq<Blk>, lo: int, hi: int, a: int, space: nat)
    requires NodesOk(m, s) && Canon(s, lo, hi) && 0 < lo <= a <= hi < space && Left(s, Pos(s, a), a)
    ensures !Refuses(s, a, 0, space) && Given(m, s, a, 0, space) == m
  {
    hide Pos, Total, Linked, Canon, Put, Refuses, Rep;
    var k := Pos(s, a);
    PutNothing(s, lo, hi, a);
    Neighbours(m, s, lo, hi, k, a, 0);
    PutFits(s, lo, hi, a, 0, space);
    TotalIn(s, lo, hi);
    NextApart(s, lo, hi, k);
    AddrIn(m, s, k - 1);
    AddrIn(m, s, k);
    LinkedSame(m, s[k - 1].a, Addr(s, k), a, space);
  }

  lemma LinkedSame(m: Nodes, prev: int, next: int, a: int, space: nat)
    requires HEAD in m.len && prev in m.len && next in m.next && next in m.len
    requires 0 < prev && prev + m.len[prev] == a < space && 0 <= m.len[prev] && next != a && 0 <= m.len[HEAD] < space
    ensures Linked(m, prev, next, a, a, 0, space) == m
  {
    hide Wrap;
    NoWrap(m.len[HEAD], space);
    NoWrap(m.len[prev], space);
    NoWrap(a, space);
    assert m.len[HEAD := m.len[HEAD]] == m.len && m.len[prev := m.len[prev]] == m.len;
  }

  lemma NextApart(s: seq<Blk>, lo: int, hi: int, k: nat)
    requires Canon(s, lo, hi) && 0 < lo && 0 < k <= |s|
    ensures Addr(s, k) != End(s[k - 1]) && 0 < s[k - 1].n <= End(s[k - 1]) <= hi
  {}

  /** Elsewhere a node of length 0 is linked into the list, and at a free block that node is linked to
      itself. */
  lemma GivenNothing(m: Nodes, s: seq<Blk>, lo: int, hi: int, a: int, space: nat)
    requires NodesOk(m, s) && Canon(s, lo, hi) && 0 < lo <= a <= hi < space
    requires !Refuses(s, a, 0, space) && !Left(s, Pos(s, a), a)
    ensures var (g, k: int) := (Given(m, s, a, 0, space), Pos(s, a));
      && Addr(s, k - 1) in g.next && g.next[Addr(s, k - 1)] == a && a in g.len && g.len[a] == 0
      && LinkedUpTo(g.next, s, k - 1)
      && (k < |s| && s[k].a == a ==> a in g.next && g.next[a] == a)
  {
    hide Total, Linked, Canon, Refuses, Rep, Apart, After, LinkedUpTo;
    var k: int := Pos(s, a);
    AddrIn(m, s, k - 1);
    AddrIn(m, s, k);
    CanonApart(s, lo, hi);
    LinkedNothing(m, Addr(s, k - 1), Addr(s, k), Top(s, k), a, space);
    KeptBefore(m, s, k, a, Given(m, s, a, 0, space));
  }

  /** The links of the first nodes. */
  ghost predicate LinkedUpTo(next: map<int, int>, s: seq<Blk>, k: int) {
    forall i :: -1 <= i < k ==> Addr(s, i) in next && next[Addr(s, i)] == Addr(s, i + 1)
  }

  lemma KeptBefore(m: Nodes, s: seq<Blk>, k: nat, a: int, g: Nodes)
    requires NodesOk(m, s) && Apart(s) && k <= |s| && 0 < a && forall j :: 0 <= j < k ==> s[j].a < a
    requires forall x :: x in m.next && x != a && x != Addr(s, k - 1) ==> x in g.next && g.next[x] == m.next[x]
    ensures LinkedUpTo(g.next, s, k - 1)
  {
    hide Rep, Apart;
    forall i | -1 <= i < k - 1 ensures Addr(s, i) in g.next && g.next[Addr(s, i)] == Addr(s, i + 1) {
      LinkAt(m, s, i);
      Earlier(s, i, k, a);
    }
  }

  lemma Earlier(s: seq<Blk>, i: int, k: nat, a: int)
    requires Apart(s) && -1 <= i < k - 1 && k <= |s| && 0 < a && forall j :: 0 <= j < k ==> s[j].a < a
    ensures Addr(s, i) != a && Addr(s, i) != Addr(s, k - 1) && Addr(s, k - 1) != a
  {}

  lemma LinkedNothing(m: Nodes, prev: int, next: int, top: int, a: int, space: nat)
    requires HEAD in m.len && prev in m.len && next in m.next && next in m.len && top != a && prev != a && 0 < a < space
    ensures var g := Linked(m, prev, next, top, a, 0, space);
      && prev in g.next && g.next[prev] == a && a in g.len && g.len[a] == 0 && a in g.next && g.next[a] == next
      && forall x :: x in m.next && x != a && x != prev ==> x in g.next && g.next[x] == m.next[x]
  {
    hide Wrap;
    NoWrap(a, space);
    NoWrap(0, space);
  }

  /** The node that a walk has reached after i steps from the header. */
  function Walk(next: map<int, int>, i: nat): int {
    if i == 0 then HEAD else if Walk(next, i - 1) in next then next[Walk(next, i - 1)] else NULL
  }

  /** ... and then no walk along the list ever ends. */
  lemma NoEnd(m: Nodes, s: seq<Blk>, lo: int, hi: int, k: nat, space: nat, i: nat)
    requires NodesOk(m, s) && Canon(s, lo, hi) && 0 < lo <= hi < space && k < |s|
    ensures !Refuses(s, s[k].a, 0, space)
    ensures Walk(Given(m, s, s[k].a, 0, space).next, i) == Addr(s, if i <= k then i - 1 else k) != NULL
  {
    hide Canon, Rep, Given, Refuses, Left, Pos;
    var a := s[k].a;
    AtNode(s, lo, hi, k, space);
    GivenNothing(m, s, lo, hi, a, space);
    if i > 0 { NoEnd(m, s, lo, hi, k, space, i - 1); }
  }

  lemma AtNode(s: seq<Blk>, lo: int, hi: int, k: nat, space: nat)
    requires Canon(s, lo, hi) && 0 < lo <= hi < space && k < |s|
    ensures Pos(s, s[k].a) == k && !Refuses(s, s[k].a, 0, space) && !Left(s, k, s[k].a)
    ensures forall i :: -1 <= i < |s| ==> Addr(s, i) != NULL
    ensures lo <= s[k].a <= hi
  {
    hide Refuses, Left, Put, Free;
    PosIs(s, s[k].a, k);
    PutFits(s, lo, hi, s[k].a, 0, space);
    PutNothing(s, lo, hi, s[k].a);
    BeforeFree(s, lo, hi, k, s[k].a);
  }

  /** The nodes represent a list in order with the block added to what was free. */
  ghost predicate Restores(m: Nodes, s: seq<Blk>, lo: int, hi: int, a: int, n: int) {
    exists r :: Canon(r, lo, hi) && Rep(m.next, m.len, r) && Grown(s, r, a, n)
  }

  ghost predicate Grown(s: seq<Blk>, r: seq<Blk>, a: int, n: int) {
    forall x :: Free(r, x) <==> Free(s, x) || a <= x < a + n
  }

  /** freemem, when it accepts a block, does what it promises exactly when the block lies inside the
      heap and, if it has no length, at the end of a free block. */
  lemma GiveExact(m: Nodes, s: seq<Blk>, lo: int, hi: int, a: int, n: int, space: nat)
    requires NodesOk(m, s) && Canon(s, lo, hi) && 0 < lo <= a <= hi < space && 0 <= n < space
      && !Refuses(s, a, n, space)
    ensures Restores(Given(m, s, a, n, space), s, lo, hi, a, n) <==> a + n <= hi && (n > 0 || Left(s, Pos(s, a), a))
  {
    hide Canon, Rep, Given, Refuses, Pos, Left, Free;
    var g := Given(m, s, a, n, space);
    if n > 0 && a + n <= hi {
      PutFits(s, lo, hi, a, n, space);
      GivenRep(m, s, lo, hi, a, n, space);
      PutOk(s, lo, hi, a, n);
      assert Grown(s, Put(s, a, n).value, a, n);
    } else if n == 0 && Left(s, Pos(s, a), a) {
      GivenSame(m, s, lo, hi, a, space);
      assert Grown(s, s, a, 0);
    } else {
      forall r | Canon(r, lo, hi) && Rep(g.next, g.len, r) ensures !Grown(s, r, a, n) {
        if n > 0 { TooFar(s, r, lo, hi, a, n); } else { NotGrown(m, s, r, lo, hi, a, space); }
      }
    }
  }

  lemma TooFar(s: seq<Blk>, r: seq<Blk>, lo: int, hi: int, a: int, n: int)
    requires Canon(r, lo, hi) && 0 < n && hi < a + n
    ensures !Grown(s, r, a, n)
  {
    hide Canon;
    if Free(r, a + n - 1) { CanonIn(r, lo, hi, a + n - 1); }
    assert a <= a + n - 1 < a + n;
  }

  lemma NotGrown(m: Nodes, s: seq<Blk>, r: seq<Blk>, lo: int, hi: int, a: int, space: nat)
    requires NodesOk(m, s) && Canon(s, lo, hi) && 0 < lo <= a <= hi < space && Canon(r, lo, hi)
    requires !Refuses(s, a, 0, space) && !Left(s, Pos(s, a), a)
    requires Rep(Given(m, s, a, 0, space).next, Given(m, s, a, 0, space).len, r)
    ensures !Grown(s, r, a, 0)
  {
    hide Canon, Rep, Given, Refuses, Left, Pos;
    NotSame(m, s, lo, hi, a, space);
    if Grown(s, r, a, 0) { Unique(r, s, lo, hi); }
  }

  lemma NotSame(m: Nodes, s: seq<Blk>, lo: int, hi: int, a: int, space: nat)
    requires NodesOk(m, s) && Canon(s, lo, hi) && 0 < lo <= a <= hi < space
    requires !Refuses(s, a, 0, space) && !Left(s, Pos(s, a), a)
    ensures !Rep(Given(m, s, a, 0, space).next, Given(m, s, a, 0, space).len, s)
  {
    hide Given, Refuses, Left, Canon, Total;
    GivenNothing(m, s, lo, hi, a, space);
    CanonNodes(s, lo, hi);
    var g, k := Given(m, s, a, 0, space), Pos(s, a);
    assert After(s, k as int - 1) == Addr(s, k);
  }

  lemma CanonNodes(s: seq<Blk>, lo: int, hi: int)
    requires Canon(s, lo, hi)
    ensures forall i :: 0 <= i < |s| ==> s[i].n > 0
  {
  }
}
