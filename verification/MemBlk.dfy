/** Free lists whose nodes are kept in the free memory itself: the fields mnext and mlength of the
    memblk at each address, with the list header at an address of its own. */
module MemBlk {
  import opened FreeList

  const HEAD := -1
  const NULL := 0

  /** Address of the i-th node; the header for -1, NULL behind the last. */
  function Addr(s: seq<Blk>, i: int): int { if i < 0 then HEAD else if i < |s| then s[i].a else NULL }

  function After(s: seq<Blk>, i: int): int { Addr(s, i + 1) }

  /** The fields represent the list s; the header holds the total length. */
  ghost predicate Rep(mnext: map<int, int>, mlength: map<int, int>, s: seq<Blk>) {
    && (forall i :: -1 <= i < |s| ==> Addr(s, i) in mnext && mnext[Addr(s, i)] == After(s, i))
    && (forall i :: 0 <= i < |s| ==> s[i].a in mlength && mlength[s[i].a] == s[i].n)
    && HEAD in mlength && mlength[HEAD] == Total(s)
  }

  /** Nodes are at different addresses, none at the header or at NULL. */
  ghost predicate Apart(s: seq<Blk>) {
    (forall i :: 0 <= i < |s| ==> s[i].a > 0) && (forall i, j :: 0 <= i < j < |s| ==> s[i].a < s[j].a)
  }

  lemma CanonApart(s: seq<Blk>, lo: int, hi: int)
    requires Canon(s, lo, hi) && lo > 0
    ensures Apart(s)
  {}

  /** Replacing nodes i..j of a list by at most one node. */
  lemma Splice(s: seq<Blk>, i: nat, j: nat, mid: seq<Blk>, mnext: map<int, int>, mlength: map<int, int>)
    requires i <= j <= |s| && |mid| <= 1
    requires forall m :: -1 <= m < i - 1 ==> Addr(s, m) in mnext && mnext[Addr(s, m)] == After(s, m)
    requires Addr(s, i - 1) in mnext && mnext[Addr(s, i - 1)] == if mid == [] then Addr(s, j) else mid[0].a
    requires mid != [] ==> mid[0].a in mnext && mnext[mid[0].a] == Addr(s, j)
    requires mid != [] ==> mid[0].a in mlength && mlength[mid[0].a] == mid[0].n
    requires forall m :: j <= m < |s| ==> Addr(s, m) in mnext && mnext[Addr(s, m)] == After(s, m)
    requires forall m :: 0 <= m < i || j <= m < |s| ==> s[m].a in mlength && mlength[s[m].a] == s[m].n
    requires HEAD in mlength && mlength[HEAD] == Total(s[..i] + mid + s[j..])
    ensures Rep(mnext, mlength, s[..i] + mid + s[j..])
  {
    hide Total;
    var r := s[..i] + mid + s[j..];
    forall m | -1 <= m < |r| ensures Addr(r, m) in mnext && mnext[Addr(r, m)] == After(r, m) {
      if m < i - 1 {
        assert Addr(r, m) == Addr(s, m) && After(r, m) == After(s, m);
      } else if m >= i + |mid| {
        var k := m - i - |mid| + j;
        assert r[m] == s[k] && Addr(r, m) == Addr(s, k) && After(r, m) == After(s, k);
      }
    }
    forall m | 0 <= m < |r| ensures r[m].a in mlength && mlength[r[m].a] == r[m].n {
      if m < i { assert r[m] == s[m]; } else if m >= i + |mid| { assert r[m] == s[m - i - |mid| + j]; }
    }
  }

  /** Unlinking node i. */
  lemma Unlink(s: seq<Blk>, i: nat, mnext: map<int, int>, mlength: map<int, int>)
    requires Rep(mnext, mlength, s) && Apart(s) && i < |s|
    ensures Rep(mnext[Addr(s, i - 1) := After(s, i)], mlength[HEAD := mlength[HEAD] - s[i].n], s[..i] + s[i + 1..])
  {
    CutTotal(s, i, i + 1, []);
    TotalOf(s, i, i + 1);
    assert s[..i] + [] + s[i + 1..] == s[..i] + s[i + 1..];
    hide Total;
    Splice(s, i, i + 1, [], mnext[Addr(s, i - 1) := After(s, i)], mlength[HEAD := mlength[HEAD] - s[i].n]);
  }

  /** Linking node b in place of nodes i..j: what else the fields hold does not matter. */
  lemma Relink(s: seq<Blk>, i: nat, j: nat, b: Blk, n0: map<int, int>, l0: map<int, int>, n1: map<int, int>,
    l1: map<int, int>)
    requires Rep(n0, l0, s) && Apart(s) && i <= j <= |s| && b.a > 0
    requires forall m :: 0 <= m < i || j <= m < |s| ==> s[m].a != b.a
    requires Addr(s, i - 1) in n1 && n1[Addr(s, i - 1)] == b.a && b.a in n1 && n1[b.a] == Addr(s, j)
    requires b.a in l1 && l1[b.a] == b.n && HEAD in l1 && l1[HEAD] == l0[HEAD] + b.n - Total(s[i..j])
    requires forall x :: x in n0 && x != b.a && x != Addr(s, i - 1) ==> x in n1 && n1[x] == n0[x]
    requires forall x :: x in l0 && x != b.a && x != HEAD ==> x in l1 && l1[x] == l0[x]
    ensures Rep(n1, l1, s[..i] + [b] + s[j..])
  {
    hide Total;
    CutTotal(s, i, j, [b]);
    TotalSingle(b);
    forall m | -1 <= m < i - 1 || j <= m < |s| ensures Addr(s, m) in n1 && n1[Addr(s, m)] == After(s, m) {
      assert Addr(s, m) in n0 && Addr(s, m) != Addr(s, i - 1) && Addr(s, m) != b.a;
    }
    forall m | 0 <= m < i || j <= m < |s| ensures s[m].a in l1 && l1[s[m].a] == s[m].n {
      assert s[m].a in l0 && s[m].a != HEAD;
    }
    Splice(s, i, j, [b], n1, l1);
  }

  /** ... with the updates written out; `n` is what the list gains. */
  lemma Link(s: seq<Blk>, i: nat, j: nat, b: Blk, n: int, mnext: map<int, int>, mlength: map<int, int>)
    requires Rep(mnext, mlength, s) && Apart(s) && i <= j <= |s| && b.a > 0
    requires forall m :: 0 <= m < i || j <= m < |s| ==> s[m].a != b.a
    requires n == b.n - Total(s[i..j])
    ensures Rep(mnext[Addr(s, i - 1) := b.a][b.a := Addr(s, j)], mlength[b.a := b.n][HEAD := mlength[HEAD] + n],
                s[..i] + [b] + s[j..])
  {
    hide Total, Rep;
    LinkKeys(s, i, b);
    HeadIn(mnext, mlength, s);
    Relink(s, i, j, b, mnext, mlength, mnext[Addr(s, i - 1) := b.a][b.a := Addr(s, j)],
           mlength[b.a := b.n][HEAD := mlength[HEAD] + n]);
  }

  lemma HeadIn(mnext: map<int, int>, mlength: map<int, int>, s: seq<Blk>)
    requires Rep(mnext, mlength, s)
    ensures HEAD in mlength
  {}

  lemma LinkKeys(s: seq<Blk>, i: nat, b: Blk)
    requires i <= |s| && b.a > 0 && Apart(s) && forall m :: 0 <= m < i ==> s[m].a != b.a
    ensures Addr(s, i - 1) != b.a && b.a != HEAD
  {}

  lemma CutTotal(s: seq<Blk>, i: nat, j: nat, mid: seq<Blk>)
    requires i <= j <= |s|
    ensures Total(s[..i] + mid + s[j..]) == Total(s) - Total(s[i..j]) + Total(mid)
  {
    hide Total;
    assert s == s[..i] + s[i..j] + s[j..];
    TotalSplit(s[..i] + s[i..j], s[j..]);
    TotalSplit(s[..i], s[i..j]);
    TotalSplit(s[..i] + mid, s[j..]);
    TotalSplit(s[..i], mid);
  }

  // ---- the end of freemem, on the nodes ----

  /** All fields together. */
  datatype Nodes = Nodes(next: map<int, int>, len: map<int, int>)

  ghost predicate NodesOk(m: Nodes, s: seq<Blk>) {
    Rep(m.next, m.len, s) && NULL in m.next && NULL in m.len
  }

  /** A sum in an address space of that size. */
  function Wrap(x: int, space: nat): int
    requires space > 0
  {
    x % space
  }

  lemma NoWrap(x: int, space: nat)
    requires 0 <= x < space
    ensures Wrap(x, space) == x
  {}

  /** A block of n addresses from a on linked between prev and next, where prev ends at top; sums wrap
      around at the size of the address space. */
  function Linked(m: Nodes, prev: int, next: int, top: int, a: int, n: int, space: nat): Nodes
    requires HEAD in m.len && prev in m.len && next in m.next && next in m.len && space > 0
  {
    var l := m.len[HEAD := Wrap(m.len[HEAD] + n, space)];
    var b := if top == a then prev else a;
    var m1 := if top == a then Nodes(m.next, l[prev := Wrap(l[prev] + n, space)])
              else Nodes(m.next[a := next][prev := a], l[a := n]);
    if Wrap(b + m1.len[b], space) == next
    then Nodes(m1.next[b := m1.next[next]], m1.len[b := Wrap(m1.len[b] + m1.len[next], space)])
    else m1
  }

  /** The two halves of it: the block is linked or added to the one before it, and the result is merged
      with the one behind it. */
  function LinkLeft(m: Nodes, prev: int, next: int, top: int, a: int, n: int, space: nat): Nodes
    requires HEAD in m.len && prev in m.len && space > 0
  {
    var l := m.len[HEAD := Wrap(m.len[HEAD] + n, space)];
    if top == a then Nodes(m.next, l[prev := Wrap(l[prev] + n, space)])
    else Nodes(m.next[a := next][prev := a], l[a := n])
  }

  function MergeRight(m: Nodes, b: int, next: int, space: nat): Nodes
    requires b in m.len && next in m.next && next in m.len && space > 0
  {
    if Wrap(b + m.len[b], space) == next
    then Nodes(m.next[b := m.next[next]], m.len[b := Wrap(m.len[b] + m.len[next], space)]) else m
  }

  function Top(s: seq<Blk>, k: nat): int
    requires k <= |s|
  {
    if k == 0 then NULL else End(s[k - 1])
  }

  lemma AddrIn(m: Nodes, s: seq<Blk>, k: int)
    requires NodesOk(m, s) && -1 <= k <= |s|
    ensures HEAD in m.len && Addr(s, k) in m.next && Addr(s, k) in m.len
  {}

  /** What freemem tests. */
  predicate Refuses(s: seq<Blk>, a: int, n: int, space: nat)
    requires space > 0
  {
    var k := Pos(s, a);
    (k > 0 && a < End(s[k - 1])) || (k < |s| && Wrap(a + n, space) > s[k].a)
  }

  /** The nodes after freemem has accepted a block. */
  ghost function Given(m: Nodes, s: seq<Blk>, a: int, n: int, space: nat): Nodes
    requires NodesOk(m, s) && space > 0
  {
    var k := Pos(s, a);
    AddrIn(m, s, k - 1);
    AddrIn(m, s, k);
    Linked(m, Addr(s, k - 1), Addr(s, k), Top(s, k), a, n, space)
  }

  lemma TotalIn(s: seq<Blk>, lo: int, hi: int)
    requires Canon(s, lo, hi) && lo <= hi
    ensures 0 <= Total(s) <= hi - lo
  {
    if s != [] { TotalIn(s[1..], End(s[0]), hi); }
  }

  /** The nodes around a block that is given back. */
  ghost predicate Nearby(m: Nodes, s: seq<Blk>, k: nat, a: int, n: int)
    requires k <= |s|
  {
    && HEAD in m.len && m.len[HEAD] == Total(s)
    && Addr(s, k - 1) in m.next && m.next[Addr(s, k - 1)] == Addr(s, k)
    && (k > 0 ==> s[k - 1].a in m.len && m.len[s[k - 1].a] == s[k - 1].n && 0 < s[k - 1].a < a && s[k - 1].n > 0)
    && (k > 0 ==> Addr(s, k - 2) in m.next && m.next[Addr(s, k - 2)] == s[k - 1].a)
    && (k < |s| ==> s[k].a in m.len && m.len[s[k].a] == s[k].n && s[k].a in m.next && m.next[s[k].a] == Addr(s, k + 1))
    && (k < |s| ==> a + n <= s[k].a && s[k].n > 0)
    && (k == |s| ==> Addr(s, k) == NULL)
  }

  lemma Neighbours(m: Nodes, s: seq<Blk>, lo: int, hi: int, k: nat, a: int, n: int)
    requires NodesOk(m, s) && Canon(s, lo, hi) && 0 < lo && k == Pos(s, a) && Put(s, a, n).Some?
    ensures Nearby(m, s, k, a, n)
  {
    hide Canon, Total, Rep, After;
    if k > 0 {
      CanonAt(s, lo, hi, k - 1);
      LinkAt(m, s, k as int - 2);
    }
    if k < |s| {
      CanonAt(s, lo, hi, k);
      LinkAt(m, s, k);
    }
    LinkAt(m, s, k as int - 1);
  }

  /** What the fields of node i hold. */
  lemma LinkAt(m: Nodes, s: seq<Blk>, i: int)
    requires NodesOk(m, s) && -1 <= i < |s|
    ensures HEAD in m.len && m.len[HEAD] == Total(s)
    ensures Addr(s, i) in m.next && m.next[Addr(s, i)] == Addr(s, i + 1)
    ensures i >= 0 ==> s[i].a in m.len && m.len[s[i].a] == s[i].n
  {
    assert After(s, i) == Addr(s, i + 1);
  }

  lemma CanonAt(s: seq<Blk>, lo: int, hi: int, i: nat)
    requires Canon(s, lo, hi) && i < |s|
    ensures lo <= s[i].a && s[i].n > 0 && End(s[i]) <= hi
  {}

  lemma PutFits(s: seq<Blk>, lo: int, hi: int, a: int, n: int, space: nat)
    requires 0 < lo <= a && 0 <= n && a + n <= hi < space
    ensures Put(s, a, n).None? <==> Refuses(s, a, n, space)
  {
    hide Wrap, Pos;
    NoWrap(a + n, space);
  }

  lemma PutParts(s: seq<Blk>, k: nat, a: int, n: int)
    requires Put(s, a, n).Some? && k == Pos(s, a)
    ensures Put(s, a, n).value
      == s[..if Left(s, k, a) then k - 1 else k] + [Merged(s, k, a, n)] + s[if Right(s, k, a + n) then k + 1 else k..]
  {}

  lemma NoOther(s: seq<Blk>, lo: int, hi: int, k: nat, a: int, n: int)
    requires Canon(s, lo, hi) && k == Pos(s, a) && Put(s, a, n).Some? && n > 0
    ensures forall m :: 0 <= m < |s| ==> s[m].a != a
    ensures k > 0 ==> forall m :: 0 <= m < |s| && m != k - 1 ==> s[m].a != s[k - 1].a
  {}

  /** A block of at least one address inside the heap: the nodes then represent the new list. */
  lemma GivenRep(m: Nodes, s: seq<Blk>, lo: int, hi: int, a: int, n: int, space: nat)
    requires NodesOk(m, s) && Canon(s, lo, hi) && 0 < lo <= a && 0 < n && a + n <= hi < space && Put(s, a, n).Some?
    ensures NodesOk(Given(m, s, a, n, space), Put(s, a, n).value)
  {
    hide Canon, Total, Rep, Pos, Put, Apart;
    var k := Pos(s, a);
    Neighbours(m, s, lo, hi, k, a, n);
    PutCanon(s, lo, hi, a, n);
    TotalIn(Put(s, a, n).value, lo, hi);
    PutTotal(s, a, n);
    CanonApart(s, lo, hi);
    NoOther(s, lo, hi, k, a, n);
    PutParts(s, k, a, n);
    MergedAt(s, lo, hi, k, a, n);
    var i, j := if Left(s, k, a) then k as int - 1 else k as int, if Right(s, k, a + n) then k + 1 else k;
    CutOf(s, i, k, j);
    AddrIn(m, s, k as int - 1);
    AddrIn(m, s, k);
    LinkedAt(m, s, hi, k, a, n, space);
    hide Linked, Merged;
    var g := Given(m, s, a, n, space);
    Relink(s, i, j, Merged(s, k, a, n), m.next, m.len, g.next, g.len);
  }

  lemma MergedAt(s: seq<Blk>, lo: int, hi: int, k: nat, a: int, n: int)
    requires Canon(s, lo, hi) && k == Pos(s, a) && 0 < lo <= a && 0 < n && a + n <= hi && Put(s, a, n).Some?
    ensures 0 < Merged(s, k, a, n).a && End(Merged(s, k, a, n)) <= hi
    ensures (k > 0 ==> End(s[k - 1]) <= a) && (k < |s| ==> End(s[k]) <= hi) && (1 < k ==> 0 < s[k - 2].a < s[k - 1].a)
  {}

  lemma CutOf(s: seq<Blk>, i: nat, k: nat, j: nat)
    requires i <= k <= j <= |s| && k <= i + 1 && j <= k + 1
    ensures Total(s[i..j]) == (if i < k then s[i].n else 0) + (if k < j then s[k].n else 0)
  {
    hide Total;
    TotalOf(s, i, k);
    TotalOf(s, k, j);
    assert s[i..j] == s[i..k] + s[k..j];
    TotalSplit(s[i..k], s[k..j]);
  }

  /** Inside the heap nothing wraps around. */
  lemma LinkedIs(m: Nodes, prev: int, next: int, top: int, a: int, n: int, space: nat)
    requires HEAD in m.len && prev in m.len && next in m.next && next in m.len
    requires 0 < a && 0 < n && a + n < space && 0 <= m.len[HEAD] + n < space && prev != a
    requires next != a && next != HEAD && prev != next
    requires top == a ==> prev > 0 && prev + m.len[prev] == a && m.len[prev] > 0
    requires next != NULL && a + n == next ==> 0 <= m.len[next] && next + m.len[next] < space
    ensures var g, l := Linked(m, prev, next, top, a, n, space), m.len[HEAD := m.len[HEAD] + n];
      if a + n == next then
        if top == a then g == Nodes(m.next[prev := m.next[next]], l[prev := m.len[prev] + n + m.len[next]])
        else g == Nodes(m.next[a := next][prev := a][a := m.next[next]], l[a := n + m.len[next]])
      else
        if top == a then g == Nodes(m.next, l[prev := m.len[prev] + n])
        else g == Nodes(m.next[a := next][prev := a], l[a := n])
  {
    hide Wrap;
    NoWrap(m.len[HEAD] + n, space);
    NoWrap(a + n, space);
    if top == a { NoWrap(m.len[prev] + n, space); }
    if a + n == next {
      NoWrap((if top == a then m.len[prev] + n else n) + m.len[next], space);
      if top == a {
        assert m.len[HEAD := m.len[HEAD] + n][prev := m.len[prev] + n][prev := m.len[prev] + n + m.len[next]]
          == m.len[HEAD := m.len[HEAD] + n][prev := m.len[prev] + n + m.len[next]];
      } else {
        assert m.len[HEAD := m.len[HEAD] + n][a := n][a := n + m.len[next]]
          == m.len[HEAD := m.len[HEAD] + n][a := n + m.len[next]];
      }
    }
  }

  /** The merged block stands where it belongs, and nothing else has changed. */
  ghost predicate Linkage(m: Nodes, g: Nodes, s: seq<Blk>, k: nat, a: int, n: int)
    requires k <= |s| && HEAD in m.len
  {
    var b := Merged(s, k, a, n);
    var i := if Left(s, k, a) then k - 1 else k as int;
    var j := if Right(s, k, a + n) then k + 1 else k;
    && Addr(s, i - 1) in g.next && g.next[Addr(s, i - 1)] == b.a && b.a in g.next && g.next[b.a] == Addr(s, j)
    && b.a in g.len && g.len[b.a] == b.n && HEAD in g.len && g.len[HEAD] == m.len[HEAD] + n
    && (forall x :: x in m.next && x != b.a && x != Addr(s, i - 1) ==> x in g.next && g.next[x] == m.next[x])
    && (forall x :: x in m.len && x != b.a && x != HEAD ==> x in g.len && g.len[x] == m.len[x])
  }

  lemma LinkedAt(m: Nodes, s: seq<Blk>, hi: int, k: nat, a: int, n: int, space: nat)
    requires k <= |s| && Nearby(m, s, k, a, n) && Addr(s, k - 1) in m.len && Addr(s, k) in m.next && Addr(s, k) in m.len
    requires 0 < a && 0 < n && a + n <= hi < space && 0 <= m.len[HEAD] + n < space
    requires (k > 0 ==> End(s[k - 1]) <= a) && (k < |s| ==> End(s[k]) <= hi) && (1 < k ==> 0 < s[k - 2].a < s[k - 1].a)
    ensures Linkage(m, Linked(m, Addr(s, k - 1), Addr(s, k), Top(s, k), a, n, space), s, k, a, n)
  {
    hide Total, Linked;
    LinkedIs(m, Addr(s, k - 1), Addr(s, k), Top(s, k), a, n, space);
    assert Left(s, k, a) <==> Top(s, k) == a;
    assert Right(s, k, a + n) <==> Addr(s, k) == a + n;
  }
}
