/** queuetab: all lists of processes on one table of doubly linked nodes. Node p is process p; behind
    the processes come a head and a tail for every list. */
module QueueTabs {
  import opened Delta

  /** The i-th node of list q: the head before the first process, the tail behind the last. */
  function Node(np: nat, q: nat, l: seq<Ent>, i: int): int {
    if i < 0 then np + 2 * q else if i < |l| then l[i].pid else np + 2 * q + 1
  }

  function Next(np: nat, q: nat, l: seq<Ent>, i: int): int { Node(np, q, l, i + 1) }

  function Prev(np: nat, q: nat, l: seq<Ent>, i: int): int { Node(np, q, l, i - 1) }

  /** The links and keys of list q. */
  ghost predicate ListOk(next: seq<int>, prev: seq<int>, key: seq<int>, np: nat, q: nat, l: seq<Ent>) {
    && |next| == |prev| == |key| && np + 2 * q + 1 < |next|
    && (forall i :: 0 <= i < |l| ==> 0 <= l[i].pid < np && key[l[i].pid] == l[i].key)
    && (forall i :: -1 <= i < |l| ==> next[Node(np, q, l, i)] == Next(np, q, l, i))
    && (forall i :: 0 <= i <= |l| ==> prev[Node(np, q, l, i)] == Prev(np, q, l, i))
    && key[np + 2 * q] == MAXKEY && key[np + 2 * q + 1] == MINKEY
  }

  /** No process is on two lists, or twice on one. */
  ghost predicate Apart(lists: seq<seq<Ent>>) {
    (forall q :: 0 <= q < |lists| ==> Distinct(lists[q]))
    && (forall q, r, p :: 0 <= q < r < |lists| && On(lists[q], p) ==> !On(lists[r], p))
  }

  ghost predicate TabOk(next: seq<int>, prev: seq<int>, key: seq<int>, np: nat, lists: seq<seq<Ent>>) {
    && |next| == |prev| == |key| == np + 2 * |lists|
    && (forall q :: 0 <= q < |lists| ==> ListOk(next, prev, key, np, q, lists[q]))
    && Apart(lists)
  }

  ghost predicate Nowhere(lists: seq<seq<Ent>>, p: int) { forall q :: 0 <= q < |lists| ==> !On(lists[q], p) }

  /** A list does not see changes at nodes that are not its own. */
  lemma ListFrame(n0: seq<int>, p0: seq<int>, k0: seq<int>, n1: seq<int>, p1: seq<int>, k1: seq<int>, np: nat, q: nat,
    l: seq<Ent>)
    requires ListOk(n0, p0, k0, np, q, l) && |n1| == |p1| == |k1| == |n0|
    requires forall x :: 0 <= x < |n0| && (On(l, x) || x == np + 2 * q || x == np + 2 * q + 1) ==>
      n1[x] == n0[x] && p1[x] == p0[x] && k1[x] == k0[x]
    ensures ListOk(n1, p1, k1, np, q, l)
  {
    forall i | -1 <= i <= |l| ensures 0 <= Node(np, q, l, i) < |n0| && n1[Node(np, q, l, i)] == n0[Node(np, q, l, i)]
      && p1[Node(np, q, l, i)] == p0[Node(np, q, l, i)] {
      var x := Node(np, q, l, i);
      assert 0 <= i < |l| ==> l[i].pid == x;
    }
    forall i | 0 <= i < |l| ensures k1[l[i].pid] == l[i].key { assert On(l, l[i].pid); }
  }

  // ---- linking a process in ----

  function Splice(l: seq<Ent>, i: nat, e: Ent): seq<Ent>
    requires i <= |l|
  {
    l[..i] + [e] + l[i..]
  }

  lemma SpliceNode(np: nat, q: nat, l: seq<Ent>, i: nat, e: Ent, j: int)
    requires i <= |l|
    ensures Node(np, q, Splice(l, i, e), j) == if j < i then Node(np, q, l, j) else if j == i then e.pid
    else Node(np, q, l, j - 1)
  {}

  /** A process that is on the list nowhere is none of its nodes. */
  lemma NewNode(np: nat, q: nat, l: seq<Ent>, p: int, j: int)
    requires 0 <= p < np && !On(l, p)
    ensures Node(np, q, l, j) != p
  {
    if 0 <= j < |l| { assert l[j].pid != p; }
  }

  lemma LinkNextAt(next: seq<int>, np: nat, q: nat, l: seq<Ent>, i: nat, e: Ent, n1: seq<int>, j: int)
    requires np + 2 * q + 1 < |next| && Distinct(l) && i <= |l| && 0 <= e.pid < np && !On(l, e.pid)
    requires forall k :: 0 <= k < |l| ==> 0 <= l[k].pid < np
    requires forall k :: -1 <= k < |l| ==> next[Node(np, q, l, k)] == Next(np, q, l, k)
    requires n1 == next[e.pid := Node(np, q, l, i)][Node(np, q, l, i - 1) := e.pid] && -1 <= j <= |l|
    ensures n1[Node(np, q, Splice(l, i, e), j)] == Next(np, q, Splice(l, i, e), j)
  {
    SpliceNode(np, q, l, i, e, j);
    SpliceNode(np, q, l, i, e, j + 1);
    NewNode(np, q, l, e.pid, i - 1);
    var k := if j < i then j else j - 1;
    NewNode(np, q, l, e.pid, k);
    if k != i - 1 {
      NodeApart(np, q, l, k, i - 1);
      assert next[Node(np, q, l, k)] == Next(np, q, l, k);
    }
    hide Node, Splice;
  }

  lemma LinkPrevAt(prev: seq<int>, np: nat, q: nat, l: seq<Ent>, i: nat, e: Ent, p1: seq<int>, j: int)
    requires np + 2 * q + 1 < |prev| && Distinct(l) && i <= |l| && 0 <= e.pid < np && !On(l, e.pid)
    requires forall k :: 0 <= k < |l| ==> 0 <= l[k].pid < np
    requires forall k :: 0 <= k <= |l| ==> prev[Node(np, q, l, k)] == Prev(np, q, l, k)
    requires p1 == prev[e.pid := Node(np, q, l, i - 1)][Node(np, q, l, i) := e.pid] && 0 <= j <= |l| + 1
    ensures p1[Node(np, q, Splice(l, i, e), j)] == Prev(np, q, Splice(l, i, e), j)
  {
    SpliceNode(np, q, l, i, e, j);
    SpliceNode(np, q, l, i, e, j - 1);
    NewNode(np, q, l, e.pid, i);
    var k := if j < i then j else j - 1;
    NewNode(np, q, l, e.pid, k);
    if j != i && k != i {
      NodeApart(np, q, l, k, i);
      assert prev[Node(np, q, l, k)] == Prev(np, q, l, k);
    }
    hide Node, Splice;
  }

  lemma LinkList(next: seq<int>, prev: seq<int>, key: seq<int>, np: nat, q: nat, l: seq<Ent>, i: nat, e: Ent,
                 n1: seq<int>, p1: seq<int>, k1: seq<int>)
    requires ListOk(next, prev, key, np, q, l) && Distinct(l) && i <= |l| && 0 <= e.pid < np && !On(l, e.pid)
    requires n1 == next[e.pid := Node(np, q, l, i)][Node(np, q, l, i - 1) := e.pid]
    requires p1 == prev[e.pid := Node(np, q, l, i - 1)][Node(np, q, l, i) := e.pid] && k1 == key[e.pid := e.key]
    ensures ListOk(n1, p1, k1, np, q, Splice(l, i, e))
  {
    hide Distinct, Splice, Node, Next, Prev, On;
    var r := Splice(l, i, e);
    SpliceKeys(key, np, l, i, e);
    NodeRange(np, q, l, i);
    NodeRange(np, q, l, i - 1);
    forall j ensures 0 <= Node(np, q, r, j) < |n1| { NodeRange(np, q, r, j); }
    forall j | -1 <= j < |r| ensures n1[Node(np, q, r, j)] == Next(np, q, r, j) {
      LinkNextAt(next, np, q, l, i, e, n1, j);
    }
    forall j | 0 <= j <= |r| ensures p1[Node(np, q, r, j)] == Prev(np, q, r, j) {
      LinkPrevAt(prev, np, q, l, i, e, p1, j);
    }
  }

  lemma NodeRange(np: nat, q: nat, l: seq<Ent>, j: int)
    requires forall k :: 0 <= k < |l| ==> 0 <= l[k].pid < np
    ensures 0 <= Node(np, q, l, j) <= np + 2 * q + 1
  {}

  /** The keys of the list with its new process. */
  lemma SpliceKeys(key: seq<int>, np: nat, l: seq<Ent>, i: nat, e: Ent)
    requires np <= |key| && i <= |l| && 0 <= e.pid < np && !On(l, e.pid)
    requires forall j :: 0 <= j < |l| ==> 0 <= l[j].pid < np && key[l[j].pid] == l[j].key
    ensures var r := Splice(l, i, e);
      |r| == |l| + 1 && forall j :: 0 <= j < |r| ==> 0 <= r[j].pid < np && key[e.pid := e.key][r[j].pid] == r[j].key
  {
    var r := Splice(l, i, e);
    assert forall j :: 0 <= j < |l| ==> l[j].pid != e.pid;
    forall j | 0 <= j < |r| ensures 0 <= r[j].pid < np && key[e.pid := e.key][r[j].pid] == r[j].key {
      assert r[j] == if j < i then l[j] else if j == i then e else l[j - 1];
    }
  }

  /** Nodes at different places are different. */
  lemma NodeApart(np: nat, q: nat, l: seq<Ent>, i: int, j: int)
    requires Distinct(l) && (forall k :: 0 <= k < |l| ==> 0 <= l[k].pid < np) && -1 <= i <= |l| && -1 <= j <= |l|
      && i != j
    ensures Node(np, q, l, i) != Node(np, q, l, j)
  {}

  lemma SpliceApart(lists: seq<seq<Ent>>, q: nat, l: seq<Ent>, p: int)
    requires Apart(lists) && q < |lists| && Distinct(l) && (forall x :: On(l, x) ==> On(lists[q], x) || x == p)
    requires On(l, p) ==> On(lists[q], p) || Nowhere(lists, p)
    ensures Apart(lists[q := l])
  {
    hide Distinct, On;
  }

  /** The table after a process has been linked into list q. */
  lemma LinkTab(next: seq<int>, prev: seq<int>, key: seq<int>, np: nat, lists: seq<seq<Ent>>, q: nat, i: nat, e: Ent,
                n1: seq<int>, p1: seq<int>, k1: seq<int>)
    requires TabOk(next, prev, key, np, lists) && q < |lists| && i <= |lists[q]| && 0 <= e.pid < np
      && Nowhere(lists, e.pid)
    requires n1 == next[e.pid := Node(np, q, lists[q], i)][Node(np, q, lists[q], i - 1) := e.pid]
    requires p1 == prev[e.pid := Node(np, q, lists[q], i - 1)][Node(np, q, lists[q], i) := e.pid]
      && k1 == key[e.pid := e.key]
    ensures TabOk(n1, p1, k1, np, lists[q := Splice(lists[q], i, e)])
  {
    var l := lists[q];
    hide Splice, Distinct;
    LinkList(next, prev, key, np, q, l, i, e, n1, p1, k1);
    SpliceSet(l, i, e);
    SpliceApart(lists, q, Splice(l, i, e), e.pid);
    forall r | 0 <= r < |lists| && r != q ensures ListOk(n1, p1, k1, np, r, lists[r]) {
      OtherNodes(lists, q, r, np, i);
      OtherNodes(lists, q, r, np, i - 1);
      ListFrame(next, prev, key, n1, p1, k1, np, r, lists[r]);
    }
    hide ListOk, Apart, Node;
  }

  lemma SpliceSet(l: seq<Ent>, i: nat, e: Ent)
    requires i <= |l| && Distinct(l) && !On(l, e.pid)
    ensures Distinct(Splice(l, i, e)) && forall x :: On(Splice(l, i, e), x) <==> On(l, x) || x == e.pid
  {
    forall x { SpliceOn(l, i, e, x); }
  }

  /** The nodes of list q are not nodes of list r. */
  lemma OtherNodes(lists: seq<seq<Ent>>, q: nat, r: nat, np: nat, i: int)
    requires Apart(lists) && q < |lists| && r < |lists| && q != r
    requires forall k :: 0 <= k < |lists[q]| ==> 0 <= lists[q][k].pid < np
    requires forall k :: 0 <= k < |lists[r]| ==> 0 <= lists[r][k].pid < np
    ensures var x := Node(np, q, lists[q], i); !On(lists[r], x) && x != np + 2 * r && x != np + 2 * r + 1
  {
    var x := Node(np, q, lists[q], i);
    if 0 <= i < |lists[q]| { assert On(lists[q], x); }
    hide Distinct;
  }

  // ---- taking a process out ----

  function Cut(l: seq<Ent>, i: nat): seq<Ent>
    requires i < |l|
  {
    l[..i] + l[i + 1..]
  }

  lemma CutNode(np: nat, q: nat, l: seq<Ent>, i: nat, j: int)
    requires i < |l|
    ensures Node(np, q, Cut(l, i), j) == Node(np, q, l, if j < i then j else j + 1)
  {}

  lemma NodeIn(np: nat, q: nat, l: seq<Ent>, j: int)
    requires forall k :: 0 <= k < |l| ==> 0 <= l[k].pid < np
    ensures 0 <= Node(np, q, l, j) < np + 2 * q + 2
  {}

  lemma CutNextAt(next: seq<int>, np: nat, q: nat, l: seq<Ent>, i: nat, n1: seq<int>, j: int)
    requires np + 2 * q + 1 < |next| && Distinct(l) && i < |l| && -1 <= j < |l| - 1
    requires forall k :: 0 <= k < |l| ==> 0 <= l[k].pid < np
    requires forall k :: -1 <= k < |l| ==> next[Node(np, q, l, k)] == Next(np, q, l, k)
    requires n1 == next[Node(np, q, l, i - 1) := Node(np, q, l, i + 1)]
    ensures n1[Node(np, q, Cut(l, i), j)] == Next(np, q, Cut(l, i), j)
  {
    hide Node, Cut, Distinct;
    CutNode(np, q, l, i, j);
    CutNode(np, q, l, i, j + 1);
    var k := if j < i then j else j + 1;
    NodeIn(np, q, l, i - 1);
    NodeIn(np, q, l, k);
    if k != i - 1 { NodeApart(np, q, l, k, i - 1); }
    assert next[Node(np, q, l, k)] == Next(np, q, l, k);
  }

  lemma CutPrevAt(prev: seq<int>, np: nat, q: nat, l: seq<Ent>, i: nat, p1: seq<int>, j: int)
    requires np + 2 * q + 1 < |prev| && Distinct(l) && i < |l| && 0 <= j < |l|
    requires forall k :: 0 <= k < |l| ==> 0 <= l[k].pid < np
    requires forall k :: 0 <= k <= |l| ==> prev[Node(np, q, l, k)] == Prev(np, q, l, k)
    requires p1 == prev[Node(np, q, l, i + 1) := Node(np, q, l, i - 1)]
    ensures p1[Node(np, q, Cut(l, i), j)] == Prev(np, q, Cut(l, i), j)
  {
    hide Node, Cut, Distinct;
    CutNode(np, q, l, i, j);
    CutNode(np, q, l, i, j - 1);
    var k := if j < i then j else j + 1;
    NodeIn(np, q, l, i + 1);
    NodeIn(np, q, l, k);
    if k != i + 1 { NodeApart(np, q, l, k, i + 1); }
    assert prev[Node(np, q, l, k)] == Prev(np, q, l, k);
  }

  lemma CutList(next: seq<int>, prev: seq<int>, key: seq<int>, np: nat, q: nat, l: seq<Ent>, i: nat, n1: seq<int>,
    p1: seq<int>)
    requires ListOk(next, prev, key, np, q, l) && Distinct(l) && i < |l|
    requires n1 == next[Node(np, q, l, i - 1) := Node(np, q, l, i + 1)]
      && p1 == prev[Node(np, q, l, i + 1) := Node(np, q, l, i - 1)]
    ensures ListOk(n1, p1, key, np, q, Cut(l, i))
  {
    hide Distinct, Node, Next, Prev;
    var r := Cut(l, i);
    assert forall j :: 0 <= j < |r| ==> r[j] == l[if j < i then j else j + 1];
    forall j ensures 0 <= Node(np, q, r, j) < np + 2 * q + 2 { NodeIn(np, q, r, j); }
    NodeIn(np, q, l, i - 1);
    NodeIn(np, q, l, i + 1);
    forall j | -1 <= j < |r| ensures n1[Node(np, q, r, j)] == Next(np, q, r, j) { CutNextAt(next, np, q, l, i, n1, j); }
    forall j | 0 <= j <= |r| ensures p1[Node(np, q, r, j)] == Prev(np, q, r, j) { CutPrevAt(prev, np, q, l, i, p1, j); }
  }

  lemma CutSet(l: seq<Ent>, i: nat)
    requires i < |l| && Distinct(l)
    ensures Distinct(Cut(l, i)) && forall x :: On(Cut(l, i), x) <==> On(l, x) && x != l[i].pid
  {
    var r := Cut(l, i);
    forall x ensures On(r, x) <==> On(l, x) && x != l[i].pid {
      if On(l, x) && x != l[i].pid {
        var j :| 0 <= j < |l| && l[j].pid == x;
        assert r[if j < i then j else j - 1] == l[j];
      }
    }
  }

  lemma CutTab(next: seq<int>, prev: seq<int>, key: seq<int>, np: nat, lists: seq<seq<Ent>>, q: nat, i: nat,
    n1: seq<int>, p1: seq<int>)
    requires TabOk(next, prev, key, np, lists) && q < |lists| && i < |lists[q]|
    requires n1 == next[Node(np, q, lists[q], i - 1) := Node(np, q, lists[q], i + 1)]
    requires p1 == prev[Node(np, q, lists[q], i + 1) := Node(np, q, lists[q], i - 1)]
    ensures TabOk(n1, p1, key, np, lists[q := Cut(lists[q], i)])
      && Nowhere(lists[q := Cut(lists[q], i)], lists[q][i].pid)
  {
    var l := lists[q];
    hide Cut, Distinct;
    assert On(l, l[i].pid);
    CutList(next, prev, key, np, q, l, i, n1, p1);
    CutSet(l, i);
    SpliceApart(lists, q, Cut(l, i), l[i].pid);
    forall r | 0 <= r < |lists| && r != q ensures ListOk(n1, p1, key, np, r, lists[r]) {
      OtherNodes(lists, q, r, np, i + 1);
      OtherNodes(lists, q, r, np, i - 1);
      ListFrame(next, prev, key, n1, p1, key, np, r, lists[r]);
    }
    hide ListOk, Node;
  }

  /** A process that is nowhere may have its links overwritten. */
  lemma FreeNode(next: seq<int>, prev: seq<int>, key: seq<int>, np: nat, lists: seq<seq<Ent>>, p: int, x: int, y: int,
    k: int)
    requires TabOk(next, prev, key, np, lists) && 0 <= p < np && Nowhere(lists, p)
    ensures TabOk(next[p := x], prev[p := y], key[p := k], np, lists)
  {
    forall r | 0 <= r < |lists| ensures ListOk(next[p := x], prev[p := y], key[p := k], np, r, lists[r]) {
      ListFrame(next, prev, key, next[p := x], prev[p := y], key[p := k], np, r, lists[r]);
    }
    hide ListOk, Apart;
  }

  /** A new key for the i-th process of list q. */
  lemma KeyTab(next: seq<int>, prev: seq<int>, key: seq<int>, np: nat, lists: seq<seq<Ent>>, q: nat, i: nat, k: int)
    requires TabOk(next, prev, key, np, lists) && q < |lists| && i < |lists[q]|
    ensures 0 <= lists[q][i].pid < np
    ensures TabOk(next, prev, key[lists[q][i].pid := k], np, lists[q := lists[q][i := Ent(lists[q][i].pid, k)]])
  {
    var p := lists[q][i].pid;
    var l' := lists[q][i := Ent(p, k)];
    assert On(lists[q], p);
    forall x ensures On(l', x) <==> On(lists[q], x) {
      if On(lists[q], x) {
        var j :| 0 <= j < |lists[q]| && lists[q][j].pid == x;
        assert l'[j].pid == x;
      }
    }
    KeyList(next, prev, key, np, q, lists[q], i, k);
    SpliceApart(lists, q, l', p);
    forall r | 0 <= r < |lists| && r != q ensures ListOk(next, prev, key[p := k], np, r, lists[r]) {
      ListFrame(next, prev, key, next, prev, key[p := k], np, r, lists[r]);
    }
    hide ListOk;
  }

  lemma KeyList(next: seq<int>, prev: seq<int>, key: seq<int>, np: nat, q: nat, l: seq<Ent>, i: nat, k: int)
    requires ListOk(next, prev, key, np, q, l) && Distinct(l) && i < |l|
    ensures ListOk(next, prev, key[l[i].pid := k], np, q, l[i := Ent(l[i].pid, k)])
      && Distinct(l[i := Ent(l[i].pid, k)])
  {
    var l' := l[i := Ent(l[i].pid, k)];
    forall j ensures Node(np, q, l', j) == Node(np, q, l, j) {}
    assert forall j :: 0 <= j < |l| ==> l'[j].pid == l[j].pid;
    hide Node;
    forall j | -1 <= j < |l'| ensures next[Node(np, q, l', j)] == Next(np, q, l', j) {
      assert next[Node(np, q, l, j)] == Next(np, q, l, j);
    }
    forall j | 0 <= j <= |l'| ensures prev[Node(np, q, l', j)] == Prev(np, q, l', j) {
      assert prev[Node(np, q, l, j)] == Prev(np, q, l, j);
    }
  }
}
