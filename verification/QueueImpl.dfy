/** The operations on queuetab: enqueue, dequeue, getfirst, getitem, insert, insertd, and the part of
    unsleep that works on the table. */
module QueueImpl {
  import opened Kernel
  import opened Delta
  import opened QueueTabs
  import D = Delta

  class QueueTab {
    const nproc: nat
    const qkey: array<int>
    const qnext: array<int>
    const qprev: array<int>
    /** The processes on every list, with their keys. */
    ghost var lists: seq<seq<Ent>>

    ghost predicate Valid() reads this, qkey, qnext, qprev {
      && qkey != qnext && qkey != qprev && qnext != qprev
      && TabOk(qnext[..], qprev[..], qkey[..], nproc, lists)
    }

    function Head(q: nat): int { nproc + 2 * q }

    function Tail(q: nat): int { nproc + 2 * q + 1 }

    /** newqueue for every list. */
    constructor (nproc: nat, nlists: nat)
      ensures Valid() && this.nproc == nproc && fresh(qkey) && fresh(qnext) && fresh(qprev)
      ensures lists == seq(nlists, _ => [])
    {
      this.nproc := nproc;
      qkey, qnext, qprev := new int[nproc + 2 * nlists](_ => 0), new int[nproc + 2 * nlists](_ => EMPTY),
        new int[nproc + 2 * nlists](_ => EMPTY);
      lists := seq(nlists, _ => []);
      new;
      var k := 0;
      while k < nlists
        invariant 0 <= k <= nlists && lists == seq(nlists, _ => [])
        invariant forall q :: 0 <= q < k ==> EmptyAt(q)
      {
        NewQueue(k);
        k := k + 1;
      }
      NoneApart(lists);
      forall q | 0 <= q < |lists| ensures ListOk(qnext[..], qprev[..], qkey[..], nproc, q, lists[q]) {
        assert EmptyAt(q);
      }
    }

    ghost predicate EmptyAt(q: nat) reads qkey, qnext, qprev {
      ListOk(qnext[..], qprev[..], qkey[..], nproc, q, [])
    }

    /** newqueue has found the two entries of list k free. */
    method NewQueue(k: nat)
      requires qkey != qnext && qkey != qprev && qnext != qprev
      requires nproc + 2 * k + 1 < qkey.Length == qnext.Length == qprev.Length
      modifies qkey, qnext, qprev
      ensures EmptyAt(k) && forall q :: 0 <= q < k && old(EmptyAt(q)) ==> EmptyAt(q)
    {
      hide ListOk;
      qnext[Head(k)], qprev[Head(k)], qkey[Head(k)] := Tail(k), EMPTY, MAXKEY;
      qnext[Tail(k)], qprev[Tail(k)], qkey[Tail(k)] := EMPTY, Head(k), MINKEY;
      EmptyOk(qnext[..], qprev[..], qkey[..], nproc, k);
      forall q | 0 <= q < k && old(EmptyAt(q)) ensures EmptyAt(q) {
        ListFrame(old(qnext[..]), old(qprev[..]), old(qkey[..]), qnext[..], qprev[..], qkey[..], nproc, q, []);
      }
    }

    /** What is stored at the ends of list q. */
    lemma Ends(q: nat)
      requires Valid() && q < |lists|
      ensures Tail(q) < qnext.Length == qprev.Length == qkey.Length && nproc + 2 * |lists| == qnext.Length
      ensures qnext[Head(q)] == Node(nproc, q, lists[q], 0)
        && qprev[Tail(q)] == Node(nproc, q, lists[q], |lists[q]| - 1)
      ensures qkey[Tail(q)] == MINKEY
    {
      hide Apart;
      assert ListOk(qnext[..], qprev[..], qkey[..], nproc, q, lists[q]);
      assert qnext[..][Node(nproc, q, lists[q], -1)] == Next(nproc, q, lists[q], -1);
      assert qprev[..][Node(nproc, q, lists[q], |lists[q]|)] == Prev(nproc, q, lists[q], |lists[q]|);
    }

    /** What is stored at the i-th process of list q. */
    lemma At(q: nat, i: nat)
      requires Valid() && q < |lists| && i < |lists[q]|
      ensures 0 <= lists[q][i].pid < nproc <= qnext.Length == qprev.Length == qkey.Length
      ensures var p := lists[q][i].pid;
        && qnext[p] == Node(nproc, q, lists[q], i + 1) && qprev[p] == Node(nproc, q, lists[q], i - 1)
        && qkey[p] == lists[q][i].key
    {
      assert ListOk(qnext[..], qprev[..], qkey[..], nproc, q, lists[q]);
      assert qnext[..][Node(nproc, q, lists[q], i)] == Next(nproc, q, lists[q], i);
      assert qprev[..][Node(nproc, q, lists[q], i)] == Prev(nproc, q, lists[q], i);
    }

    /** Links pid into list q before its i-th process, between the nodes prev and next. */
    method Link(pid: int, prev: int, next: int, key: int, ghost q: nat, ghost i: nat)
      requires Valid() && q < |lists| && i <= |lists[q]| && 0 <= pid < nproc && Nowhere(lists, pid)
      requires prev == Node(nproc, q, lists[q], i - 1) && next == Node(nproc, q, lists[q], i)
      modifies this`lists, qkey, qnext, qprev
      ensures Valid() && lists == old(lists)[q := Splice(old(lists)[q], i, Ent(pid, key))]
    {
      hide TabOk, ListOk, Nowhere;
      Range(q);
      NewNodes(q, i, pid);
      LinkTab(qnext[..], qprev[..], qkey[..], nproc, lists, q, i, Ent(pid, key),
              qnext[..][pid := next][prev := pid], qprev[..][pid := prev][next := pid], qkey[..][pid := key]);
      qnext[pid] := next;
      qprev[pid] := prev;
      qkey[pid] := key;
      qnext[prev] := pid;
      qprev[next] := pid;
      assert qnext[..] == old(qnext[..])[pid := next][prev := pid];
      assert qprev[..] == old(qprev[..])[pid := prev][next := pid];
      assert qkey[..] == old(qkey[..])[pid := key];
      lists := lists[q := Splice(lists[q], i, Ent(pid, key))];
    }

    lemma Range(q: nat)
      requires Valid() && q < |lists|
      ensures qnext.Length == qprev.Length == qkey.Length == nproc + 2 * |lists|
      ensures forall k :: 0 <= k < |lists[q]| ==> 0 <= lists[q][k].pid < nproc
      ensures forall i :: 0 <= Node(nproc, q, lists[q], i) < qnext.Length
    {
      assert ListOk(qnext[..], qprev[..], qkey[..], nproc, q, lists[q]);
    }

    lemma NewNodes(q: nat, i: nat, pid: int)
      requires Valid() && q < |lists| && 0 <= pid < nproc && Nowhere(lists, pid)
      ensures Node(nproc, q, lists[q], i) != pid && Node(nproc, q, lists[q], i - 1) != pid
    {
      NewNode(nproc, q, lists[q], pid, i);
      NewNode(nproc, q, lists[q], pid, i - 1);
    }

    /** enqueue */
    method Enqueue(pid: int, q: nat)
      requires Valid() && q < |lists| && 0 <= pid < nproc && Nowhere(lists, pid)
      modifies this`lists, qkey, qnext, qprev
      ensures Valid() && lists == old(lists)[q := old(lists)[q] + [Ent(pid, old(qkey[pid]))]]
    {
      hide TabOk, ListOk, Nowhere;
      Ends(q);
      Range(q);
      var tail := Tail(q);
      var prev := qprev[tail];
      SpliceEnd(lists[q], Ent(pid, qkey[pid]));
      Link(pid, prev, tail, qkey[pid], q, |lists[q]|);
    }

    /** getitem: the i-th process of list q. */
    method GetItem(pid: int, ghost q: nat, ghost i: nat)
      requires Valid() && q < |lists| && i < |lists[q]| && pid == lists[q][i].pid
      modifies this`lists, qnext, qprev
      ensures Valid() && lists == old(lists)[q := Cut(old(lists)[q], i)] && Nowhere(lists, pid)
    {
      hide TabOk, ListOk, Nowhere;
      Range(q);
      At(q, i);
      var next, prev := qnext[pid], qprev[pid];
      CutTab(qnext[..], qprev[..], qkey[..], nproc, lists, q, i, qnext[..][prev := next], qprev[..][next := prev]);
      qnext[prev] := next;
      qprev[next] := prev;
      assert qnext[..] == old(qnext[..])[prev := next] && qprev[..] == old(qprev[..])[next := prev];
      lists := lists[q := Cut(lists[q], i)];
    }

    /** isempty */
    method IsEmpty(q: nat) returns (b: bool)
      requires Valid() && q < |lists|
      ensures b <==> lists[q] == []
    {
      hide TabOk, ListOk;
      Ends(q);
      Range(q);
      b := qnext[Head(q)] >= nproc;
    }

    /** getfirst */
    method GetFirst(q: nat) returns (pid: int)
      requires Valid() && q < |lists|
      modifies this`lists, qnext, qprev
      ensures Valid()
      ensures old(lists)[q] == [] ==> pid == EMPTY && lists == old(lists)
      ensures old(lists)[q] != [] ==>
        pid == old(lists)[q][0].pid && 0 <= pid < nproc && lists == old(lists)[q := old(lists)[q][1..]]
          && Nowhere(lists, pid)
    {
      hide TabOk, ListOk, Nowhere;
      Ends(q);
      Range(q);
      if qnext[Head(q)] >= nproc {
        return EMPTY;
      }
      pid := qnext[Head(q)];
      assert Cut(lists[q], 0) == lists[q][1..];
      GetItem(pid, q, 0);
    }

    /** dequeue */
    method Dequeue(q: nat) returns (pid: int)
      requires Valid() && q < |lists|
      modifies this`lists, qkey, qnext, qprev
      ensures Valid()
      ensures old(lists)[q] == [] ==> pid == EMPTY && lists == old(lists)
      ensures old(lists)[q] != [] ==>
        pid == old(lists)[q][0].pid && 0 <= pid < nproc && lists == old(lists)[q := old(lists)[q][1..]]
          && Nowhere(lists, pid)
    {
      hide TabOk, ListOk, Nowhere;
      Ends(q);
      Range(q);
      if qnext[Head(q)] >= nproc {
        return EMPTY;
      }
      pid := GetFirst(q);
      Range(q);
      FreeNode(qnext[..], qprev[..], qkey[..], nproc, lists, pid, EMPTY, EMPTY, qkey[pid]);
      label Before:
      qprev[pid] := EMPTY;
      qnext[pid] := EMPTY;
      assert qnext[..] == old@Before(qnext[..])[pid := EMPTY] && qprev[..] == old@Before(qprev[..])[pid := EMPTY];
      assert qkey[..] == old@Before(qkey[..])[pid := qkey[pid]];
    }

    /** insert: the walk stops at the tail at the latest, whose key is the least. */
    method Insert(pid: int, q: nat, key: int)
      requires Valid() && q < |lists| && 0 <= pid < nproc && Nowhere(lists, pid) && key > MINKEY
      modifies this`lists, qkey, qnext, qprev
      ensures Valid() && lists == old(lists)[q := D.Insert(old(lists)[q], pid, key)]
    {
      hide TabOk, ListOk, Nowhere;
      Ends(q);
      Range(q);
      var curr := qnext[Head(q)];
      ghost var i := 0;
      while qkey[curr] >= key
        invariant Valid() && lists == old(lists)
        invariant 0 <= i <= |lists[q]| && curr == Node(nproc, q, lists[q], i) && 0 <= curr < qkey.Length
        invariant forall j :: 0 <= j < i ==> lists[q][j].key >= key
        decreases |lists[q]| - i
      {
        Ends(q);
        At(q, i);
        curr := qnext[curr];
        i := i + 1;
        Range(q);
      }
      Ends(q);
      if i < |lists[q]| { At(q, i); }
      SlotIs(lists[q], key, i);
      var prev := qprev[curr];
      Link(pid, prev, curr, key, q, i);
    }

    /** insertd */
    method InsertD(pid: int, q: nat, key0: int)
      requires Valid() && q < |lists| && 0 <= pid < nproc && Nowhere(lists, pid)
      modifies this`lists, qkey, qnext, qprev
      ensures Valid() && lists == old(lists)[q := D.InsertD(old(lists)[q], pid, key0)]
    {
      hide TabOk, ListOk, Nowhere, D.InsertD, Splice, Apart;
      Ends(q);
      Range(q);
      var key := key0;
      var prev, next := Head(q), qnext[Head(q)];
      ghost var i := 0;
      ghost var l := lists[q];
      InsertDStart(l, pid, key);
      while next != Tail(q) && qkey[next] <= key
        invariant Valid() && lists == old(lists)
        invariant 0 <= i <= |l| && prev == Node(nproc, q, l, i - 1) && next == Node(nproc, q, l, i)
          && 0 <= next < qkey.Length
        invariant l[..i] + D.InsertD(l[i..], pid, key) == D.InsertD(l, pid, key0)
        decreases |l| - i
      {
        At(q, i);
        InsertDStep(l, i, pid, key);
        key := key - qkey[next];
        prev := next;
        next := qnext[next];
        i := i + 1;
        Range(q);
      }
      if i < |l| { At(q, i); }
      InsertDEnd(l, i, pid, key);
      Range(q);
      Link(pid, prev, next, key, q, i);
      if next != Tail(q) {
        SpliceAt(l, i, Ent(pid, key));
        Lower(next, key, q, i + 1);
      }
    }

    /** Takes d off the key of the i-th process of list q. */
    method Lower(pid: int, d: int, ghost q: nat, ghost i: nat)
      requires Valid() && q < |lists| && i < |lists[q]| && pid == lists[q][i].pid
      modifies this`lists, qkey
      ensures Valid() && lists == old(lists)[q := old(lists)[q][i := Ent(pid, old(lists)[q][i].key - d)]]
    {
      hide TabOk, ListOk;
      At(q, i);
      KeyTab(qnext[..], qprev[..], qkey[..], nproc, lists, q, i, qkey[pid] - d);
      qkey[pid] := qkey[pid] - d;
      assert qkey[..] == old(qkey[..])[pid := old(qkey[pid]) - d];
      lists := lists[q := lists[q][i := Ent(pid, lists[q][i].key - d)]];
    }

    /** unsleep on the table: the delay of the process is added to the next one's. */
    method Undelay(pid: int, ghost q: nat, ghost i: nat)
      requires Valid() && q < |lists| && i < |lists[q]| && pid == lists[q][i].pid && D.Distinct(lists[q])
      modifies this`lists, qkey, qnext, qprev
      ensures Valid() && lists == old(lists)[q := D.RemoveD(old(lists)[q], pid)] && Nowhere(lists, pid)
    {
      hide TabOk, ListOk, Nowhere, D.RemoveD;
      At(q, i);
      ghost var l := lists[q];
      RemoveDAt(l, i);
      Range(q);
      var pidnext := qnext[pid];
      if pidnext < nproc {
        Lower(pidnext, -qkey[pid], q, i + 1);
      }
      assert lists[q] == Passed(l, i);
      GetItem(pid, q, i);
    }
  }

  lemma SpliceEnd(l: seq<Ent>, e: Ent)
    ensures Splice(l, |l|, e) == l + [e]
  {}

  lemma SlotIs(l: seq<Ent>, key: int, i: nat)
    requires i <= |l| && (i < |l| ==> l[i].key < key) && forall j :: 0 <= j < i ==> l[j].key >= key
    ensures D.Slot(l, key) == i
    ensures forall pid :: Splice(l, i, Ent(pid, key)) == D.Insert(l, pid, key)
  {}

  lemma InsertDStart(l: seq<Ent>, pid: int, key: int)
    ensures l[..0] + D.InsertD(l[0..], pid, key) == D.InsertD(l, pid, key)
  {
    assert l[0..] == l;
  }

  lemma SpliceAt(l: seq<Ent>, i: nat, e: Ent)
    requires i < |l|
    ensures i + 1 < |Splice(l, i, e)| && Splice(l, i, e)[i + 1] == l[i]
    ensures forall b :: Splice(l, i, e)[i + 1 := b] == l[..i] + [e, b] + l[i + 1..]
  {}

  lemma InsertDStep(l: seq<Ent>, i: nat, pid: int, key: int)
    requires i < |l| && l[i].key <= key
    ensures l[..i + 1] + D.InsertD(l[i + 1..], pid, key - l[i].key) == l[..i] + D.InsertD(l[i..], pid, key)
  {
    assert l[i..][1..] == l[i + 1..];
  }

  lemma InsertDEnd(l: seq<Ent>, i: nat, pid: int, key: int)
    requires i <= |l| && (i < |l| ==> l[i].key > key)
    ensures i == |l| ==> l[..i] + D.InsertD(l[i..], pid, key) == Splice(l, i, Ent(pid, key))
    ensures i < |l| ==>
      l[..i] + D.InsertD(l[i..], pid, key) == l[..i] + [Ent(pid, key), Ent(l[i].pid, l[i].key - key)] + l[i + 1..]
  {
    if i < |l| { assert l[i..][1..] == l[i + 1..]; }
  }

  lemma NoneApart(lists: seq<seq<Ent>>)
    requires forall q :: 0 <= q < |lists| ==> lists[q] == []
    ensures Apart(lists)
  {}

  /** The time of the process taken out goes to the one behind it. */
  function Passed(l: seq<Ent>, i: nat): seq<Ent>
    requires i < |l|
  {
    if i + 1 == |l| then l else l[i + 1 := Ent(l[i + 1].pid, l[i + 1].key + l[i].key)]
  }

  lemma {:induction false} RemoveDAt(l: seq<Ent>, i: nat)
    requires D.Distinct(l) && i < |l|
    ensures D.RemoveD(l, l[i].pid) == Cut(Passed(l, i), i)
    decreases |l|
  {
    hide D.Distinct, Cut, Passed, D.RemoveD;
    if i == 0 {
      RemoveFirst(l);
    } else {
      DistinctTail(l);
      NotFirst(l, i);
      RemoveDAt(l[1..], i - 1);
      CutPassed(l, i);
      assert l[1..][i - 1] == l[i];
    }
  }

  lemma RemoveFirst(l: seq<Ent>)
    requires l != []
    ensures D.RemoveD(l, l[0].pid) == Cut(Passed(l, 0), 0)
  {}

  lemma NotFirst(l: seq<Ent>, i: nat)
    requires D.Distinct(l) && 0 < i < |l|
    ensures D.RemoveD(l, l[i].pid) == [l[0]] + D.RemoveD(l[1..], l[i].pid)
  {
    assert l[0].pid != l[i].pid;
  }

  lemma CutPassed(l: seq<Ent>, i: nat)
    requires 0 < i < |l|
    ensures Cut(Passed(l, i), i) == [l[0]] + Cut(Passed(l[1..], i - 1), i - 1)
  {
    assert Passed(l[1..], i - 1) == Passed(l, i)[1..];
  }

  lemma EmptyOk(next: seq<int>, prev: seq<int>, key: seq<int>, np: nat, q: nat)
    requires |next| == |prev| == |key| && np + 2 * q + 1 < |next|
    requires next[np + 2 * q] == np + 2 * q + 1 && prev[np + 2 * q] == EMPTY && key[np + 2 * q] == MAXKEY
    requires next[np + 2 * q + 1] == EMPTY && prev[np + 2 * q + 1] == np + 2 * q && key[np + 2 * q + 1] == MINKEY
    ensures ListOk(next, prev, key, np, q, [])
  {}
}
