/** The lists of queuetab as sequences of processes with keys: insertion in descending order, and
    the delta list of the sleepers with what a clock tick does to it. */
module Delta {
  import opened Seqs

  datatype Ent = Ent(pid: int, key: int)

  const MINKEY := -0x8000_0000
  const MAXKEY := 0x7fff_ffff

  /** The place of the first process, or the length. */
  function Place(l: seq<Ent>, pid: int): (i: nat)
    ensures i <= |l| && (i < |l| ==> l[i].pid == pid)
    ensures forall j :: 0 <= j < i ==> l[j].pid != pid
  {
    if l == [] || l[0].pid == pid then 0 else Place(l[1..], pid) + 1
  }

  ghost predicate On(l: seq<Ent>, pid: int) { exists i :: 0 <= i < |l| && l[i].pid == pid }

  ghost predicate Distinct(l: seq<Ent>) { forall i, j :: 0 <= i < j < |l| ==> l[i].pid != l[j].pid }

  // ---- insert: descending keys, equal keys in order of arrival ----

  function Slot(l: seq<Ent>, key: int): (i: nat)
    ensures i <= |l| && (i < |l| ==> l[i].key < key)
    ensures forall j :: 0 <= j < i ==> l[j].key >= key
  {
    if l == [] || l[0].key < key then 0 else Slot(l[1..], key) + 1
  }

  function Insert(l: seq<Ent>, pid: int, key: int): (r: seq<Ent>)
    ensures |r| == |l| + 1
  {
    var i := Slot(l, key);
    l[..i] + [Ent(pid, key)] + l[i..]
  }

  ghost predicate Descending(l: seq<Ent>) { forall i, j :: 0 <= i < j < |l| ==> l[i].key >= l[j].key }

  /** The new process stands behind all with its key or a higher one and before all others, whose
      order does not change. */
  lemma InsertOrder(l: seq<Ent>, pid: int, key: int)
    requires Descending(l)
    ensures Descending(Insert(l, pid, key))
    ensures var r := Insert(l, pid, key);
      exists i :: 0 <= i <= |l| && r == l[..i] + [Ent(pid, key)] + l[i..]
        && (forall j :: 0 <= j < |l| ==> (j < i <==> l[j].key >= key))
  {
    hide Slot;
    var i := Slot(l, key);
    assert forall j :: i <= j < |l| ==> l[j].key <= l[i].key;
  }

  lemma InsertOn(l: seq<Ent>, pid: int, key: int, p: int)
    ensures On(Insert(l, pid, key), p) <==> On(l, p) || p == pid
    ensures Distinct(l) && !On(l, pid) ==> Distinct(Insert(l, pid, key))
  {
    var i := Slot(l, key);
    SpliceOn(l, i, Ent(pid, key), p);
  }

  lemma SpliceOn(l: seq<Ent>, i: nat, e: Ent, p: int)
    requires i <= |l|
    ensures On(l[..i] + [e] + l[i..], p) <==> On(l, p) || p == e.pid
    ensures Distinct(l) && !On(l, e.pid) ==> Distinct(l[..i] + [e] + l[i..])
  {
    var r := l[..i] + [e] + l[i..];
    assert r[i] == e;
    if On(l, p) {
      var j :| 0 <= j < |l| && l[j].pid == p;
      assert r[if j < i then j else j + 1] == l[j];
    }
    if On(r, p) && p != e.pid {
      var j :| 0 <= j < |r| && r[j].pid == p;
      assert l[if j < i then j else j - 1] == r[j];
    }
  }

  // ---- the delta list ----

  /** insertd */
  function InsertD(l: seq<Ent>, pid: int, key: int): (r: seq<Ent>)
    ensures |r| == |l| + 1
  {
    if l == [] then [Ent(pid, key)]
    else if l[0].key <= key then [l[0]] + InsertD(l[1..], pid, key - l[0].key)
    else [Ent(pid, key), Ent(l[0].pid, l[0].key - key)] + l[1..]
  }

  /** unsleep */
  function RemoveD(l: seq<Ent>, pid: int): (r: seq<Ent>) {
    if l == [] then []
    else if l[0].pid != pid then [l[0]] + RemoveD(l[1..], pid)
    else if |l| == 1 then []
    else [Ent(l[1].pid, l[1].key + l[0].key)] + l[2..]
  }

  /** The time left for the process at place i: the keys up to it. */
  function Left(l: seq<Ent>, i: nat): int
    requires i < |l|
  {
    if i == 0 then l[0].key else l[0].key + Left(l[1..], i - 1)
  }

  /** The time left for a process on the list. */
  function Rem(l: seq<Ent>, pid: int): int
    requires On(l, pid)
  {
    PlaceOn(l, pid);
    Left(l, Place(l, pid))
  }

  lemma PlaceOn(l: seq<Ent>, pid: int)
    ensures On(l, pid) <==> Place(l, pid) < |l|
  {}

  lemma OnTail(l: seq<Ent>, p: int)
    requires l != []
    ensures On(l, p) <==> l[0].pid == p || On(l[1..], p)
    ensures On(l, p) ==> Rem(l, p) == l[0].key + if l[0].pid == p then 0 else Rem(l[1..], p)
  {
    PlaceOn(l, p);
    PlaceOn(l[1..], p);
  }

  // ---- insertion and removal leave the time of all others alone ----

  lemma {:induction false} InsertDOn(l: seq<Ent>, pid: int, key: int, p: int)
    ensures On(InsertD(l, pid, key), p) <==> On(l, p) || p == pid
  {
    var r := InsertD(l, pid, key);
    if l == [] {
      assert r[0].pid == pid;
      OnTail(r, p);
    } else {
      OnTail(l, p);
      OnTail(r, p);
      if l[0].key <= key {
        InsertDOn(l[1..], pid, key - l[0].key, p);
        assert r[1..] == InsertD(l[1..], pid, key - l[0].key);
      } else {
        assert r[1..] == [Ent(l[0].pid, l[0].key - key)] + l[1..];
        OnTail(r[1..], p);
        assert r[1..][1..] == l[1..];
      }
    }
  }

  lemma DistinctTail(l: seq<Ent>)
    requires l != []
    ensures Distinct(l) <==> Distinct(l[1..]) && !On(l[1..], l[0].pid)
  {
    if Distinct(l[1..]) && !On(l[1..], l[0].pid) {
      forall i, j | 0 <= i < j < |l| ensures l[i].pid != l[j].pid {
        assert l[j] == l[1..][j - 1];
        if i > 0 { assert l[i] == l[1..][i - 1]; }
      }
    }
  }

  lemma {:induction false} InsertDDistinct(l: seq<Ent>, pid: int, key: int)
    requires Distinct(l) && !On(l, pid)
    ensures Distinct(InsertD(l, pid, key))
  {
    var r := InsertD(l, pid, key);
    if l != [] {
      DistinctTail(l);
      DistinctTail(r);
      OnTail(l, pid);
      if l[0].key <= key {
        InsertDDistinct(l[1..], pid, key - l[0].key);
        InsertDOn(l[1..], pid, key - l[0].key, l[0].pid);
        assert r[1..] == InsertD(l[1..], pid, key - l[0].key);
      } else {
        var t := [Ent(l[0].pid, l[0].key - key)] + l[1..];
        assert r[1..] == t && t[1..] == l[1..];
        DistinctTail(t);
        OnTail(t, pid);
      }
    }
  }

  /** The new sleeper has its delay, and every other sleeper has the time left that it had. */
  lemma {:induction false} InsertDRem(l: seq<Ent>, pid: int, key: int, p: int)
    requires Distinct(l) && !On(l, pid) && (On(l, p) || p == pid)
    ensures On(InsertD(l, pid, key), p)
    ensures Rem(InsertD(l, pid, key), p) == if p == pid then key else Rem(l, p)
  {
    hide Distinct, Rem;
    var r := InsertD(l, pid, key);
    InsertDOn(l, pid, key, p);
    OnTail(r, p);
    if l != [] {
      OnTail(l, p);
      OnTail(l, pid);
      DistinctTail(l);
      if l[0].key <= key {
        assert r[1..] == InsertD(l[1..], pid, key - l[0].key);
        if p != l[0].pid { InsertDRem(l[1..], pid, key - l[0].key, p); }
      } else {
        assert r[1..] == [Ent(l[0].pid, l[0].key - key)] + l[1..];
        OnTail(r[1..], p);
        assert r[1..][1..] == l[1..];
      }
    }
  }

  lemma {:induction false} RemoveDOn(l: seq<Ent>, pid: int, p: int)
    requires Distinct(l)
    ensures On(RemoveD(l, pid), p) <==> On(l, p) && p != pid
  {
    var r := RemoveD(l, pid);
    if l != [] {
      OnTail(l, p);
      DistinctTail(l);
      if l[0].pid != pid {
        RemoveDOn(l[1..], pid, p);
        OnTail(r, p);
        assert r[1..] == RemoveD(l[1..], pid);
      } else if |l| > 1 {
        OnTail(l[1..], p);
        OnTail(r, p);
        assert r[1..] == l[1..][1..];
      }
    }
  }

  lemma {:induction false} RemoveDDistinct(l: seq<Ent>, pid: int)
    requires Distinct(l)
    ensures Distinct(RemoveD(l, pid))
  {
    var r := RemoveD(l, pid);
    if l != [] {
      DistinctTail(l);
      if l[0].pid != pid {
        RemoveDDistinct(l[1..], pid);
        RemoveDOn(l[1..], pid, l[0].pid);
        DistinctTail(r);
        assert r[1..] == RemoveD(l[1..], pid);
      } else if |l| > 1 {
        DistinctTail(l[1..]);
        DistinctTail(r);
        assert r[1..] == l[1..][1..];
      }
    }
  }

  lemma {:induction false} RemoveDRem(l: seq<Ent>, pid: int, p: int)
    requires Distinct(l) && On(l, p) && p != pid
    ensures On(RemoveD(l, pid), p) && Rem(RemoveD(l, pid), p) == Rem(l, p)
  {
    hide Rem, Distinct;
    var r := RemoveD(l, pid);
    RemoveDOn(l, pid, p);
    OnTail(l, p);
    OnTail(r, p);
    DistinctTail(l);
    if l[0].pid != pid {
      assert r[1..] == RemoveD(l[1..], pid);
      if l[0].pid != p { RemoveDRem(l[1..], pid, p); }
    } else {
      OnTail(l[1..], p);
      assert r[1..] == l[1..][1..];
    }
  }

  // ---- the keys ----

  ghost predicate NonNeg(l: seq<Ent>) { forall i :: 0 <= i < |l| ==> l[i].key >= 0 }

  /** What the delta list is between ticks: the first sleeper has at least one tick to go. */
  ghost predicate Good(l: seq<Ent>) { NonNeg(l) && (l != [] ==> l[0].key >= 1) }

  lemma {:induction false} InsertDNonNeg(l: seq<Ent>, pid: int, key: int)
    requires NonNeg(l) && key >= 0
    ensures NonNeg(InsertD(l, pid, key))
  {
    if l != [] && l[0].key <= key { InsertDNonNeg(l[1..], pid, key - l[0].key); }
  }

  /** A delay keeps the list in order exactly when it is at least one tick; a receive with time 0,
      and a sleep of 2^31 ms or more, which counts as negative, do not. */
  lemma InsertDGood(l: seq<Ent>, pid: int, key: int)
    requires Good(l)
    ensures Good(InsertD(l, pid, key)) <==> key >= 1
  {
    if key >= 1 { InsertDNonNeg(l, pid, key); }
  }

  lemma RemoveDGood(l: seq<Ent>, pid: int)
    requires Good(l)
    ensures Good(RemoveD(l, pid))
  {
    RemoveDNonNeg(l, pid);
  }

  lemma {:induction false} RemoveDNonNeg(l: seq<Ent>, pid: int)
    requires NonNeg(l)
    ensures NonNeg(RemoveD(l, pid))
  {
    if l != [] && l[0].pid != pid { RemoveDNonNeg(l[1..], pid); }
  }

  // ---- the clock tick ----

  /** The processes that wakeup releases, and what is left. */
  function Expired(l: seq<Ent>): seq<int> { if l != [] && l[0].key <= 0 then [l[0].pid] + Expired(l[1..]) else [] }

  function Unexpired(l: seq<Ent>): seq<Ent> { if l != [] && l[0].key <= 0 then Unexpired(l[1..]) else l }

  /** The first key counts down. */
  function Down(l: seq<Ent>): seq<Ent> { if l == [] then l else [Ent(l[0].pid, l[0].key - 1)] + l[1..] }

  /** The part of clkhandler that is about sleepers: the processes released, and what is left. */
  function Released(l: seq<Ent>): seq<int> { if Down(l) != [] && Down(l)[0].key <= 0 then Expired(Down(l)) else [] }

  function Ticked(l: seq<Ent>): seq<Ent> {
    if Down(l) != [] && Down(l)[0].key <= 0 then Unexpired(Down(l)) else Down(l)
  }

  lemma {:induction false} ExpiredOn(l: seq<Ent>, p: int)
    requires Distinct(l)
    ensures On(l, p) <==> p in Expired(l) || On(Unexpired(l), p)
    ensures !(p in Expired(l) && On(Unexpired(l), p)) && Distinct(Unexpired(l)) && NoDup(Expired(l))
    decreases |l|
  {
    if l != [] && l[0].key <= 0 {
      OnTail(l, p);
      DistinctTail(l);
      ExpiredOn(l[1..], p);
      ExpiredOn2(l);
    }
  }

  /** The first process is not among those released after it. */
  lemma ExpiredOn2(l: seq<Ent>)
    requires l != [] && Distinct(l) && NoDup(Expired(l[1..])) && l[0].key <= 0
    ensures l[0].pid !in Expired(l[1..]) && !On(Unexpired(l[1..]), l[0].pid) && NoDup(Expired(l))
  {
    ExpiredFrom(l[1..], l[0].pid);
    DistinctTail(l);
  }

  lemma {:induction false} ExpiredFrom(l: seq<Ent>, p: int)
    ensures p in Expired(l) ==> On(l, p)
    ensures On(Unexpired(l), p) ==> On(l, p)
    decreases |l|
  {
    if l != [] && l[0].key <= 0 {
      OnTail(l, p);
      ExpiredFrom(l[1..], p);
    }
  }

  /** With keys that are not negative, wakeup releases exactly those with no time left, and the time
      of the others does not change. */
  lemma {:induction false} ExpiredRem(l: seq<Ent>, p: int)
    requires Distinct(l) && NonNeg(l) && On(l, p)
    ensures p in Expired(l) <==> Rem(l, p) == 0
    ensures p !in Expired(l) ==> On(Unexpired(l), p) && Rem(Unexpired(l), p) == Rem(l, p)
    decreases |l|
  {
    hide Rem;
    OnTail(l, p);
    DistinctTail(l);
    ExpiredFrom(l[1..], l[0].pid);
    if l[0].key <= 0 {
      if l[0].pid != p { ExpiredRem(l[1..], p); }
    } else if l[0].pid != p {
      RemNonNeg(l[1..], p);
    }
  }

  lemma {:induction false} RemNonNeg(l: seq<Ent>, p: int)
    requires NonNeg(l) && On(l, p)
    ensures Rem(l, p) >= 0
    decreases |l|
  {
    hide Rem;
    OnTail(l, p);
    if l[0].pid != p { RemNonNeg(l[1..], p); }
  }

  lemma {:induction false} UnexpiredGood(l: seq<Ent>)
    requires NonNeg(l)
    ensures Good(Unexpired(l))
    decreases |l|
  {
    if l != [] && l[0].key <= 0 { UnexpiredGood(l[1..]); }
  }

  lemma DownRem(l: seq<Ent>, p: int)
    requires l != []
    ensures On(Down(l), p) <==> On(l, p)
    ensures On(l, p) ==> Rem(Down(l), p) == Rem(l, p) - 1
    ensures Distinct(l) ==> Distinct(Down(l))
  {
    OnTail(l, p);
    OnTail(Down(l), p);
    assert Down(l)[1..] == l[1..];
    DistinctTail(l);
    DistinctTail(Down(l));
  }

  /** Everybody has at least one tick to go. */
  lemma AtLeastOne(l: seq<Ent>, p: int)
    requires Good(l) && On(l, p)
    ensures Rem(l, p) >= 1
  {
    OnTail(l, p);
    if l[0].pid != p { RemNonNeg(l[1..], p); }
  }

  /** One tick takes exactly one off everybody's time, and releases exactly those whose time it
      ends. */
  lemma TickExact(l: seq<Ent>, p: int)
    requires Good(l) && Distinct(l) && On(l, p)
    ensures p in Released(l) <==> Rem(l, p) == 1
    ensures p !in Released(l) ==> On(Ticked(l), p) && Rem(Ticked(l), p) == Rem(l, p) - 1
    ensures Good(Ticked(l)) && Distinct(Ticked(l))
  {
    DownRem(l, p);
    var d := Down(l);
    if d[0].key <= 0 {
      ExpiredRem(d, p);
      UnexpiredGood(d);
      ExpiredOn(d, p);
    } else {
      OnTail(d, p);
      if d[0].pid != p { RemNonNeg(d[1..], p); }
    }
  }

  lemma TickOn(l: seq<Ent>, p: int)
    requires Distinct(l)
    ensures On(l, p) <==> p in Released(l) || On(Ticked(l), p)
    ensures !(p in Released(l) && On(Ticked(l), p)) && Distinct(Ticked(l)) && NoDup(Released(l))
  {
    if l != [] {
      DownRem(l, p);
      ExpiredOn(Down(l), p);
    }
  }

  /** When the first key is below one, the tick is lost for everybody who goes on sleeping. */
  lemma TickLost(l: seq<Ent>, p: int)
    requires Distinct(l) && l != [] && NonNeg(l[1..]) && On(Ticked(l), p)
    ensures On(l, p) && (Rem(Ticked(l), p) == Rem(l, p) - 1 <==> l[0].key >= 1)
  {
    DownRem(l, p);
    TickOn(l, p);
    var d := Down(l);
    assert d[1..] == l[1..];
    if l[0].key >= 1 {
      assert Good(l);
      TickExact(l, p);
    } else {
      OnTail(l, p);
      DistinctTail(l);
      ExpiredRem(l[1..], p);
    }
  }
}
