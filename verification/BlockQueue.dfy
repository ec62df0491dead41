/** The circular queue of processes blocked on frames (frameblock.c). */
module BlockQueues {
  import opened Kernel

  lemma Wrap(x: int, n: int)
    requires 0 <= x < n
    ensures (x + 1) % n == if x + 1 == n then 0 else x + 1
  {}

  /** From entry h on to entry t, around the end of the array. */
  function Ring(s: seq<int>, h: int, t: int): (r: seq<int>)
    requires 0 <= h < |s| && 0 <= t < |s|
    ensures r != []
  {
    if h <= t then s[h..t + 1] else s[h..] + s[..t + 1]
  }

  lemma RingPut(s: seq<int>, h: int, t: int, pid: int)
    requires 0 <= h < |s| && 0 <= t < |s| && |Ring(s, h, t)| < |s|
    ensures var t' := if t + 1 == |s| then 0 else t + 1; Ring(s[t' := pid], h, t') == Ring(s, h, t) + [pid]
  {}

  lemma RingOne(s: seq<int>, pid: int)
    requires s != []
    ensures Ring(s[0 := pid], 0, 0) == [pid]
  {}

  lemma RingDrop(s: seq<int>, h: int, t: int)
    requires 0 <= h < |s| && 0 <= t < |s|
    ensures Ring(s, h, t)[0] == s[h]
    ensures if h == t then Ring(s, h, t)[1..] == []
            else Ring(s, if h + 1 == |s| then 0 else h + 1, t) == Ring(s, h, t)[1..]
  {}

  /** The effect of __insert_fbqueue on a ring of n slots: it does not test for a full ring, where the
      tail comes to the head and the ring has but one entry. */
  function Put(q: seq<int>, n: int, pid: int): (r: seq<int>)
    ensures pid in r && (|q| < n ==> |r| == |q| + 1) && forall x :: x in r ==> x in q || x == pid
  {
    if |q| < n then q + [pid] else [pid]
  }

  /** Whoever is in the ring stays in it exactly when there is a slot, or it is the newcomer. */
  lemma PutKeeps(q: seq<int>, n: int, pid: int)
    ensures (forall x :: x in q ==> x in Put(q, n, pid)) <==> |q| < n || forall x :: x in q ==> x == pid
  {}

  lemma RingFull(s: seq<int>, h: int, t: int, pid: int)
    requires 0 <= h < |s| && 0 <= t < |s| && |Ring(s, h, t)| >= |s|
    ensures var t' := if t + 1 == |s| then 0 else t + 1; Ring(s[t' := pid], h, t') == [pid]
  {}

  class BlockQueue {
    const fbqueue: array<int>
    var fbqhead: int
    var fbqtail: int

    ghost predicate Valid()
      reads this
    {
      && fbqueue.Length > 0
      && (fbqhead == SYSERR <==> fbqtail == SYSERR)
      && (fbqhead != SYSERR ==> 0 <= fbqhead < fbqueue.Length && 0 <= fbqtail < fbqueue.Length)
    }

    /** The waiting processes, first to be woken first. */
    ghost function Contents(): seq<int>
      requires Valid()
      reads this, fbqueue
    {
      if fbqhead == SYSERR then [] else Ring(fbqueue[..], fbqhead, fbqtail)
    }

    constructor (nproc: nat)
      requires nproc > 0
      ensures Valid() && Contents() == [] && fbqueue.Length == nproc && fresh(fbqueue)
    {
      fbqueue := new int[nproc];
      fbqhead, fbqtail := SYSERR, SYSERR;
    }

    /** __insert_fbqueue: the process joins at the end as long as a slot is left; otherwise it is alone
        in the ring. */
    method Insert(pid: int)
      requires Valid()
      modifies this, fbqueue
      ensures Valid() && Contents() == Put(old(Contents()), fbqueue.Length, pid)
    {
      hide Ring;
      if fbqhead == SYSERR {
        fbqhead, fbqtail := 0, 0;
        RingOne(fbqueue[..], pid);
        fbqueue[fbqhead] := pid;
      } else {
        Wrap(fbqtail, fbqueue.Length);
        if |Contents()| < fbqueue.Length {
          RingPut(fbqueue[..], fbqhead, fbqtail, pid);
        } else {
          RingFull(fbqueue[..], fbqhead, fbqtail, pid);
        }
        fbqtail := (fbqtail + 1) % fbqueue.Length;
        fbqueue[fbqtail] := pid;
      }
    }

    /** __dequeue_fbqueue */
    method Dequeue() returns (pid: int)
      requires Valid()
      modifies this
      ensures Valid()
      ensures if old(Contents()) == [] then pid == SYSERR && Contents() == []
              else pid == old(Contents())[0] && Contents() == old(Contents())[1..]
    {
      hide Ring;
      pid := SYSERR;
      if fbqhead != SYSERR {
        RingDrop(fbqueue[..], fbqhead, fbqtail);
        pid := fbqueue[fbqhead];
        if fbqhead == fbqtail {
          fbqhead, fbqtail := SYSERR, SYSERR;
        } else {
          Wrap(fbqhead, fbqueue.Length);
          fbqhead := (fbqhead + 1) % fbqueue.Length;
        }
      }
    }
  }
}
