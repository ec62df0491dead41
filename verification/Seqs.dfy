/** Sequence vocabulary shared by the models: duplicate-free sequences, removal of one
    element, and the counting facts that bound a duplicate-free sequence of numbers. */
module Seqs {

  ghost predicate NoDup<T>(s: seq<T>) {
    forall i, j :: 0 <= i < j < |s| ==> s[i] != s[j]
  }

  /** The first index of x in s, or |s| when x does not occur. */
  function IndexOf<T(==)>(s: seq<T>, x: T): (i: nat)
    ensures i <= |s|
    ensures i < |s| ==> s[i] == x
    ensures i == |s| <==> x !in s
    ensures x !in s[..i]
  {
    if s == [] then 0 else if s[0] == x then 0
    else
      var k := IndexOf(s[1..], x);
      assert s[..k + 1] == [s[0]] + s[1..][..k];
      k + 1
  }

  /** s without the first occurrence of x. */
  function Without<T(==)>(s: seq<T>, x: T): seq<T> {
    var i := IndexOf(s, x);
    if i == |s| then s else s[..i] + s[i + 1..]
  }

  lemma TailMembers<T>(s: seq<T>)
    requires NoDup(s) && s != []
    ensures NoDup(s[1..])
    ensures forall y :: y in s[1..] <==> y in s && y != s[0]
  {
    forall y | y in s && y != s[0] ensures y in s[1..] {
      var k :| 0 <= k < |s| && s[k] == y;
      assert s[1..][k - 1] == y;
    }
  }

  lemma WithoutMembers<T>(s: seq<T>, x: T)
    requires NoDup(s)
    ensures NoDup(Without(s, x))
    ensures forall y :: y in Without(s, x) <==> y in s && y != x
    ensures |Without(s, x)| == if x in s then |s| - 1 else |s|
  {
    var i := IndexOf(s, x);
    if i < |s| {
      var w := s[..i] + s[i + 1..];
      forall y ensures y in w <==> y in s && y != x {
        if y in s && y != x {
          var k :| 0 <= k < |s| && s[k] == y;
          assert w[if k < i then k else k - 1] == y;
        }
        if y in w {
          var k :| 0 <= k < |w| && w[k] == y;
          assert y == s[if k < i then k else k + 1];
        }
      }
    }
  }

  ghost predicate Within(s: seq<int>, lo: int, hi: int) {
    forall i :: 0 <= i < |s| ==> lo <= s[i] < hi
  }

  /** A duplicate-free sequence of numbers from [lo, hi) has at most hi - lo elements. */
  lemma {:induction false} Pigeonhole(s: seq<int>, lo: int, hi: int)
    requires NoDup(s) && lo <= hi && Within(s, lo, hi)
    ensures |s| <= hi - lo
    decreases hi - lo
  {
    if lo < hi {
      WithoutMembers(s, lo);
      var w := Without(s, lo);
      forall i | 0 <= i < |w| ensures lo + 1 <= w[i] < hi { assert w[i] in w; }
      Pigeonhole(w, lo + 1, hi);
    }
  }

  /** ... and strictly fewer when it misses one of them. */
  lemma PigeonholeMissing(s: seq<int>, lo: int, hi: int, x: int)
    requires NoDup(s) && Within(s, lo, hi) && lo <= x < hi && x !in s
    ensures |s| < hi - lo
  {
    var t := s + [x];
    assert NoDup(t);
    Pigeonhole(t, lo, hi);
  }
}
