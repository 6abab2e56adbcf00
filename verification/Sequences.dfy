/** Facts about sequences without repetition. */
module Sequences {

  ghost predicate NoDup<T>(s: seq<T>)
  {
    forall i, j :: 0 <= i < j < |s| ==> s[i] != s[j]
  }

  /** No repetition once the first element is set aside: a closed walk that passes each node once. */
  ghost predicate DistinctTail<T>(s: seq<T>)
  {
    forall i, j :: 0 < i < j < |s| ==> s[i] != s[j]
  }

  ghost function Elements<T>(s: seq<T>): (r: set<T>)
  {
    set x | x in s
  }

  lemma {:induction false} NoDupSize<T>(s: seq<T>)
    requires NoDup(s)
    ensures |Elements(s)| == |s|
  {
    if s != [] {
      var front, last := s[..|s| - 1], s[|s| - 1];
      NoDupSize(front);
      assert Elements(s) == Elements(front) + {last};
    }
  }

  ghost function Below(n: nat): (r: set<nat>)
    ensures forall i :: i in r <==> 0 <= i < n
    ensures |r| == n
  {
    if n == 0 then {} else Below(n - 1) + {n - 1}
  }

  /** Distinct indices below n number at most n, and exactly n only when every index occurs. */
  lemma DistinctIndices(s: seq<nat>, n: nat)
    requires NoDup(s)
    requires forall x :: x in s ==> x < n
    ensures |s| <= n
    ensures |s| == n <==> forall i :: 0 <= i < n ==> i in s
  {
    NoDupSize(s);
    SubsetSize(Elements(s), Below(n));
    if |s| == n {
      forall i | 0 <= i < n
        ensures i in s
      {
        assert i in Below(n) && Below(n) == Elements(s);
      }
    }
    if forall i :: 0 <= i < n ==> i in s {
      assert Elements(s) == Below(n);
    }
  }

  /** A subset is no larger, and as large only when it is the whole set. */
  lemma {:induction false} SubsetSize<T>(a: set<T>, b: set<T>)
    requires a <= b
    ensures |a| <= |b|
    ensures |a| == |b| ==> a == b
    decreases |b|
  {
    assert b == a + (b - a);
    assert |b| == |a| + |b - a|;
  }
}
