/** Sequences without duplicates, counting their elements, and taking elements out and putting them in. */
module Sequences {

  ghost predicate NoDup<T(!new)>(s: seq<T>) {
    forall i, j :: 0 <= i < j < |s| ==> s[i] != s[j]
  }

  ghost function Elements(s: seq<int>): set<int> {
    set i | i in s
  }

  lemma {:induction false} DistinctCount(s: seq<int>)
    requires NoDup(s)
    ensures |Elements(s)| == |s|
  {
    if |s| > 0 {
      var n := |s| - 1;
      DistinctCount(s[..n]);
      assert Elements(s) == Elements(s[..n]) + {s[n]};
      assert s[n] !in s[..n];
    }
  }

  ghost function Numbers(n: nat): set<int> {
    if n == 0 then {} else Numbers(n - 1) + {n - 1}
  }

  lemma {:induction false} UpTo(n: nat)
    ensures |Numbers(n)| == n && forall i :: i in Numbers(n) <==> 0 <= i < n
  {
    if n > 0 { UpTo(n - 1); }
  }

  /** n different numbers below n are all of them. */
  lemma Full(u: set<int>, n: nat, i: int)
    requires |u| == n && 0 <= i < n && forall k | k in u :: 0 <= k < n
    ensures i in u
  {
    UpTo(n);
    forall k | k in u
      ensures k in Numbers(n)
    {
    }
    if i !in u {
      Smaller(u, Numbers(n) - {i});
    }
  }

  lemma Smaller(a: set<int>, b: set<int>)
    requires a <= b
    ensures |a| <= |b|
  {
    assert b == a + (b - a);
    assert a * (b - a) == {};
  }

  /** Different numbers below n: there are at most n of them, and n exactly if none is missing. */
  lemma Pigeonhole(s: seq<int>, n: nat)
    requires NoDup(s) && forall i | i in s :: 0 <= i < n
    ensures |s| <= n
    ensures |s| == n <==> forall i :: 0 <= i < n ==> i in s
  {
    DistinctCount(s);
    UpTo(n);
    var u := Elements(s);
    assert forall k | k in u :: k in Numbers(n);
    Smaller(u, Numbers(n));
    if |s| == n {
      forall i | 0 <= i < n
        ensures i in s
      {
        Full(u, n, i);
      }
    }
    if forall i :: 0 <= i < n ==> i in s {
      assert forall k | k in Numbers(n) :: k in u;
      Smaller(Numbers(n), u);
    }
  }

  ghost function Without<T>(s: seq<T>, i: int): seq<T>
    requires 0 <= i < |s|
  {
    s[..i] + s[i + 1..]
  }

  ghost function With<T>(s: seq<T>, i: int, x: T): seq<T>
    requires 0 <= i <= |s|
  {
    s[..i] + [x] + s[i..]
  }
}
