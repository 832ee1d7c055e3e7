/** Facts about finite sequences that several of the models below share. */
module Sequences {

  ghost predicate Increasing(s: seq<int>) {
    forall i, j :: 0 <= i < j < |s| ==> s[i] < s[j]
  }

  ghost predicate NoDuplicates<T(!new)>(s: seq<T>) {
    forall i, j :: 0 <= i < j < |s| ==> s[i] != s[j]
  }

  /** The elements of `s` that lie in `keep`, in their order of appearance. */
  ghost function Filter<T(!new)>(s: seq<T>, keep: set<T>): (r: seq<T>)
    ensures forall x :: x in r <==> x in s && x in keep
  {
    if s == [] then []
    else
      var last := s[|s| - 1];
      var front := Filter(s[..|s| - 1], keep);
      assert forall x :: x in s <==> x in s[..|s| - 1] || x == last;
      if last in keep then front + [last] else front
  }

  /** The elements of a finite set of integers in increasing order. */
  ghost function Ascending(s: set<int>): (r: seq<int>)
    ensures Increasing(r)
    ensures forall x :: x in r <==> x in s
  {
    if s == {} then []
    else
      var m := Greatest(s);
      assert forall x :: x in s <==> x in s - {m} || x == m;
      Ascending(s - {m}) + [m]
  }

  lemma Inhabited(s: set<int>)
    ensures s != {} ==> exists x :: x in s
  {
    if forall x :: x !in s {
      assert s == {};
    }
  }

  ghost function Greatest(s: set<int>): (m: int)
    requires s != {}
    ensures m in s
    ensures forall x :: x in s ==> x <= m
  {
    Inhabited(s);
    var x :| x in s;
    if s == {x} then x
    else
      var rest := Greatest(s - {x});
      assert forall y :: y in s ==> y == x || y in s - {x};
      if rest < x then x else rest
  }

  lemma SkippedIsOutside(a: seq<int>, b: seq<int>, n: nat)
    requires Increasing(a) && Increasing(b) && n < |a| && n < |b|
    requires forall q :: 0 <= q < n ==> a[q] == b[q]
    ensures b[n] < a[n] ==> b[n] !in a
  {
  }

  /** Where two increasing lists agree up to `n`, the first being a downward-closed part of the second, they
      agree at `n`. */
  lemma PrefixAt(a: seq<int>, b: seq<int>, n: nat)
    requires Increasing(a) && Increasing(b) && n < |a| && n <= |b|
    requires forall q :: 0 <= q < n ==> a[q] == b[q]
    requires forall x :: x in a ==> x in b
    requires forall x, y :: x in a && y in b && y < x ==> y in a
    ensures n < |b| && a[n] == b[n]
  {
    assert a[n] in a;
    var p :| 0 <= p < |b| && b[p] == a[n];
    assert forall q :: 0 <= q < n ==> a[q] < a[n];
    assert n <= p;
    assert b[n] in b && b[n] <= b[p];
    SkippedIsOutside(a, b, n);
  }

  lemma {:induction false} AgreeUpTo(a: seq<int>, b: seq<int>, n: nat)
    requires Increasing(a) && Increasing(b) && n <= |a|
    requires forall x :: x in a ==> x in b
    requires forall x, y :: x in a && y in b && y < x ==> y in a
    ensures n <= |b| && forall q :: 0 <= q < n ==> a[q] == b[q]
  {
    if n > 0 {
      AgreeUpTo(a, b, n - 1);
      PrefixAt(a, b, n - 1);
    }
  }

  /** Two increasing lists, the first a downward-closed part of the second: the first is a prefix. */
  lemma DownwardClosedIsPrefix(a: seq<int>, b: seq<int>)
    requires Increasing(a) && Increasing(b)
    requires forall x :: x in a ==> x in b
    requires forall x, y :: x in a && y in b && y < x ==> y in a
    ensures a <= b
  {
    AgreeUpTo(a, b, |a|);
  }

  lemma LastIsBeyond(a: seq<int>, b: seq<int>)
    requires Increasing(b) && a <= b
    ensures |a| < |b| ==> b[|b| - 1] !in a
  {
    assert forall q :: 0 <= q < |a| ==> a[q] == b[q];
  }

  /** A prefix that has every element is the whole list. */
  lemma FullPrefix(a: seq<int>, b: seq<int>)
    requires Increasing(b) && a <= b
    requires forall y :: y in b ==> y in a
    ensures a == b
  {
    LastIsBeyond(a, b);
    if b != [] {
      assert b[|b| - 1] in b;
    }
  }

  /** Keeping only elements whose kept predecessors always came first gives an increasing list. */
  lemma {:induction false} FilterIncreasing(s: seq<int>, keep: set<int>)
    requires NoDuplicates(s)
    requires forall n, x :: 0 <= n < |s| && s[n] in keep && x in keep && x < s[n] ==> x in s[..n]
    ensures Increasing(Filter(s, keep))
  {
    if s != [] {
      var m := |s| - 1;
      var front := s[..m];
      forall n, x | 0 <= n < |front| && front[n] in keep && x in keep && x < front[n] ensures x in front[..n] {
        assert front[..n] == s[..n];
        assert s[n] == front[n];
      }
      FilterIncreasing(front, keep);
      if s[m] in keep {
        forall y | y in Filter(front, keep) ensures y < s[m] {
          var p :| 0 <= p < |front| && front[p] == y;
          assert s[p] == y && s[m] !in s[..p];
        }
        var kept := Filter(front, keep);
        assert forall i :: 0 <= i < |kept| ==> kept[i] in kept;
        assert Filter(s, keep) == kept + [s[m]];
      }
    }
  }
}
