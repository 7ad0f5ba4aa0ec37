/** Counting distinct elements: what the sizes of sets and maps built from a sequence say about it. */
module Finite {

  predicate Distinct<T(==)>(s: seq<T>) {
    forall i, j | 0 <= i < j < |s| :: s[i] != s[j]
  }

  function Range<T(!new)>(s: seq<T>): (r: set<T>)
    ensures forall x :: x in r <==> x in s
  {
    set x | x in s
  }

  /** A sequence has as many different elements as places exactly when none is repeated. */
  lemma {:induction false} DistinctWhenCounted<T(!new)>(s: seq<T>)
    ensures |Range(s)| <= |s|
    ensures Distinct(s) <==> |Range(s)| == |s|
  {
    if s != [] {
      var init, last := s[..|s| - 1], s[|s| - 1];
      DistinctWhenCounted(init);
      assert Range(s) == Range(init) + {last};
      if last in init {
        var i :| 0 <= i < |init| && init[i] == last;
        assert s[i] == s[|s| - 1];
        assert Range(s) == Range(init);
      } else {
        assert |Range(s)| == |Range(init)| + 1;
        assert Distinct(s) <==> Distinct(init);
      }
    }
  }

  lemma SubsetCount<T>(a: set<T>, b: set<T>)
    requires a <= b
    ensures |a| <= |b|
    ensures |a| == |b| ==> a == b
  {
    assert b == a + (b - a);
  }

  /** Reordering keeps the set of elements and whether any is repeated. */
  lemma ReorderingKeepsRange<T(!new)>(s: seq<T>, t: seq<T>)
    requires multiset(s) == multiset(t)
    ensures Range(s) == Range(t) && |s| == |t|
    ensures Distinct(s) <==> Distinct(t)
  {
    assert |s| == |multiset(s)| && |t| == |multiset(t)|;
    forall x ensures x in s <==> x in t {
      assert x in s <==> x in multiset(s);
      assert x in t <==> x in multiset(t);
    }
    DistinctWhenCounted(s);
    DistinctWhenCounted(t);
  }

  lemma DistinctExtends<T>(s: seq<T>, x: T)
    ensures Distinct(s + [x]) <==> Distinct(s) && x !in s
  {
    var t := s + [x];
    if Distinct(t) {
      forall i | 0 <= i < |s| ensures s[i] != x { assert t[i] != t[|s|]; }
      forall i, j | 0 <= i < j < |s| ensures s[i] != s[j] { assert t[i] != t[j]; }
    }
  }

  function Without<T>(s: seq<T>, k: nat): (r: seq<T>)
    requires k < |s|
    ensures |r| == |s| - 1
  {
    s[..k] + s[k + 1..]
  }

  lemma Removing<T>(s: seq<T>, k: nat)
    requires k < |s|
    ensures multiset(Without(s, k)) == multiset(s) - multiset{s[k]}
  {
    assert s == s[..k] + [s[k]] + s[k + 1..];
  }

  /** Two sequences that agree once one common element is taken from each agree. */
  lemma PutBack<T>(s: seq<T>, t: seq<T>, x: T)
    requires x in s && x in t && multiset(s) - multiset{x} == multiset(t) - multiset{x}
    ensures multiset(s) == multiset(t)
  {
    assert x in multiset(s) && x in multiset(t);
    assert multiset(s) == multiset(s) - multiset{x} + multiset{x};
    assert multiset(t) == multiset(t) - multiset{x} + multiset{x};
  }
}
