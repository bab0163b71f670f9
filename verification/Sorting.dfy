/** Sorting by a score, as Go's sort.Slice does it: a permutation, by falling score, with ties in any order. */
module Sorting {

  ghost predicate Descending<T>(score: T -> real, s: seq<T>) {
    forall i, j :: 0 <= i < j < |s| ==> score(s[i]) >= score(s[j])
  }

  ghost predicate Distinct<T>(s: seq<T>) {
    forall i, j :: 0 <= i < j < |s| ==> s[i] != s[j]
  }

  lemma InsertKeepsOrder<T>(score: T -> real, s: seq<T>, j: nat, x: T)
    requires Descending(score, s) && j <= |s|
    requires j > 0 ==> score(s[j-1]) >= score(x)
    requires forall k :: j <= k < |s| ==> score(s[k]) < score(x)
    ensures Descending(score, s[..j] + [x] + s[j..])
  {
    var r := s[..j] + [x] + s[j..];
    assert forall k :: 0 <= k < j ==> r[k] == s[k] && score(s[k]) >= score(x);
    assert r[j] == x;
    assert forall k :: j < k < |r| ==> r[k] == s[k-1];
  }

  method Insert<T>(score: T -> real, s: seq<T>, x: T) returns (r: seq<T>)
    requires Descending(score, s)
    ensures Descending(score, r) && multiset(r) == multiset(s + [x])
  {
    hide Descending;
    var j := |s|;
    while j > 0 && score(s[j-1]) < score(x)
      invariant 0 <= j <= |s|
      invariant forall k :: j <= k < |s| ==> score(s[k]) < score(x)
    {
      j := j - 1;
    }
    InsertKeepsOrder(score, s, j, x);
    assert s == s[..j] + s[j..];
    r := s[..j] + [x] + s[j..];
  }

  /** Ties come out in an order callers must not rely on. */
  method SortDescending<T>(score: T -> real, xs: seq<T>) returns (sorted: seq<T>)
    ensures multiset(sorted) == multiset(xs)
    ensures Descending(score, sorted)
  {
    sorted := [];
    assert Descending(score, sorted);
    hide Descending;
    for i := 0 to |xs|
      invariant multiset(sorted) == multiset(xs[..i])
      invariant Descending(score, sorted)
    {
      assert xs[..i+1] == xs[..i] + [xs[i]];
      sorted := Insert(score, sorted, xs[i]);
    }
    assert xs[..|xs|] == xs;
  }

  lemma {:induction false} DistinctIsMultiset<T>(s: seq<T>)
    requires Distinct(s)
    ensures forall x :: multiset(s)[x] <= 1
  {
    if s != [] {
      DistinctIsMultiset(s[..|s|-1]);
      assert s == s[..|s|-1] + [s[|s|-1]];
      assert s[|s|-1] !in s[..|s|-1];
      assert multiset(s[..|s|-1])[s[|s|-1]] == 0;
    }
  }

  lemma PermutationStaysDistinct<T>(s: seq<T>, t: seq<T>)
    requires Distinct(s) && multiset(t) == multiset(s)
    ensures Distinct(t) && |t| == |s| && forall x :: x in t <==> x in s
  {
    DistinctIsMultiset(s);
    forall i, j | 0 <= i < j < |t| ensures t[i] != t[j] {
      assert t == t[..j] + [t[j]] + t[j+1..];
      assert t[i] in multiset(t[..j]);
      assert multiset(t)[t[j]] == multiset(t[..j])[t[j]] + 1 + multiset(t[j+1..])[t[j]];
    }
    forall x ensures x in t <==> x in s {
      assert x in t <==> x in multiset(t);
      assert x in s <==> x in multiset(s);
    }
    assert |t| == |multiset(t)| == |multiset(s)| == |s|;
  }
}
