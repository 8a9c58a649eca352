/** Sequence helpers standing for the Array.prototype methods the engine calls. */
module Seqs {

  /** `r` keeps some of the elements of `s`, in their order in `s`. */
  ghost predicate IsSubsequence<T>(r: seq<T>, s: seq<T>)
    decreases |s|
  {
    if r == [] then true
    else if s == [] then false
    else (r[0] == s[0] && IsSubsequence(r[1..], s[1..])) || IsSubsequence(r, s[1..])
  }

  ghost predicate Distinct<T>(s: seq<T>) {
    forall i, j :: 0 <= i < j < |s| ==> s[i] != s[j]
  }

  /** Array.prototype.filter. */
  function Filter<T(!new)>(s: seq<T>, keep: T -> bool): (r: seq<T>)
    ensures |r| <= |s|
    ensures forall x :: x in r <==> x in s && keep(x)
    ensures IsSubsequence(r, s)
    ensures multiset(r) <= multiset(s)
    ensures forall x :: multiset(r)[x] == if keep(x) then multiset(s)[x] else 0
  {
    if s == [] then []
    else
      var rest := Filter(s[1..], keep);
      var r := if keep(s[0]) then [s[0]] + rest else rest;
      assert keep(s[0]) ==> r[1..] == rest;
      FilterStepCounts(s, keep, rest, r);
      r
  }

  /** One step of Filter keeps the count of every kept element and drops the others. */
  lemma FilterStepCounts<T>(s: seq<T>, keep: T -> bool, rest: seq<T>, r: seq<T>)
    requires s != []
    requires forall x :: multiset(rest)[x] == if keep(x) then multiset(s[1..])[x] else 0
    requires r == if keep(s[0]) then [s[0]] + rest else rest
    ensures forall x :: multiset(r)[x] == if keep(x) then multiset(s)[x] else 0
    ensures multiset(r) <= multiset(s)
  {
    assert multiset(s) == multiset{s[0]} + multiset(s[1..]) by { assert s == [s[0]] + s[1..]; }
    if keep(s[0]) {
      assert multiset(r) == multiset{s[0]} + multiset(rest);
    }
  }

  /** A filter that keeps everything returns its input. */
  lemma {:induction false} FilterKeepsAll<T(!new)>(s: seq<T>, keep: T -> bool)
    requires forall x :: x in s ==> keep(x)
    ensures Filter(s, keep) == s
  {
    if s != [] {
      FilterKeepsAll(s[1..], keep);
    }
  }

  function Min(a: int, b: int): int {
    if a <= b then a else b
  }

  /** Array.prototype.slice(0, n): the first n elements, or all of them when there are fewer. */
  function Take<T>(s: seq<T>, n: nat): (r: seq<T>)
    ensures |r| == Min(n, |s|) && r == s[..|r|]
  {
    if n <= |s| then s[..n] else s
  }

  /** A prefix and the rest of a sequence together hold exactly its elements. */
  lemma SplitMultiset<T>(s: seq<T>, k: nat)
    requires k <= |s|
    ensures multiset(s) == multiset(s[..k]) + multiset(s[k..])
  {
    assert s == s[..k] + s[k..];
  }

  /** In a sequence without repetition every element occurs at most once. */
  lemma {:induction false} DistinctOccursOnce<T>(s: seq<T>, x: T)
    requires Distinct(s)
    ensures multiset(s)[x] <= 1
    decreases |s|
  {
    if s != [] {
      var prefix := s[..|s| - 1];
      assert s == prefix + [s[|s| - 1]];
      DistinctOccursOnce(prefix, x);
      if s[|s| - 1] == x {
        assert x !in prefix;
      }
    }
  }

  /** Taking elements of a sequence without repetition, each at most as often, repeats none. */
  lemma DistinctSubMultiset<T>(r: seq<T>, s: seq<T>)
    requires Distinct(s) && multiset(r) <= multiset(s)
    ensures Distinct(r)
  {
    forall i, j | 0 <= i < j < |r| ensures r[i] != r[j] {
      if r[i] == r[j] {
        SplitMultiset(r, j);
        assert r[i] in r[..j] && r[j] in r[j..];
        DistinctOccursOnce(s, r[i]);
        assert false;
      }
    }
  }
}
