/** Row filters over sequences: what a dataframe `filter` keeps, in the
    order the rows come in. */
module Rows {

  /** The elements of `s` that satisfy `p`, in their order in `s`. */
  function Filter<T(!new)>(s: seq<T>, p: T -> bool): (r: seq<T>)
    ensures |r| <= |s|
    ensures forall x :: x in r <==> x in s && p(x)
  {
    if s == [] then []
    else
      var rest := Filter(s[..|s| - 1], p);
      var last := s[|s| - 1];
      assert forall x :: x in s <==> x in s[..|s| - 1] || x == last;
      if p(last) then rest + [last] else rest
  }

  /** `r` is obtained from `s` by deleting elements: a subsequence. */
  predicate Subsequence<T(==)>(r: seq<T>, s: seq<T>)
    decreases |s|
  {
    if r == [] then true
    else if s == [] then false
    else if r[|r| - 1] == s[|s| - 1] then Subsequence(r[..|r| - 1], s[..|s| - 1])
    else Subsequence(r, s[..|s| - 1])
  }

  /** A filter keeps the surviving rows in their original order. */
  lemma {:induction false} FilterIsSubsequence<T(!new)>(s: seq<T>, p: T -> bool)
    ensures Subsequence(Filter(s, p), s)
    decreases |s|
  {
    if s != [] {
      var init := s[..|s| - 1];
      FilterIsSubsequence(init, p);
      var r := Filter(s, p);
      if p(s[|s| - 1]) {
        assert r[..|r| - 1] == Filter(init, p);
      } else {
        if r != [] {
          SubsequenceDropLast(r, init, s);
        }
      }
    }
  }

  /** A subsequence of a prefix is a subsequence of the whole. */
  lemma {:induction false} SubsequenceDropLast<T>(r: seq<T>, init: seq<T>, s: seq<T>)
    requires s != [] && init == s[..|s| - 1]
    requires Subsequence(r, init)
    requires r != [] ==> r[|r| - 1] != s[|s| - 1]
    ensures Subsequence(r, s)
  {
  }

  /** The number of elements of `s` satisfying `p`. */
  function Count<T>(s: seq<T>, p: T -> bool): (n: nat)
    ensures n <= |s|
  {
    if s == [] then 0 else Count(s[..|s| - 1], p) + (if p(s[|s| - 1]) then 1 else 0)
  }

  /** The length of a filter is the number of elements it keeps. */
  lemma {:induction false} FilterCount<T(!new)>(s: seq<T>, p: T -> bool)
    ensures |Filter(s, p)| == Count(s, p)
  {
    if s != [] {
      FilterCount(s[..|s| - 1], p);
    }
  }

  /** A filter whose predicate holds everywhere keeps everything. */
  lemma {:induction false} FilterAll<T(!new)>(s: seq<T>, p: T -> bool)
    requires forall x :: x in s ==> p(x)
    ensures Filter(s, p) == s
  {
    if s != [] {
      var init := s[..|s| - 1];
      assert forall x :: x in init ==> x in s;
      FilterAll(init, p);
      assert s == init + [s[|s| - 1]];
    }
  }
}
