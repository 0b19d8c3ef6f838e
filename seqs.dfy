/** Sequence helpers shared by the filters: Python's `list(filter(keep, s))`. */
module Seqs {

  /** `a` is `b` with some elements deleted and the rest kept in order. */
  predicate IsSubsequence<T(==)>(a: seq<T>, b: seq<T>)
    decreases |b|
  {
    if a == [] then true
    else if b == [] then false
    else (a[|a| - 1] == b[|b| - 1] && IsSubsequence(a[..|a| - 1], b[..|b| - 1]))
         || IsSubsequence(a, b[..|b| - 1])
  }

  /** The elements of `s` that satisfy `keep`, in their original order. */
  function Filter<T(==, !new)>(s: seq<T>, keep: T -> bool): (r: seq<T>)
    ensures |r| <= |s|
    ensures forall x :: x in r <==> x in s && keep(x)
  {
    if s == [] then []
    else
      var init := Filter(s[..|s| - 1], keep);
      var last := s[|s| - 1];
      assert s == s[..|s| - 1] + [last];
      if keep(last) then init + [last] else init
  }

  /** A non-empty sequence has a member, so one with no members is empty. */
  lemma HeadIsMember<T>(s: seq<T>)
    ensures s != [] ==> s[0] in s
  {
  }

  /** `Filter` keeps the surviving elements in their original order. */
  lemma {:induction false} FilterKeepsOrder<T(!new)>(s: seq<T>, keep: T -> bool)
    ensures IsSubsequence(Filter(s, keep), s)
    decreases |s|
  {
    if s != [] {
      var init, last := s[..|s| - 1], s[|s| - 1];
      FilterKeepsOrder(init, keep);
      assert Filter(s, keep) == if keep(last) then Filter(init, keep) + [last] else Filter(init, keep);
      if keep(last) {
        assert (Filter(init, keep) + [last])[..|Filter(init, keep)|] == Filter(init, keep);
      } else if Filter(init, keep) != [] {
        SubsequenceExtend(Filter(init, keep), init, last);
      }
    }
  }

  /**
   * `Filter` keeps every passing element as often as it occurs and drops the
   * rest, so with `FilterKeepsOrder` it is exactly `list(filter(keep, s))`.
   */
  lemma {:induction false} FilterCounts<T(!new)>(s: seq<T>, keep: T -> bool)
    ensures forall x :: multiset(Filter(s, keep))[x] == if keep(x) then multiset(s)[x] else 0
    decreases |s|
  {
    if s != [] {
      var init, last := s[..|s| - 1], s[|s| - 1];
      FilterCounts(init, keep);
      assert s == init + [last];
      assert multiset(s) == multiset(init) + multiset{last};
      if keep(last) {
        assert Filter(s, keep) == Filter(init, keep) + [last];
        assert multiset(Filter(s, keep)) == multiset(Filter(init, keep)) + multiset{last};
      } else {
        assert Filter(s, keep) == Filter(init, keep);
      }
    }
  }

  /** Appending to the longer sequence keeps a subsequence a subsequence. */
  lemma SubsequenceExtend<T>(a: seq<T>, b: seq<T>, x: T)
    requires a != [] && IsSubsequence(a, b)
    ensures IsSubsequence(a, b + [x])
  {
    assert (b + [x])[..|b|] == b;
  }
}
