/**
 * The array combinators the pages and the store use (`map`, `filter`, `find`),
 * stated once over sequences, with the subsequence relation that describes
 * what a filter keeps.
 */
module Seqs {

  /** `r` is obtained from `s` by deleting elements, keeping the order of the rest. */
  ghost predicate IsSubsequence<T>(r: seq<T>, s: seq<T>)
    decreases |s|
  {
    if r == [] then true
    else if s == [] then false
    else (r[0] == s[0] && IsSubsequence(r[1..], s[1..])) || IsSubsequence(r, s[1..])
  }

  /** Every element of a subsequence is an element of the sequence. */
  lemma {:induction false} SubsequenceMembers<T>(r: seq<T>, s: seq<T>, x: T)
    requires IsSubsequence(r, s) && x in r
    ensures x in s
    decreases |s|
  {
    if r[0] == s[0] && IsSubsequence(r[1..], s[1..]) {
      if x != r[0] {
        assert x in r[1..];
        SubsequenceMembers(r[1..], s[1..], x);
      }
    } else {
      SubsequenceMembers(r, s[1..], x);
    }
  }

  /** `Array.prototype.map`. */
  function Map<T, U>(f: T -> U, s: seq<T>): (r: seq<U>)
    ensures |r| == |s|
    ensures forall k :: 0 <= k < |s| ==> r[k] == f(s[k])
  {
    if s == [] then [] else [f(s[0])] + Map(f, s[1..])
  }

  /** `Array.prototype.filter`: the elements satisfying `p`, in their original order. */
  function Filter<T>(p: T -> bool, s: seq<T>): (r: seq<T>)
    ensures |r| <= |s|
    ensures IsSubsequence(r, s)
    ensures forall k :: 0 <= k < |r| ==> p(r[k])
    ensures forall k :: 0 <= k < |s| && p(s[k]) ==> s[k] in r
  {
    if s == [] then []
    else if p(s[0]) then [s[0]] + Filter(p, s[1..])
    else Filter(p, s[1..])
  }

  /** A filter keeps every copy of an element that passes and no copy of one that fails. */
  lemma {:induction false} FilterCounts<T>(p: T -> bool, s: seq<T>)
    ensures forall x :: multiset(Filter(p, s))[x] == if p(x) then multiset(s)[x] else 0
  {
    if s != [] {
      FilterCounts(p, s[1..]);
      assert s == [s[0]] + s[1..];
    }
  }

  /** Filtering with a predicate that every element satisfies changes nothing. */
  lemma {:induction false} FilterAll<T>(p: T -> bool, s: seq<T>)
    requires forall k :: 0 <= k < |s| ==> p(s[k])
    ensures Filter(p, s) == s
  {
    if s != [] {
      FilterAll(p, s[1..]);
    }
  }

  /** Filtering with a predicate that no element satisfies leaves nothing. */
  lemma {:induction false} FilterNone<T>(p: T -> bool, s: seq<T>)
    requires forall k :: 0 <= k < |s| ==> !p(s[k])
    ensures Filter(p, s) == []
  {
    if s != [] {
      FilterNone(p, s[1..]);
    }
  }

  /** Two predicates that agree on the elements of `s` filter it alike. */
  lemma {:induction false} FilterAgree<T>(p: T -> bool, q: T -> bool, s: seq<T>)
    requires forall k :: 0 <= k < |s| ==> (p(s[k]) <==> q(s[k]))
    ensures Filter(p, s) == Filter(q, s)
  {
    if s != [] {
      FilterAgree(p, q, s[1..]);
    }
  }

  /** A stronger filter keeps a subsequence of what a weaker one keeps. */
  lemma {:induction false} FilterMonotone<T>(p: T -> bool, q: T -> bool, s: seq<T>)
    requires forall k :: 0 <= k < |s| && p(s[k]) ==> q(s[k])
    ensures IsSubsequence(Filter(p, s), Filter(q, s))
  {
    if s != [] {
      FilterMonotone(p, q, s[1..]);
      var r, t := Filter(p, s[1..]), Filter(q, s[1..]);
      if p(s[0]) {
        assert Filter(p, s) == [s[0]] + r && Filter(q, s) == [s[0]] + t;
        assert ([s[0]] + r)[1..] == r && ([s[0]] + t)[1..] == t;
      } else if q(s[0]) {
        assert Filter(q, s) == [s[0]] + t;
        assert ([s[0]] + t)[1..] == t;
        SubsequenceOfTail(Filter(p, s), t, s[0]);
      }
    }
  }

  /** Prepending an element to the larger sequence keeps a subsequence one. */
  lemma SubsequenceOfTail<T>(r: seq<T>, s: seq<T>, x: T)
    requires IsSubsequence(r, s)
    ensures IsSubsequence(r, [x] + s)
  {
    assert ([x] + s)[1..] == s;
  }

  /** Filtering a sequence extended by one element. */
  lemma {:induction false} FilterSnoc<T>(p: T -> bool, s: seq<T>, x: T)
    ensures Filter(p, s + [x]) == Filter(p, s) + (if p(x) then [x] else [])
  {
    if s == [] {
      assert [] + [x] == [x];
    } else {
      assert (s + [x])[0] == s[0] && (s + [x])[1..] == s[1..] + [x];
      FilterSnoc(p, s[1..], x);
    }
  }

  /** A filter that rejects some element keeps strictly fewer elements. */
  lemma {:induction false} FilterDrops<T>(p: T -> bool, s: seq<T>, k: int)
    requires 0 <= k < |s| && !p(s[k])
    ensures |Filter(p, s)| < |s|
  {
    if k > 0 {
      FilterDrops(p, s[1..], k - 1);
    }
  }
}
