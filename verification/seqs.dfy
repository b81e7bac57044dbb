/** `Array.prototype.filter`, with the facts the components' derived lists
    rely on: the result is exactly the elements that pass, with their
    multiplicities, in their original order. */
module Seqs {

  /** `a` can be obtained from `b` by deleting elements: `a` keeps `b`'s
      order. Matching greedily from the front decides it. */
  predicate IsSubsequence<T(==,!new)>(a: seq<T>, b: seq<T>)
    decreases |b|
  {
    || |a| == 0
    || (|b| > 0 && (if a[0] == b[0] then IsSubsequence(a[1..], b[1..]) else IsSubsequence(a, b[1..])))
  }

  /** `s.filter(p)`. */
  function Filter<T(==,!new)>(s: seq<T>, p: T -> bool): (r: seq<T>)
    ensures |r| <= |s|
    ensures forall x :: x in r ==> x in s && p(x)
    ensures forall x :: x in s && p(x) ==> x in r
  {
    if |s| == 0 then []
    else
      var rest := Filter(s[1..], p);
      assert s == [s[0]] + s[1..];
      if p(s[0]) then [s[0]] + rest else rest
  }

  /** The filtered list holds each passing element as often as the input
      does, and no other element. */
  lemma {:induction false} FilterCounts<T(!new)>(s: seq<T>, p: T -> bool)
    ensures forall x :: multiset(Filter(s, p))[x] == if p(x) then multiset(s)[x] else 0
  {
    if |s| > 0 {
      FilterCounts(s[1..], p);
      assert s == [s[0]] + s[1..];
    }
  }

  /** The filtered list keeps the input's order. */
  lemma {:induction false} FilterKeepsOrder<T(!new)>(s: seq<T>, p: T -> bool)
    ensures IsSubsequence(Filter(s, p), s)
  {
    if |s| > 0 {
      FilterKeepsOrder(s[1..], p);
      var r := Filter(s, p);
      if p(s[0]) {
        assert r[1..] == Filter(s[1..], p);
      }
    }
  }

  /** Filtering distributes over concatenation. */
  lemma {:induction false} FilterAppend<T(!new)>(a: seq<T>, b: seq<T>, p: T -> bool)
    ensures Filter(a + b, p) == Filter(a, p) + Filter(b, p)
  {
    if |a| > 0 {
      assert (a + b)[1..] == a[1..] + b;
      FilterAppend(a[1..], b, p);
    } else {
      assert a + b == b;
    }
  }

  /** Positions of `s` whose element satisfies `p`. */
  function IndicesWhere<T>(s: seq<T>, p: T -> bool): set<nat> {
    set i: nat | i < |s| && p(s[i])
  }

  /** The length of a filtered list is the number of positions that pass. */
  lemma {:induction false} FilterLength<T(!new)>(s: seq<T>, p: T -> bool)
    ensures |Filter(s, p)| == |IndicesWhere(s, p)|
  {
    if |s| > 0 {
      var init := s[..|s| - 1];
      var last := s[|s| - 1];
      assert s == init + [last];
      FilterLength(init, p);
      FilterAppend(init, [last], p);
      assert [last][1..] == [];
      if p(last) {
        assert IndicesWhere(s, p) == IndicesWhere(init, p) + {|s| - 1};
      } else {
        assert IndicesWhere(s, p) == IndicesWhere(init, p);
      }
    }
  }

  /** Filters by mutually exclusive tests select at most the whole list
      between them. */
  lemma {:induction false} ExclusiveFiltersFit<T(!new)>(s: seq<T>, p: T -> bool, q: T -> bool)
    requires forall x :: !(p(x) && q(x))
    ensures |Filter(s, p)| + |Filter(s, q)| <= |s|
  {
    if |s| > 0 {
      ExclusiveFiltersFit(s[1..], p, q);
    }
  }

  /** Filters by three tests of which every element of the list passes
      exactly one split the list: their lengths add up to its length. */
  lemma {:induction false} PartitionLengths<T(!new)>(s: seq<T>, p: T -> bool, q: T -> bool, o: T -> bool)
    requires forall i :: 0 <= i < |s| ==> (if p(s[i]) then 1 else 0) + (if q(s[i]) then 1 else 0) + (if o(s[i]) then 1 else 0) == 1
    ensures |Filter(s, p)| + |Filter(s, q)| + |Filter(s, o)| == |s|
  {
    if |s| > 0 {
      assert forall i :: 0 <= i < |s| - 1 ==> s[1..][i] == s[i + 1];
      PartitionLengths(s[1..], p, q, o);
    }
  }
}
