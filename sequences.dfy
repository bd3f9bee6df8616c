/** Generic facts about sequences used by the alias and token models. */
module Sequences {

  /** `a` can be obtained from `b` by deleting elements: `a` keeps `b`'s order. */
  predicate IsSubsequence<T(==)>(a: seq<T>, b: seq<T>)
    decreases |b|
  {
    a == [] ||
    (b != [] &&
     ((a[0] == b[0] && IsSubsequence(a[1..], b[1..])) || IsSubsequence(a, b[1..])))
  }

  /** The elements of `s` that satisfy `p`, in the order of `s` (a list built by a filtering loop). */
  function Filter<T(==)>(s: seq<T>, p: T -> bool): (r: seq<T>)
    ensures |r| <= |s|
    ensures forall x :: x in r ==> x in s && p(x)
    ensures forall x :: x in s && p(x) ==> x in r
  {
    if s == [] then []
    else
      assert s == s[..|s| - 1] + [s[|s| - 1]];
      Filter(s[..|s| - 1], p) + (if p(s[|s| - 1]) then [s[|s| - 1]] else [])
  }

  lemma AppendAssoc<T>(a: seq<T>, b: seq<T>, c: seq<T>)
    ensures (a + b) + c == a + (b + c)
  {
  }

  lemma MultisetRegroup<T>(a: multiset<T>, b: multiset<T>, c: multiset<T>, d: multiset<T>)
    ensures (a + b) + (c + d) == (a + c) + (b + d)
  {
  }

  /** Anything is a subsequence of a longer sequence that ends with what it came from. */
  lemma {:induction false} SubsequenceExtendLeft<T>(a: seq<T>, b: seq<T>, c: seq<T>)
    requires IsSubsequence(a, b)
    ensures IsSubsequence(a, c + b)
    decreases |c|
  {
    if c == [] {
      assert c + b == b;
    } else if a != [] {
      SubsequenceExtendLeft(a, b, c[1..]);
      assert (c + b)[1..] == c[1..] + b;
    }
  }

  /** Subsequences of two parts give a subsequence of the two parts joined. */
  lemma {:induction false} SubsequenceConcat<T>(a1: seq<T>, b1: seq<T>, a2: seq<T>, b2: seq<T>)
    requires IsSubsequence(a1, b1) && IsSubsequence(a2, b2)
    ensures IsSubsequence(a1 + a2, b1 + b2)
    decreases |b1|
  {
    if a1 == [] {
      assert a1 + a2 == a2;
      SubsequenceExtendLeft(a2, b2, b1);
    } else {
      assert b1 != [];
      assert (b1 + b2)[1..] == b1[1..] + b2;
      if a1[0] == b1[0] && IsSubsequence(a1[1..], b1[1..]) {
        SubsequenceConcat(a1[1..], b1[1..], a2, b2);
        assert (a1 + a2)[1..] == a1[1..] + a2;
      } else {
        SubsequenceConcat(a1, b1[1..], a2, b2);
      }
    }
  }

  /** A filter keeps the order of its input. */
  lemma {:induction false} FilterIsSubsequence<T>(s: seq<T>, p: T -> bool)
    ensures IsSubsequence(Filter(s, p), s)
  {
    if s != [] {
      var front, last := s[..|s| - 1], s[|s| - 1];
      FilterIsSubsequence(front, p);
      var tail := if p(last) then [last] else [];
      assert IsSubsequence(tail, [last]);
      SubsequenceConcat(Filter(front, p), front, tail, [last]);
      assert front + [last] == s;
    }
  }

  /** Filtering by a test and by its negation splits a sequence: every element lands in exactly one part. */
  lemma {:induction false} FilterPartition<T>(s: seq<T>, p: T -> bool, q: T -> bool)
    requires forall x :: q(x) == !p(x)
    ensures multiset(Filter(s, p)) + multiset(Filter(s, q)) == multiset(s)
  {
    if s != [] {
      var front, last := s[..|s| - 1], s[|s| - 1];
      assert front + [last] == s;
      FilterPartition(front, p, q);
      var inP, inQ := if p(last) then [last] else [], if q(last) then [last] else [];
      assert multiset(inP) + multiset(inQ) == multiset([last]);
      calc {
        multiset(Filter(s, p)) + multiset(Filter(s, q));
        (multiset(Filter(front, p)) + multiset(inP)) + (multiset(Filter(front, q)) + multiset(inQ));
        { MultisetRegroup(multiset(Filter(front, p)), multiset(inP), multiset(Filter(front, q)), multiset(inQ)); }
        (multiset(Filter(front, p)) + multiset(Filter(front, q))) + (multiset(inP) + multiset(inQ));
        multiset(front) + multiset([last]);
        multiset(s);
      }
    }
  }
}
