/** Order-preserving selection from a sequence, and the subsequence relation it produces. */
module Seqs {

  /** The elements of `s` that satisfy `p`, in their original order. */
  function Select<T(==)>(p: T -> bool, s: seq<T>): (r: seq<T>)
    ensures |r| <= |s|
    ensures forall x <- r :: x in s && p(x)
  {
    if s == [] then []
    else (if p(s[0]) then [s[0]] else []) + Select(p, s[1..])
  }

  /** `a` can be obtained from `b` by deleting elements. */
  predicate IsSubsequence<T(==)>(a: seq<T>, b: seq<T>)
    decreases |b|
  {
    if a == [] then true
    else if b == [] then false
    else (a[0] == b[0] && IsSubsequence(a[1..], b[1..])) || IsSubsequence(a, b[1..])
  }

  /** Selecting distributes over concatenation. */
  lemma {:induction false} SelectAppend<T>(p: T -> bool, a: seq<T>, b: seq<T>)
    ensures Select(p, a + b) == Select(p, a) + Select(p, b)
  {
    if a == [] {
      assert a + b == b;
    } else {
      assert (a + b)[0] == a[0];
      assert (a + b)[1..] == a[1..] + b;
      SelectAppend(p, a[1..], b);
    }
  }

  /** The selection keeps the original order. */
  lemma {:induction false} SelectIsSubsequence<T>(p: T -> bool, s: seq<T>)
    ensures IsSubsequence(Select(p, s), s)
  {
    if s != [] {
      SelectIsSubsequence(p, s[1..]);
      var r := Select(p, s);
      if p(s[0]) {
        assert r == [s[0]] + Select(p, s[1..]);
        assert r[1..] == Select(p, s[1..]);
      } else {
        assert r == Select(p, s[1..]);
      }
    }
  }

  /** Every element satisfying `p` survives as often as it occurs; no other element survives. */
  lemma {:induction false} SelectMultiplicity<T>(p: T -> bool, s: seq<T>, x: T)
    ensures multiset(Select(p, s))[x] == if p(x) then multiset(s)[x] else 0
  {
    if s != [] {
      SelectMultiplicity(p, s[1..], x);
      assert s == [s[0]] + s[1..];
      assert multiset(s) == multiset{s[0]} + multiset(s[1..]);
    }
  }

  /** When every element passes, selection changes nothing. */
  lemma {:induction false} SelectAll<T>(p: T -> bool, s: seq<T>)
    requires forall x <- s :: p(x)
    ensures Select(p, s) == s
  {
    if s != [] {
      SelectAll(p, s[1..]);
    }
  }

  /** A weaker test selects at least what a stronger one does, in the same order. */
  lemma {:induction false} SelectMonotone<T>(p: T -> bool, q: T -> bool, s: seq<T>)
    requires forall x :: p(x) ==> q(x)
    ensures IsSubsequence(Select(p, s), Select(q, s))
  {
    if s != [] {
      SelectMonotone(p, q, s[1..]);
      var a, b := Select(p, s[1..]), Select(q, s[1..]);
      if p(s[0]) {
        assert q(s[0]);
        assert Select(p, s) == [s[0]] + a;
        assert Select(q, s) == [s[0]] + b;
        assert ([s[0]] + a)[1..] == a;
        assert ([s[0]] + b)[1..] == b;
      } else if q(s[0]) {
        assert Select(p, s) == a;
        assert Select(q, s) == [s[0]] + b;
        assert ([s[0]] + b)[1..] == b;
      } else {
        assert Select(p, s) == a;
        assert Select(q, s) == b;
      }
    }
  }

  /** A subsequence is a sub-multiset, so it is no longer and has no new elements. */
  lemma {:induction false} SubsequenceIsSubMultiset<T>(a: seq<T>, b: seq<T>)
    requires IsSubsequence(a, b)
    ensures multiset(a) <= multiset(b)
    ensures |a| <= |b|
    decreases |b|
  {
    if a != [] {
      assert b == [b[0]] + b[1..];
      if a[0] == b[0] && IsSubsequence(a[1..], b[1..]) {
        SubsequenceIsSubMultiset(a[1..], b[1..]);
        assert a == [a[0]] + a[1..];
      } else {
        SubsequenceIsSubMultiset(a, b[1..]);
      }
    }
  }
}
