/**
 * Sequence combinators shared by the views: `Array.prototype.filter`,
 * a `reduce` that sums a projection, and `slice(0, n)`, together with the
 * facts the views rely on (order preservation, membership, sums over parts).
 */
module Seqs {

  /** `s.filter(p)`: the elements of `s` satisfying `p`, in their original order. */
  function Filter<T(==)>(s: seq<T>, p: T -> bool): (r: seq<T>)
    ensures |r| <= |s|
    ensures forall i :: 0 <= i < |r| ==> p(r[i])
  {
    if s == [] then [] else (if p(s[0]) then [s[0]] else []) + Filter(s[1..], p)
  }

  /** An element survives the filter exactly when it is in `s` and passes `p`. */
  lemma {:induction false} FilterMembership<T>(s: seq<T>, p: T -> bool, x: T)
    ensures x in Filter(s, p) <==> x in s && p(x)
  {
    if s != [] {
      FilterMembership(s[1..], p, x);
      assert s == [s[0]] + s[1..];
    }
  }

  /** `a` can be obtained from `b` by deleting elements, without reordering the rest. */
  predicate IsSubsequence<T(==)>(a: seq<T>, b: seq<T>)
    decreases |b|
  {
    || a == []
    || (&& b != []
        && ((a[0] == b[0] && IsSubsequence(a[1..], b[1..])) || IsSubsequence(a, b[1..])))
  }

  /** `s.reduce((acc, x) => acc + f(x), 0)`. */
  function SumOf<T>(s: seq<T>, f: T -> int): int
  {
    if s == [] then 0 else f(s[0]) + SumOf(s[1..], f)
  }

  function Min(a: int, b: int): int { if a <= b then a else b }

  /** `s.slice(0, n)` for a non-negative `n`. */
  function Take<T>(s: seq<T>, n: nat): (r: seq<T>)
    ensures |r| == Min(n, |s|)
    ensures r <= s
  {
    s[..Min(n, |s|)]
  }

  lemma {:induction false} FilterIsSubsequence<T>(s: seq<T>, p: T -> bool)
    ensures IsSubsequence(Filter(s, p), s)
  {
    if s != [] {
      FilterIsSubsequence(s[1..], p);
      var rest := Filter(s[1..], p);
      if p(s[0]) {
        assert Filter(s, p) == [s[0]] + rest;
        assert Filter(s, p)[1..] == rest;
      } else {
        assert Filter(s, p) == rest;
      }
    }
  }

  lemma {:induction false} FilterConcat<T>(a: seq<T>, b: seq<T>, p: T -> bool)
    ensures Filter(a + b, p) == Filter(a, p) + Filter(b, p)
  {
    if a == [] {
      assert a + b == b;
    } else {
      assert (a + b)[1..] == a[1..] + b;
      FilterConcat(a[1..], b, p);
    }
  }

  /** Filtering a sequence is filtering its two halves around any cut `k`. */
  lemma FilterSplit<T>(s: seq<T>, k: nat, p: T -> bool)
    requires k <= |s|
    ensures Filter(s, p) == Filter(s[..k], p) + Filter(s[k..], p)
  {
    assert s == s[..k] + s[k..];
    FilterConcat(s[..k], s[k..], p);
  }

  /** Filtering with a predicate every element satisfies changes nothing. */
  lemma {:induction false} FilterKeepsAll<T>(s: seq<T>, p: T -> bool)
    requires forall i :: 0 <= i < |s| ==> p(s[i])
    ensures Filter(s, p) == s
  {
    if s != [] {
      FilterKeepsAll(s[1..], p);
    }
  }

  /** Filtering with a predicate no element satisfies leaves nothing. */
  lemma {:induction false} FilterKeepsNone<T>(s: seq<T>, p: T -> bool)
    requires forall i :: 0 <= i < |s| ==> !p(s[i])
    ensures Filter(s, p) == []
  {
    if s != [] {
      FilterKeepsNone(s[1..], p);
    }
  }

  /** A sum of non-negative terms is non-negative and at least each of its terms. */
  lemma {:induction false} SumOfNonNegative<T>(s: seq<T>, f: T -> int)
    ensures (forall i :: 0 <= i < |s| ==> f(s[i]) >= 0) ==>
      SumOf(s, f) >= 0 && forall i :: 0 <= i < |s| ==> f(s[i]) <= SumOf(s, f)
  {
    if s != [] && forall i :: 0 <= i < |s| ==> f(s[i]) >= 0 {
      assert forall i :: 1 <= i < |s| ==> s[1..][i - 1] == s[i];
      SumOfNonNegative(s[1..], f);
    }
  }

  lemma {:induction false} SumOfConcat<T>(a: seq<T>, b: seq<T>, f: T -> int)
    ensures SumOf(a + b, f) == SumOf(a, f) + SumOf(b, f)
  {
    if a == [] {
      assert a + b == b;
    } else {
      assert (a + b)[1..] == a[1..] + b;
      SumOfConcat(a[1..], b, f);
    }
  }

  /** A sum of terms each bounded by another's is bounded by the other sum. */
  lemma {:induction false} SumOfMonotone<T>(s: seq<T>, f: T -> int, g: T -> int)
    requires forall i :: 0 <= i < |s| ==> f(s[i]) <= g(s[i])
    ensures SumOf(s, f) <= SumOf(s, g)
  {
    if s != [] {
      SumOfMonotone(s[1..], f, g);
    }
  }

  /**
   * With non-negative terms, the sums over two filters that no element
   * passes both of together stay within the sum over everything.
   */
  lemma {:induction false} SumOfDisjointFilters<T>(s: seq<T>, f: T -> int, p: T -> bool, q: T -> bool)
    requires forall i :: 0 <= i < |s| ==> f(s[i]) >= 0
    requires forall i :: 0 <= i < |s| ==> !(p(s[i]) && q(s[i]))
    ensures 0 <= SumOf(Filter(s, p), f) && 0 <= SumOf(Filter(s, q), f)
    ensures SumOf(Filter(s, p), f) + SumOf(Filter(s, q), f) <= SumOf(s, f)
  {
    if s != [] {
      SumOfDisjointFilters(s[1..], f, p, q);
      var head := if p(s[0]) then [s[0]] else [];
      SumOfConcat(head, Filter(s[1..], p), f);
      var head' := if q(s[0]) then [s[0]] else [];
      SumOfConcat(head', Filter(s[1..], q), f);
    }
  }

  /**
   * When every element passes exactly one of three predicates, the three
   * filtered lengths add up to the whole length.
   */
  lemma {:induction false} FilterCountsPartition<T>(s: seq<T>, p: T -> bool, q: T -> bool, r: T -> bool)
    requires forall i :: 0 <= i < |s| ==> p(s[i]) || q(s[i]) || r(s[i])
    requires forall i :: 0 <= i < |s| ==> !(p(s[i]) && q(s[i])) && !(p(s[i]) && r(s[i])) && !(q(s[i]) && r(s[i]))
    ensures |Filter(s, p)| + |Filter(s, q)| + |Filter(s, r)| == |s|
  {
    if s != [] {
      FilterCountsPartition(s[1..], p, q, r);
    }
  }
}
