/** Array operations of JavaScript (`filter`, `indexOf`) and facts about them. */
module Seqs {

  /** `Array.prototype.filter`: the elements satisfying `p`, in their original order. */
  function Filter<T>(s: seq<T>, p: T -> bool): (r: seq<T>)
    ensures |r| <= |s|
    ensures forall x :: x in r ==> x in s && p(x)
  {
    if s == [] then [] else (if p(s[0]) then [s[0]] else []) + Filter(s[1..], p)
  }

  /** `Array.prototype.indexOf`: the first position of `x`, or -1 when it is absent. */
  function IndexOf<T(==)>(s: seq<T>, x: T): (i: int)
    ensures -1 <= i < |s|
    ensures i == -1 <==> x !in s
    ensures 0 <= i ==> s[i] == x && forall j :: 0 <= j < i ==> s[j] != x
  {
    if s == [] then -1
    else if s[0] == x then 0
    else
      var k := IndexOf(s[1..], x);
      if k == -1 then -1 else k + 1
  }

  /** `a` can be obtained from `b` by deleting elements, without reordering. */
  predicate IsSubseq<T(==)>(a: seq<T>, b: seq<T>) {
    if a == [] then true
    else if b == [] then false
    else if a[0] == b[0] then IsSubseq(a[1..], b[1..])
    else IsSubseq(a, b[1..])
  }

  /** No element occurs twice. */
  predicate Distinct<T(==)>(s: seq<T>) {
    forall i, j :: 0 <= i < j < |s| ==> s[i] != s[j]
  }

  /** Prepending an element to the longer sequence keeps a subsequence a subsequence. */
  lemma {:induction false} SubseqOfTail<T>(a: seq<T>, b: seq<T>, x: T)
    requires IsSubseq(a, b)
    ensures IsSubseq(a, [x] + b)
    decreases |a| + |b|, 1
  {
    assert ([x] + b)[1..] == b;
    if a != [] && a[0] == x {
      SubseqDropHead(a, b);
    }
  }

  /** Dropping the first element of a subsequence keeps it a subsequence. */
  lemma {:induction false} SubseqDropHead<T>(a: seq<T>, b: seq<T>)
    requires a != [] && IsSubseq(a, b)
    ensures IsSubseq(a[1..], b)
    decreases |a| + |b|, 0
  {
    assert b != [];
    assert b == [b[0]] + b[1..];
    if a[0] == b[0] {
      SubseqOfTail(a[1..], b[1..], b[0]);
    } else {
      SubseqDropHead(a, b[1..]);
      SubseqOfTail(a[1..], b[1..], b[0]);
    }
  }

  /** The result of `filter` is an order-preserving subsequence of its input. */
  lemma {:induction false} FilterIsSubseq<T>(s: seq<T>, p: T -> bool)
    ensures IsSubseq(Filter(s, p), s)
  {
    if s != [] {
      FilterIsSubseq(s[1..], p);
      assert s == [s[0]] + s[1..];
      if !p(s[0]) {
        assert Filter(s, p) == Filter(s[1..], p);
        SubseqOfTail(Filter(s[1..], p), s[1..], s[0]);
      } else {
        assert Filter(s, p) == [s[0]] + Filter(s[1..], p);
        assert (Filter(s, p))[1..] == Filter(s[1..], p);
      }
    }
  }

  /** `filter` keeps every occurrence of a satisfying element and no occurrence of any other. */
  lemma {:induction false} FilterCount<T>(s: seq<T>, p: T -> bool, x: T)
    ensures multiset(Filter(s, p))[x] == if p(x) then multiset(s)[x] else 0
  {
    if s != [] {
      FilterCount(s[1..], p, x);
      assert s == [s[0]] + s[1..];
    }
  }

  lemma {:induction false} FilterAppend<T>(a: seq<T>, b: seq<T>, p: T -> bool)
    ensures Filter(a + b, p) == Filter(a, p) + Filter(b, p)
  {
    if a != [] {
      FilterAppend(a[1..], b, p);
      assert (a + b)[1..] == a[1..] + b;
    } else {
      assert a + b == b;
    }
  }

  /** A filter that every element passes changes nothing. */
  lemma {:induction false} FilterAll<T>(s: seq<T>, p: T -> bool)
    requires forall i :: 0 <= i < |s| ==> p(s[i])
    ensures Filter(s, p) == s
  {
    if s != [] {
      FilterAll(s[1..], p);
    }
  }

  /** Two filters in a row are one filter by the conjunction. */
  lemma {:induction false} FilterFilter<T>(s: seq<T>, p: T -> bool, q: T -> bool, r: T -> bool)
    requires forall x :: r(x) == (p(x) && q(x))
    ensures Filter(Filter(s, p), q) == Filter(s, r)
  {
    if s != [] {
      var rest := Filter(s[1..], p);
      FilterFilter(s[1..], p, q, r);
      if p(s[0]) {
        var f := [s[0]] + rest;
        assert Filter(s, p) == f;
        assert f[0] == s[0] && f[1..] == rest;
        assert Filter(f, q) == (if q(s[0]) then [s[0]] else []) + Filter(rest, q);
      } else {
        assert Filter(s, p) == rest;
        assert !r(s[0]);
      }
    }
  }

  /** Filtering twice by the same test is filtering once. */
  lemma FilterIdempotent<T>(s: seq<T>, p: T -> bool)
    ensures Filter(Filter(s, p), p) == Filter(s, p)
  {
    var f := Filter(s, p);
    forall i | 0 <= i < |f| ensures p(f[i]) {
      assert f[i] in f;
    }
    FilterAll(f, p);
  }

  /** Filtering only when `on` holds is filtering by "not `on`, or `p`". */
  lemma {:induction false} FilterWhen<T>(s: seq<T>, on: bool, p: T -> bool, q: T -> bool)
    requires forall x :: q(x) == (!on || p(x))
    ensures (if on then Filter(s, p) else s) == Filter(s, q)
  {
    if s != [] {
      FilterWhen(s[1..], on, p, q);
    }
  }

  /** The filter keeps nothing exactly when no element satisfies the predicate. */
  lemma {:induction false} FilterEmpty<T>(s: seq<T>, p: T -> bool)
    ensures Filter(s, p) == [] <==> forall i :: 0 <= i < |s| ==> !p(s[i])
  {
    if s != [] {
      FilterEmpty(s[1..], p);
      assert forall i :: 1 <= i < |s| ==> s[i] == s[1..][i - 1];
    }
  }

  /** When no two positions both satisfy the predicate, the filter keeps at most one element. */
  lemma {:induction false} FilterAtMostOne<T>(s: seq<T>, p: T -> bool)
    requires forall i, j :: 0 <= i < j < |s| ==> !(p(s[i]) && p(s[j]))
    ensures |Filter(s, p)| <= 1
  {
    if s != [] {
      var t := s[1..];
      forall i, j | 0 <= i < j < |t| ensures !(p(t[i]) && p(t[j])) {
        assert t[i] == s[i + 1] && t[j] == s[j + 1];
      }
      FilterAtMostOne(t, p);
      if p(s[0]) {
        forall i | 0 <= i < |t| ensures !p(t[i]) {
          assert t[i] == s[i + 1];
        }
        FilterEmpty(t, p);
      }
    }
  }

  /** A filter keeping two or more elements has two matching positions. */
  lemma {:induction false} FilterTwoWitness<T>(s: seq<T>, p: T -> bool) returns (i: nat, j: nat)
    requires |Filter(s, p)| >= 2
    ensures i < j < |s| && p(s[i]) && p(s[j])
  {
    var t := s[1..];
    if p(s[0]) {
      assert Filter(t, p) != [];
      FilterEmpty(t, p);
      var k :| 0 <= k < |t| && p(t[k]);
      i, j := 0, k + 1;
    } else {
      var i', j' := FilterTwoWitness(t, p);
      i, j := i' + 1, j' + 1;
    }
  }

  /** Two matching positions make the filter keep at least two elements. */
  lemma FilterTwoOfWitness<T>(s: seq<T>, p: T -> bool, i: nat, j: nat)
    requires i < j < |s| && p(s[i]) && p(s[j])
    ensures |Filter(s, p)| >= 2
  {
    assert s == s[..j] + s[j..];
    FilterAppend(s[..j], s[j..], p);
    assert s[..j][i] == s[i] && s[j..][0] == s[j];
    FilterEmpty(s[..j], p);
    FilterEmpty(s[j..], p);
  }

  /** The filter keeps at least two elements iff two positions match. */
  lemma FilterTwoMatches<T>(s: seq<T>, p: T -> bool)
    ensures |Filter(s, p)| >= 2 <==> exists i, j :: 0 <= i < j < |s| && p(s[i]) && p(s[j])
  {
    if |Filter(s, p)| >= 2 {
      var i, j := FilterTwoWitness(s, p);
    }
    if exists i, j :: 0 <= i < j < |s| && p(s[i]) && p(s[j]) {
      var i, j :| 0 <= i < j < |s| && p(s[i]) && p(s[j]);
      FilterTwoOfWitness(s, p, i, j);
    }
  }

  /** When position `k` is the only one failing the predicate, the filter removes exactly that position. */
  lemma {:induction false} FilterRemoveOne<T>(s: seq<T>, k: nat, p: T -> bool)
    requires k < |s| && !p(s[k])
    requires forall i :: 0 <= i < |s| && i != k ==> p(s[i])
    ensures Filter(s, p) == s[..k] + s[k + 1..]
  {
    var t := s[1..];
    if k == 0 {
      forall i | 0 <= i < |t| ensures p(t[i]) {
        assert t[i] == s[i + 1];
      }
      FilterAll(t, p);
    } else {
      forall i | 0 <= i < |t| && i != k - 1 ensures p(t[i]) {
        assert t[i] == s[i + 1];
      }
      FilterRemoveOne(t, k - 1, p);
      assert s[..k] == [s[0]] + t[..k - 1];
      assert s[k + 1..] == t[k..];
    }
  }
}
