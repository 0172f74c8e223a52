/**
 * Stable sorting by a comparator of the form "rank first, then start time", as the pages
 * use it: `Array.prototype.sort` with a comparator that subtracts day positions and then
 * compares `time_of_day` strings. The specification is an insertion sort, `SortBy`; the
 * methods sort a sequence and an array and are proved equal to it.
 */
module Sorting {
  import opened Strings

  /** A comparison key: a numeric rank (the day position) and a time string. */
  datatype SortKey = SortKey(rank: int, time: string)

  /** The comparator is negative: the rank is smaller, or equal with an earlier time. */
  predicate KeyLess(a: SortKey, b: SortKey) {
    a.rank < b.rank || (a.rank == b.rank && StrLess(a.time, b.time))
  }

  /** The comparator is not positive. */
  predicate KeyLe(a: SortKey, b: SortKey) {
    !KeyLess(b, a)
  }

  lemma KeyLessIrreflexive(a: SortKey)
    ensures !KeyLess(a, a)
  {
    StrLessIrreflexive(a.time);
  }

  lemma KeyLessTransitive(a: SortKey, b: SortKey, c: SortKey)
    requires KeyLess(a, b) && KeyLess(b, c)
    ensures KeyLess(a, c)
  {
    if a.rank == b.rank == c.rank {
      StrLessTransitive(a.time, b.time, c.time);
    }
  }

  /** Two keys the comparator does not order are equal: the order is total. */
  lemma KeyLessTotal(a: SortKey, b: SortKey)
    requires a != b
    ensures KeyLess(a, b) || KeyLess(b, a)
  {
    if a.rank == b.rank {
      assert a.time != b.time;
      StrLessTotal(a.time, b.time);
    }
  }

  /** `a < b <= c` gives `a < c`. */
  lemma KeyLessLe(a: SortKey, b: SortKey, c: SortKey)
    requires KeyLess(a, b) && KeyLe(b, c)
    ensures KeyLess(a, c)
  {
    if b != c {
      KeyLessTotal(b, c);
      KeyLessTransitive(a, b, c);
    }
  }

  /** `a <= b <= c` gives `a <= c`. */
  lemma KeyLeTransitive(a: SortKey, b: SortKey, c: SortKey)
    requires KeyLe(a, b) && KeyLe(b, c)
    ensures KeyLe(a, c)
  {
    if KeyLess(c, a) {
      if a == b {
        KeyLessIrreflexive(c);
      } else {
        KeyLessTotal(a, b);
        KeyLessTransitive(c, a, b);
      }
    }
  }

  /** Every element's key is at most the key of every later element. */
  predicate SortedBy<T>(s: seq<T>, key: T -> SortKey) {
    forall i, j :: 0 <= i < j < |s| ==> KeyLe(key(s[i]), key(s[j]))
  }

  /**
   * Inserts `x` into `s` before the first element whose key is greater than its own,
   * so that it lands after every element that compares equal to it.
   */
  function Insert<T(==)>(x: T, s: seq<T>, key: T -> SortKey): (r: seq<T>)
    ensures |r| == |s| + 1
    ensures multiset(r) == multiset(s) + multiset{x}
  {
    if s == [] then [x]
    else if KeyLess(key(x), key(s[0])) then [x] + s
    else
      assert s == [s[0]] + s[1..];
      [s[0]] + Insert(x, s[1..], key)
  }

  /** Insertion sort: the elements are inserted one by one, from the first to the last. */
  function SortBy<T(==)>(s: seq<T>, key: T -> SortKey): (r: seq<T>)
    ensures |r| == |s|
    ensures multiset(r) == multiset(s)
  {
    if s == [] then []
    else
      assert s == s[..|s| - 1] + [s[|s| - 1]];
      Insert(s[|s| - 1], SortBy(s[..|s| - 1], key), key)
  }

  lemma {:induction false} InsertSorted<T>(x: T, s: seq<T>, key: T -> SortKey)
    requires SortedBy(s, key)
    ensures SortedBy(Insert(x, s, key), key)
  {
    if s == [] {
    } else if KeyLess(key(x), key(s[0])) {
      var r := [x] + s;
      forall j | 1 <= j < |r| ensures KeyLe(key(x), key(r[j])) {
        assert r[j] == s[j - 1];
        if j > 1 {
          assert KeyLe(key(s[0]), key(s[j - 1]));
        } else {
          KeyLessIrreflexive(key(s[0]));
        }
        KeyLessLe(key(x), key(s[0]), key(s[j - 1]));
        KeyLessIrreflexive(key(x));
        if KeyLess(key(s[j - 1]), key(x)) {
          KeyLessTransitive(key(x), key(s[j - 1]), key(x));
        }
      }
    } else {
      var t := s[1..];
      assert SortedBy(t, key);
      InsertSorted(x, t, key);
      var it := Insert(x, t, key);
      var r := [s[0]] + it;
      forall j | 0 <= j < |it| ensures KeyLe(key(s[0]), key(it[j])) {
        assert it[j] in multiset(it);
        if it[j] != x {
          assert it[j] in multiset(t);
          var k :| 0 <= k < |t| && t[k] == it[j];
          assert t[k] == s[k + 1];
        }
      }
      forall i, j | 0 <= i < j < |r| ensures KeyLe(key(r[i]), key(r[j])) {
        if i > 0 {
          assert r[i] == it[i - 1] && r[j] == it[j - 1];
        } else {
          assert r[j] == it[j - 1];
        }
      }
    }
  }

  /** The result of `SortBy` is ordered by the comparator. */
  lemma {:induction false} SortBySorted<T>(s: seq<T>, key: T -> SortKey)
    ensures SortedBy(SortBy(s, key), key)
  {
    if s != [] {
      SortBySorted(s[..|s| - 1], key);
      InsertSorted(s[|s| - 1], SortBy(s[..|s| - 1], key), key);
    }
  }

  /** Inserting an element whose key is not below any key of `s` appends it. */
  lemma {:induction false} InsertLast<T>(x: T, s: seq<T>, key: T -> SortKey)
    requires forall i :: 0 <= i < |s| ==> KeyLe(key(s[i]), key(x))
    ensures Insert(x, s, key) == s + [x]
  {
    if s != [] {
      assert KeyLe(key(s[0]), key(x));
      InsertLast(x, s[1..], key);
      assert s == [s[0]] + s[1..];
    }
  }

  /** Sorting a list that is already in order leaves it unchanged: ties keep their order. */
  lemma {:induction false} SortBySortedIdentity<T>(s: seq<T>, key: T -> SortKey)
    requires SortedBy(s, key)
    ensures SortBy(s, key) == s
  {
    if s != [] {
      var p := s[..|s| - 1];
      assert SortedBy(p, key);
      SortBySortedIdentity(p, key);
      InsertLast(s[|s| - 1], p, key);
      assert p + [s[|s| - 1]] == s;
    }
  }

  /** Sorting twice gives the same list as sorting once. */
  lemma SortByIdempotent<T>(s: seq<T>, key: T -> SortKey)
    ensures SortBy(SortBy(s, key), key) == SortBy(s, key)
  {
    SortBySorted(s, key);
    SortBySortedIdentity(SortBy(s, key), key);
  }

  /** Sorts a sequence by inserting its elements one at a time. */
  method SortSeq<T(==)>(s: seq<T>, key: T -> SortKey) returns (r: seq<T>)
    ensures r == SortBy(s, key)
    ensures SortedBy(r, key) && multiset(r) == multiset(s)
  {
    r := [];
    var i := 0;
    while i < |s|
      invariant 0 <= i <= |s|
      invariant r == SortBy(s[..i], key)
    {
      assert s[..i + 1][..i] == s[..i];
      r := Insert(s[i], r, key);
      i := i + 1;
    }
    assert s[..i] == s;
    SortBySorted(s, key);
  }

  /** Sorts an array in place: `array.sort(comparator)`. */
  method SortInPlace<T(==)>(a: array<T>, key: T -> SortKey)
    modifies a
    ensures a[..] == SortBy(old(a[..]), key)
    ensures SortedBy(a[..], key)
  {
    var r := SortSeq(a[..], key);
    forall i | 0 <= i < a.Length {
      a[i] := r[i];
    }
    assert a[..] == r;
  }
}
