/**
 * JavaScript's `Map` as the pages use it: `set` on a new key appends the key to the
 * iteration order, `set` on a known key replaces the value and keeps the position, and
 * `Array.from(map.values())` lists the values in key order. The specification of a run of
 * `set` calls over a list of (key, value) pairs is `Order` (first appearances) and `Table`
 * (the last value written for each key).
 */
module InsertionMaps {
  import opened Seqs

  /** The distinct elements of `ks` in order of first appearance. */
  function FirstAppearance<K(==,!new)>(ks: seq<K>): (r: seq<K>)
    ensures Distinct(r)
    ensures forall k :: k in r <==> k in ks
    ensures |r| <= |ks|
  {
    if ks == [] then []
    else
      var p := FirstAppearance(ks[..|ks| - 1]);
      var k := ks[|ks| - 1];
      assert forall x :: x in ks <==> x in ks[..|ks| - 1] || x == k by {
        assert ks == ks[..|ks| - 1] + [k];
      }
      if k in p then p else p + [k]
  }

  /** Position `j` of the first appearances comes from an earlier first occurrence than position `j + 1`. */
  lemma IndexOfPrefix<K(!new)>(ks: seq<K>, n: nat, x: K)
    requires n <= |ks| && x in ks[..n]
    ensures IndexOf(ks, x) == IndexOf(ks[..n], x)
  {
    var i := IndexOf(ks[..n], x);
    assert ks[..n][i] == ks[i];
    forall l | 0 <= l < i ensures ks[l] != x {
      assert ks[..n][l] == ks[l];
    }
  }

  /**
   * The keys keep the order in which they first occur: an earlier key of `FirstAppearance(ks)`
   * first occurs earlier in `ks`.
   */
  lemma {:induction false} FirstAppearanceOrder<K(!new)>(ks: seq<K>)
    ensures forall i, j :: 0 <= i < j < |FirstAppearance(ks)| ==>
              IndexOf(ks, FirstAppearance(ks)[i]) < IndexOf(ks, FirstAppearance(ks)[j])
  {
    if ks != [] {
      var n := |ks| - 1;
      var q := ks[..n];
      var p := FirstAppearance(q);
      var k := ks[n];
      FirstAppearanceOrder(q);
      var r := FirstAppearance(ks);
      assert q == ks[..n];
      forall i, j | 0 <= i < j < |r| ensures IndexOf(ks, r[i]) < IndexOf(ks, r[j]) {
        assert r[i] == p[i] && p[i] in q;
        IndexOfPrefix(ks, n, p[i]);
        if j < |p| {
          assert r[j] == p[j] && p[j] in q;
          IndexOfPrefix(ks, n, p[j]);
          assert IndexOf(q, p[i]) < IndexOf(q, p[j]);
        } else {
          assert IndexOf(q, p[i]) < n;
          assert k !in q && r[j] == k;
          forall l | 0 <= l < n ensures ks[l] != k {
            assert ks[l] == q[l];
          }
          assert IndexOf(ks, k) == n;
        }
      }
    }
  }

  /** The keys of a list of pairs. */
  function Keys<K, V>(pairs: seq<(K, V)>): (ks: seq<K>)
    ensures |ks| == |pairs| && forall i :: 0 <= i < |pairs| ==> ks[i] == pairs[i].0
  {
    seq(|pairs|, i requires 0 <= i < |pairs| => pairs[i].0)
  }

  /** The table after writing every pair in turn: a later pair overwrites an earlier one. */
  function Table<K(==,!new), V>(pairs: seq<(K, V)>): (t: map<K, V>)
    ensures forall k :: k in t <==> k in Keys(pairs)
  {
    if pairs == [] then map[]
    else
      var n := |pairs| - 1;
      assert Keys(pairs) == Keys(pairs[..n]) + [pairs[n].0];
      Table(pairs[..n])[pairs[n].0 := pairs[n].1]
  }

  /** Each key maps to the value of its last pair. */
  lemma {:induction false} TableLastValue<K(!new), V>(pairs: seq<(K, V)>, j: nat)
    requires j < |pairs|
    requires forall l :: j < l < |pairs| ==> pairs[l].0 != pairs[j].0
    ensures pairs[j].0 in Table(pairs) && Table(pairs)[pairs[j].0] == pairs[j].1
  {
    var n := |pairs| - 1;
    var q := pairs[..n];
    assert Table(pairs) == Table(q)[pairs[n].0 := pairs[n].1];
    if j < n {
      assert q[j] == pairs[j];
      forall l | j < l < n ensures q[l].0 != q[j].0 {
        assert q[l] == pairs[l];
      }
      TableLastValue(q, j);
    }
  }

  /** The iteration order after writing every pair in turn. */
  function Order<K(==,!new), V>(pairs: seq<(K, V)>): seq<K> {
    FirstAppearance(Keys(pairs))
  }

  /** `Array.from(map.values())` after writing every pair in turn. */
  function ValuesOf<K(==,!new), V>(pairs: seq<(K, V)>): (vs: seq<V>)
    ensures |vs| == |Order(pairs)|
  {
    var order := Order(pairs);
    var t := Table(pairs);
    seq(|order|, i requires 0 <= i < |order| => assert order[i] in t; t[order[i]])
  }

  /** Writing one more pair: a new key goes to the end of the order, and the key takes the new value. */
  lemma PairsStep<K(!new), V>(pairs: seq<(K, V)>, k: K, v: V)
    ensures Order(pairs + [(k, v)]) == if k in Table(pairs) then Order(pairs) else Order(pairs) + [k]
    ensures Table(pairs + [(k, v)]) == Table(pairs)[k := v]
  {
    var p := pairs + [(k, v)];
    assert p[..|pairs|] == pairs;
    assert Keys(p) == Keys(pairs) + [k];
    assert Keys(p)[..|pairs|] == Keys(pairs);
  }

  /** The position of the last pair with key `k`. */
  lemma LastWrite<K(!new), V>(pairs: seq<(K, V)>, k: K) returns (j: nat)
    requires k in Keys(pairs)
    ensures j < |pairs| && pairs[j].0 == k
    ensures forall l :: j < l < |pairs| ==> pairs[l].0 != k
  {
    j := |pairs| - 1;
    while pairs[j].0 != k
      invariant 0 <= j < |pairs|
      invariant forall l :: j < l < |pairs| ==> pairs[l].0 != k
      decreases j
    {
      j := j - 1;
    }
  }

  /**
   * The values list has one entry per distinct key, in order of first appearance, and the
   * entry of a key is the value of the last pair with that key.
   */
  lemma ValuesOfLastWrite<K(!new), V>(pairs: seq<(K, V)>, i: nat, j: nat)
    requires i < |Order(pairs)| && j < |pairs| && pairs[j].0 == Order(pairs)[i]
    requires forall l :: j < l < |pairs| ==> pairs[l].0 != pairs[j].0
    ensures ValuesOf(pairs)[i] == pairs[j].1
  {
    TableLastValue(pairs, j);
  }

  /**
   * A JavaScript `Map`: `order` is the insertion order of the keys, `entries` the current
   * value of each key.
   */
  class InsertionMap<K(==,!new), V> {
    var order: seq<K>
    var entries: map<K, V>

    ghost predicate Valid()
      reads this
    {
      Distinct(order) && forall k :: k in entries <==> k in order
    }

    /** `new Map()`. */
    constructor()
      ensures Valid() && order == [] && entries == map[]
    {
      order := [];
      entries := map[];
    }

    /** `map.set(k, v)`. */
    method Set(k: K, v: V)
      requires Valid()
      modifies this
      ensures Valid()
      ensures order == if k in old(entries) then old(order) else old(order) + [k]
      ensures entries == old(entries)[k := v]
    {
      if k !in entries {
        order := order + [k];
      }
      entries := entries[k := v];
    }

    /** `Array.from(map.values())`. */
    function Values(): (vs: seq<V>)
      requires Valid()
      reads this
      ensures |vs| == |order| && forall i :: 0 <= i < |order| ==> vs[i] == entries[order[i]]
    {
      var o, e := order, entries;
      seq(|o|, i requires 0 <= i < |o| => e[o[i]])
    }
  }

  /**
   * Writing the pairs one by one into a fresh map: the key order is the order of first
   * appearance and every key holds the value of its last pair.
   */
  method FromPairs<K(==,!new), V>(pairs: seq<(K, V)>) returns (vs: seq<V>)
    ensures vs == ValuesOf(pairs)
  {
    var m := new InsertionMap<K, V>();
    var i := 0;
    while i < |pairs|
      invariant 0 <= i <= |pairs|
      invariant m.Valid()
      invariant m.order == Order(pairs[..i]) && m.entries == Table(pairs[..i])
    {
      assert pairs[..i + 1] == pairs[..i] + [(pairs[i].0, pairs[i].1)];
      PairsStep(pairs[..i], pairs[i].0, pairs[i].1);
      m.Set(pairs[i].0, pairs[i].1);
      i := i + 1;
    }
    assert pairs[..i] == pairs;
    vs := m.Values();
  }
}
