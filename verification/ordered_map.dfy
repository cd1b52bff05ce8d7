/**
 A JavaScript `Map`: key/value entries in insertion order. Setting a key that
 is present replaces its value in place; setting a new key appends it;
 deleting a key drops its entry and keeps the order of the others. Iteration
 over `keys()` and `values()` follows the entry order.
 */
module OrderedMap {
  import opened Effects

  type Map<K, V> = seq<(K, V)>

  function Keys<K, V>(m: Map<K, V>): (ks: seq<K>)
    ensures |ks| == |m|
    ensures forall i :: 0 <= i < |m| ==> ks[i] == m[i].0
  {
    seq(|m|, i requires 0 <= i < |m| => m[i].0)
  }

  function Values<K, V>(m: Map<K, V>): (vs: seq<V>)
    ensures |vs| == |m|
    ensures forall i :: 0 <= i < |m| ==> vs[i] == m[i].1
  {
    seq(|m|, i requires 0 <= i < |m| => m[i].1)
  }

  /** No key occurs twice: the invariant every `Map` keeps. */
  ghost predicate Valid<K, V>(m: Map<K, V>)
  {
    m == [] || (m[0].0 !in Keys(m[1..]) && Valid(m[1..]))
  }

  /** `map.get(k)`. */
  function Get<K(==), V>(m: Map<K, V>, k: K): (r: Option<V>)
    ensures r.None? <==> k !in Keys(m)
    ensures r.Some? ==> (k, r.value) in m
  {
    if m == [] then None
    else if m[0].0 == k then Some(m[0].1)
    else Get(m[1..], k)
  }

  /** `map.set(k, v)`. */
  function Set<K(==,!new), V(!new)>(m: Map<K, V>, k: K, v: V): (r: Map<K, V>)
    ensures Get(r, k) == Some(v)
    ensures forall k' :: k' != k ==> Get(r, k') == Get(m, k')
  {
    if m == [] then [(k, v)]
    else if m[0].0 == k then
      var r := [(k, v)] + m[1..];
      assert r[1..] == m[1..];
      r
    else
      var rest := Set(m[1..], k, v);
      var r := [m[0]] + rest;
      assert r[1..] == rest;
      r
  }

  /** `map.delete(k)`. */
  function Delete<K(==,!new), V(!new)>(m: Map<K, V>, k: K): (r: Map<K, V>)
    ensures Get(r, k) == None
    ensures forall k' :: k' != k ==> Get(r, k') == Get(m, k')
    ensures forall e :: e in r <==> e in m && e.0 != k
  {
    if m == [] then []
    else if m[0].0 == k then Delete(m[1..], k)
    else
      var rest := Delete(m[1..], k);
      var r := [m[0]] + rest;
      assert r[1..] == rest;
      r
  }

  /** `set` keeps the key order: an existing key stays in place, a new one goes last. */
  lemma {:induction false} SetKeys<K(!new), V(!new)>(m: Map<K, V>, k: K, v: V)
    ensures Keys(Set(m, k, v)) == if k in Keys(m) then Keys(m) else Keys(m) + [k]
  {
    if m != [] && m[0].0 != k {
      SetKeys(m[1..], k, v);
      assert Keys(m) == [m[0].0] + Keys(m[1..]);
      assert Keys(Set(m, k, v)) == [m[0].0] + Keys(Set(m[1..], k, v));
    } else if m != [] {
      assert Keys(Set(m, k, v)) == Keys(m);
    }
  }

  /** `set` adds the new entry and otherwise keeps entries of the old map. */
  lemma {:induction false} SetEntries<K(!new), V(!new)>(m: Map<K, V>, k: K, v: V)
    ensures forall e :: e in Set(m, k, v) ==> e == (k, v) || e in m
  {
    if m != [] && m[0].0 != k {
      SetEntries(m[1..], k, v);
      assert Set(m, k, v) == [m[0]] + Set(m[1..], k, v);
    } else if m != [] {
      assert Set(m, k, v) == [(k, v)] + m[1..];
    }
  }

  lemma {:induction false} SetValid<K(!new), V(!new)>(m: Map<K, V>, k: K, v: V)
    requires Valid(m)
    ensures Valid(Set(m, k, v))
  {
    if m != [] {
      var r := Set(m, k, v);
      if m[0].0 == k {
        assert r[1..] == m[1..];
      } else {
        SetValid(m[1..], k, v);
        assert r[1..] == Set(m[1..], k, v);
        assert Get(r[1..], m[0].0) == Get(m[1..], m[0].0);
      }
    }
  }

  lemma {:induction false} DeleteValid<K(!new), V(!new)>(m: Map<K, V>, k: K)
    requires Valid(m)
    ensures Valid(Delete(m, k))
  {
    if m != [] {
      DeleteValid(m[1..], k);
      if m[0].0 != k {
        var rest := Delete(m[1..], k);
        var r := [m[0]] + rest;
        assert r[1..] == rest;
        assert Get(rest, m[0].0) == Get(m[1..], m[0].0);
      }
    }
  }

  /** In a valid map, every entry is what `get` finds for its key. */
  lemma {:induction false} GetOfEntry<K, V>(m: Map<K, V>, k: K, v: V)
    requires Valid(m) && (k, v) in m
    ensures Get(m, k) == Some(v)
  {
    if m[0] != (k, v) {
      assert (k, v) in m[1..];
      GetOfEntry(m[1..], k, v);
    }
  }
}
