/** A JavaScript `Map`: key and value pairs with distinct keys, iterated in insertion order. */
module InsertionMap {
  import opened Seqs

  datatype Binding<K, V> = Binding(key: K, value: V)

  ghost predicate DistinctKeys<K, V>(m: seq<Binding<K, V>>) {
    forall i, j :: 0 <= i < j < |m| ==> m[i].key != m[j].key
  }

  /** The position of `key` at or after `from`, or the length when it is absent there. */
  function IndexFrom<K(==), V>(m: seq<Binding<K, V>>, key: K, from: nat): (r: nat)
    requires from <= |m|
    ensures from <= r <= |m|
    ensures r < |m| ==> m[r].key == key
    ensures forall i :: from <= i < r ==> m[i].key != key
    decreases |m| - from
  {
    if from == |m| || m[from].key == key then from else IndexFrom(m, key, from + 1)
  }

  function IndexOf<K(==), V>(m: seq<Binding<K, V>>, key: K): nat { IndexFrom(m, key, 0) }

  function Lookup<K(==), V>(m: seq<Binding<K, V>>, key: K): Option<V> {
    var i := IndexOf(m, key);
    if i < |m| then Some(m[i].value) else None
  }

  /** `map.delete(key)`. */
  function Delete<K(==), V>(m: seq<Binding<K, V>>, key: K): seq<Binding<K, V>> {
    var i := IndexOf(m, key);
    if i < |m| then m[..i] + m[i + 1..] else m
  }

  /** `map.set(key, value)`: a key that is present keeps its place, a new one goes last. */
  function Put<K(==), V>(m: seq<Binding<K, V>>, key: K, value: V): seq<Binding<K, V>> {
    var i := IndexOf(m, key);
    if i < |m| then m[i := Binding(key, value)] else m + [Binding(key, value)]
  }

  /** Deleting then setting a key moves it to the end. */
  lemma Reinserted<K, V>(m: seq<Binding<K, V>>, key: K, value: V)
    requires DistinctKeys(m)
    ensures DistinctKeys(Delete(m, key)) && Lookup(Delete(m, key), key).None?
    ensures Put(Delete(m, key), key, value) == Delete(m, key) + [Binding(key, value)]
    ensures DistinctKeys(Put(Delete(m, key), key, value))
  {
    assert forall i :: 0 <= i < |Delete(m, key)| ==> Delete(m, key)[i].key != key;
  }

  lemma DeleteDistinct<K, V>(m: seq<Binding<K, V>>, key: K)
    requires DistinctKeys(m)
    ensures DistinctKeys(Delete(m, key))
  {
  }

  lemma DeleteMiddle<K, V>(m: seq<Binding<K, V>>, a: seq<Binding<K, V>>, c: seq<Binding<K, V>>)
    requires DistinctKeys(m) && m == a + c && c != []
    ensures Delete(m, c[0].key) == a + c[1..]
  {
    assert m[|a|] == c[0];
    assert IndexOf(m, c[0].key) == |a|;
    assert m[..|a|] == a && m[|a| + 1..] == c[1..];
  }

  lemma LookupIff<K, V>(m: seq<Binding<K, V>>, key: K, value: V)
    requires DistinctKeys(m)
    ensures Lookup(m, key) == Some(value) <==> Binding(key, value) in m
  {
    if Binding(key, value) in m {
      var i :| 0 <= i < |m| && m[i] == Binding(key, value);
      assert IndexOf(m, key) == i;
    }
  }

  lemma PutThenLookup<K, V>(m: seq<Binding<K, V>>, key: K, value: V, other: K)
    requires DistinctKeys(m)
    ensures DistinctKeys(Put(m, key, value))
    ensures Lookup(Put(m, key, value), other) == if other == key then Some(value) else Lookup(m, other)
  {
    var p := Put(m, key, value);
    assert p[IndexOf(m, key)] == Binding(key, value);
    LookupIff(p, key, value);
    if other != key && Lookup(m, other).Some? {
      assert p[IndexOf(m, other)] == m[IndexOf(m, other)];
      LookupIff(p, other, Lookup(m, other).value);
    } else if other != key && Lookup(p, other).Some? {
      LookupIff(p, other, Lookup(p, other).value);
      LookupIff(m, other, Lookup(p, other).value);
    }
  }

  lemma DeleteThenLookup<K, V>(m: seq<Binding<K, V>>, key: K, other: K)
    requires DistinctKeys(m)
    ensures DistinctKeys(Delete(m, key))
    ensures Lookup(Delete(m, key), other) == if other == key then None else Lookup(m, other)
  {
    var d := Delete(m, key);
    assert forall b :: b in d <==> b in m && b.key != key;
    if Lookup(d, other).Some? {
      LookupIff(d, other, Lookup(d, other).value);
      LookupIff(m, other, Lookup(d, other).value);
    }
    if Lookup(m, other).Some? {
      LookupIff(m, other, Lookup(m, other).value);
      LookupIff(d, other, Lookup(m, other).value);
    }
  }
}
