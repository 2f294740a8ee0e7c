/** Grouping by identifier through an insertion-ordered `Map` of lists. */
module Grouping {
  import opened Seqs
  import opened InsertionMap

  type Groups<K> = seq<Binding<string, seq<K>>>

  function SameId<K>(idOf: K -> string, id: string): K -> bool { (k: K) => idOf(k) == id }

  function Listed<K>(groups: Groups<K>, id: string): seq<K> {
    if Lookup(groups, id).None? then [] else Lookup(groups, id).value
  }

  function AddTo<K>(groups: Groups<K>, idOf: K -> string, key: K): Groups<K> {
    Put(groups, idOf(key), Listed(groups, idOf(key)) + [key])
  }

  function GroupBy<K>(keys: seq<K>, idOf: K -> string): Groups<K> {
    if keys == [] then [] else AddTo(GroupBy(keys[..|keys| - 1], idOf), idOf, keys[|keys| - 1])
  }

  /** The loop that fills the map, pushing onto a list that is already there. */
  method GroupByLoop<K>(keys: seq<K>, idOf: K -> string) returns (groups: Groups<K>)
    ensures groups == GroupBy(keys, idOf)
  {
    groups := [];
    for i := 0 to |keys|
      invariant groups == GroupBy(keys[..i], idOf)
    {
      assert keys[..i + 1][..i] == keys[..i];
      var id := idOf(keys[i]);
      var existing := Lookup(groups, id);
      if existing.Some? {
        groups := Put(groups, id, existing.value + [keys[i]]);
      } else {
        groups := Put(groups, id, [keys[i]]);
        assert [] + [keys[i]] == [keys[i]];
      }
    }
    assert keys[..|keys|] == keys;
  }

  lemma PutFacts<K>(groups: Groups<K>, id: string, list: seq<K>)
    requires DistinctKeys(groups)
    ensures DistinctKeys(Put(groups, id, list))
    ensures forall other :: Listed(Put(groups, id, list), other) == (if other == id then list else Listed(groups, other))
    ensures forall i :: 0 <= i < |Put(groups, id, list)| ==>
      Put(groups, id, list)[i].value == list || Put(groups, id, list)[i] in groups
  {
    var r := Put(groups, id, list);
    forall other ensures Listed(r, other) == (if other == id then list else Listed(groups, other)) {
      LookupByIndex(groups, other);
      LookupByIndex(r, other);
      var i := IndexOf(groups, other);
      if other == id {
        assert r[i] == Binding(id, list);
      } else if i < |groups| {
        assert r[i] == groups[i];
      } else {
        assert forall j :: 0 <= j < |r| ==> r[j].key != other;
      }
    }
  }

  lemma LookupByIndex<K>(groups: Groups<K>, id: string)
    requires DistinctKeys(groups)
    ensures forall i :: 0 <= i < |groups| && groups[i].key == id ==> Lookup(groups, id) == Some(groups[i].value)
  {
  }

  /** Each identifier's list is exactly the keys with that identifier, in order, and no list is empty:
      this determines the groups up to their order. */
  lemma {:induction false} GroupByFacts<K>(keys: seq<K>, idOf: K -> string, id: string)
    ensures DistinctKeys(GroupBy(keys, idOf))
    ensures Listed(GroupBy(keys, idOf), id) == Filter(keys, SameId(idOf, id))
    ensures forall i :: 0 <= i < |GroupBy(keys, idOf)| ==> GroupBy(keys, idOf)[i].value != []
  {
    if keys != [] {
      var front, key := keys[..|keys| - 1], keys[|keys| - 1];
      var groups := GroupBy(front, idOf);
      GroupByFacts(front, idOf, id);
      PutFacts(groups, idOf(key), Listed(groups, idOf(key)) + [key]);
      FilterAppend(front, [key], SameId(idOf, id));
      assert keys == front + [key];
      assert forall i :: 0 <= i < |groups| ==> groups[i] in groups;
    }
  }

  /** Every key of a group has its identifier. */
  lemma GroupMembers<K(!new)>(keys: seq<K>, idOf: K -> string, i: nat)
    requires i < |GroupBy(keys, idOf)|
    ensures var g := GroupBy(keys, idOf)[i];
      g.value != [] && g.value == Filter(keys, SameId(idOf, g.key)) && forall k :: k in g.value ==> idOf(k) == g.key && k in keys
  {
    var g := GroupBy(keys, idOf)[i];
    GroupByFacts(keys, idOf, g.key);
    LookupByIndex(GroupBy(keys, idOf), g.key);
    FilterMembers(keys, SameId(idOf, g.key));
  }

  /** Grouping sorted keys puts the groups in the order of their first keys' ranks. */
  lemma {:induction false} GroupsInRankOrder<K(!new)>(keys: seq<K>, idOf: K -> string, rank: K -> int, i: nat, j: nat)
    requires SortedBy(keys, rank) && i < j < |GroupBy(keys, idOf)|
    ensures GroupBy(keys, idOf)[i].value != [] && GroupBy(keys, idOf)[j].value != []
    ensures rank(GroupBy(keys, idOf)[i].value[0]) <= rank(GroupBy(keys, idOf)[j].value[0])
  {
    var front, key := keys[..|keys| - 1], keys[|keys| - 1];
    var groups := GroupBy(front, idOf);
    GroupMembers(keys, idOf, i);
    GroupMembers(keys, idOf, j);
    GroupByFacts(front, idOf, idOf(key));
    if j < |groups| {
      GroupsInRankOrder(front, idOf, rank, i, j);
      assert GroupBy(keys, idOf)[i].value[0] == groups[i].value[0];
      assert GroupBy(keys, idOf)[j].value[0] == groups[j].value[0];
    } else {
      var first := GroupBy(keys, idOf)[i].value[0];
      assert first in GroupBy(keys, idOf)[i].value;
      assert GroupBy(keys, idOf)[j].value == [key];
      var n :| 0 <= n < |keys| && keys[n] == first;
      assert rank(keys[n]) <= rank(keys[|keys| - 1]);
    }
  }

  /** The lists, one after the other. */
  function Concatenated<K>(groups: Groups<K>): seq<K> {
    if groups == [] then [] else groups[0].value + Concatenated(groups[1..])
  }

  lemma {:induction false} PushConserves<K>(groups: Groups<K>, i: nat, key: K)
    requires i < |groups|
    ensures multiset(Concatenated(groups[i := Binding(groups[i].key, groups[i].value + [key])])) ==
      multiset(Concatenated(groups)) + multiset{key}
  {
    var r := groups[i := Binding(groups[i].key, groups[i].value + [key])];
    if i == 0 {
      assert r[1..] == groups[1..];
    } else {
      PushConserves(groups[1..], i - 1, key);
      assert r[1..] == groups[1..][i - 1 := Binding(groups[i].key, groups[i].value + [key])];
    }
  }

  lemma {:induction false} ConcatenatedSnoc<K>(groups: Groups<K>, b: Binding<string, seq<K>>)
    ensures Concatenated(groups + [b]) == Concatenated(groups) + b.value
  {
    if groups == [] {
      assert groups + [b] == [b] && Concatenated([b]) == b.value + Concatenated([b][1..]);
    } else {
      ConcatenatedSnoc(groups[1..], b);
      assert (groups + [b])[1..] == groups[1..] + [b];
      assert groups[0].value + (Concatenated(groups[1..]) + b.value) == Concatenated(groups) + b.value;
    }
  }

  /** Grouping neither loses nor repeats a key. */
  lemma {:induction false} GroupByConserves<K>(keys: seq<K>, idOf: K -> string)
    ensures multiset(Concatenated(GroupBy(keys, idOf))) == multiset(keys)
  {
    if keys != [] {
      var front, key := keys[..|keys| - 1], keys[|keys| - 1];
      var groups := GroupBy(front, idOf);
      GroupByConserves(front, idOf);
      var i := IndexOf(groups, idOf(key));
      if i < |groups| {
        PushConserves(groups, i, key);
      } else {
        ConcatenatedSnoc(groups, Binding(idOf(key), [] + [key]));
      }
      assert keys == front + [key];
    }
  }
}
