/** In which order `createBatches` takes the contracts. */
module PackingOrder {
  import opened Seqs
  import opened InsertionMap
  import opened Grouping
  import opened ContractPacking

  type Contracts = Key -> string

  /** The contract of each key, as `createBatches` resolves it. */
  function ContractsOf(keys: seq<Key>): Contracts { Resolve(ContractByKeyId(keys)) }

  /** The position of the first key of contract `id`, or the length when there is none. */
  function FirstOf(keys: seq<Key>, idOf: Contracts, id: string): (r: nat)
    ensures r <= |keys|
    ensures r < |keys| ==> idOf(keys[r]) == id
    ensures forall i :: 0 <= i < r ==> idOf(keys[i]) != id
  {
    if keys == [] || idOf(keys[0]) == id then 0 else 1 + FirstOf(keys[1..], idOf, id)
  }

  lemma FirstOfFront(keys: seq<Key>, idOf: Contracts, id: string)
    requires keys != []
    ensures var front := keys[..|keys| - 1];
      FirstOf(keys, idOf, id) == (if FirstOf(front, idOf, id) < |front| || idOf(keys[|keys| - 1]) == id
                                  then FirstOf(front, idOf, id) else |keys|)
  {
  }

  lemma {:induction false} NoneListed(keys: seq<Key>, idOf: Contracts, id: string)
    requires Filter(keys, SameId(idOf, id)) == []
    ensures FirstOf(keys, idOf, id) == |keys|
  {
    if keys != [] {
      NoneListed(keys[1..], idOf, id);
    }
  }

  ghost predicate InFirstOrder(groups: Groups<Key>, keys: seq<Key>, idOf: Contracts) {
    (forall i :: 0 <= i < |groups| ==> FirstOf(keys, idOf, groups[i].key) < |keys|) &&
    forall i, j :: 0 <= i < j < |groups| ==> FirstOf(keys, idOf, groups[i].key) < FirstOf(keys, idOf, groups[j].key)
  }

  lemma InFirstOrderNext(keys: seq<Key>, idOf: Contracts, groups: Groups<Key>)
    requires keys != [] && InFirstOrder(groups, keys[..|keys| - 1], idOf)
    requires Listed(groups, idOf(keys[|keys| - 1])) == Filter(keys[..|keys| - 1], SameId(idOf, idOf(keys[|keys| - 1])))
    ensures InFirstOrder(AddTo(groups, idOf, keys[|keys| - 1]), keys, idOf)
  {
    var front, id := keys[..|keys| - 1], idOf(keys[|keys| - 1]);
    var r := AddTo(groups, idOf, keys[|keys| - 1]);
    var n := IndexOf(groups, id);
    forall i | 0 <= i < |groups| ensures r[i].key == groups[i].key && FirstOf(keys, idOf, groups[i].key) == FirstOf(front, idOf, groups[i].key) {
      FirstOfFront(keys, idOf, groups[i].key);
    }
    if n == |groups| {
      FirstOfFront(keys, idOf, id);
      NoneListed(front, idOf, id);
    }
  }

  /** Groups come in the order in which their contracts first occur. */
  lemma {:induction false} GroupsInFirstOrder(keys: seq<Key>, idOf: Contracts)
    ensures InFirstOrder(GroupBy(keys, idOf), keys, idOf)
  {
    if keys != [] {
      var front := keys[..|keys| - 1];
      GroupsInFirstOrder(front, idOf);
      GroupByFacts(front, idOf, idOf(keys[|keys| - 1]));
      InFirstOrderNext(keys, idOf, GroupBy(front, idOf));
    }
  }

  // ---- A stable sort, element by element ----

  /** Ordered by rank, and by place where the ranks are equal. */
  ghost predicate SortedByBoth<T>(s: seq<T>, rank: T -> int, place: T -> int) {
    forall i, j :: 0 <= i < j < |s| ==> Before(s[i], s[j], rank, place)
  }

  predicate Before<T>(x: T, y: T, rank: T -> int, place: T -> int) {
    rank(x) < rank(y) || (rank(x) == rank(y) && place(x) < place(y))
  }

  lemma SortedCons<T(!new)>(x: T, s: seq<T>, rank: T -> int, place: T -> int)
    requires SortedByBoth(s, rank, place) && forall y :: y in s ==> Before(x, y, rank, place)
    ensures SortedByBoth([x] + s, rank, place)
  {
  }

  lemma InsertMembers<T(!new)>(x: T, s: seq<T>, rank: T -> int)
    ensures forall y :: y in Insert(x, s, rank) ==> y == x || y in s
  {
    InsertPermutes(x, s, rank);
    assert forall y :: y in Insert(x, s, rank) ==> y in multiset(s) + multiset{x};
  }

  lemma {:induction false} InsertSortsBoth<T(!new)>(x: T, s: seq<T>, rank: T -> int, place: T -> int)
    requires SortedByBoth(s, rank, place) && forall y :: y in s ==> place(y) < place(x)
    ensures SortedByBoth(Insert(x, s, rank), rank, place)
  {
    if s != [] && rank(s[0]) <= rank(x) {
      var rest := Insert(x, s[1..], rank);
      assert forall y :: y in s[1..] ==> y in s;
      assert forall i :: 0 <= i < |s[1..]| ==> s[1..][i] == s[i + 1];
      InsertSortsBoth(x, s[1..], rank, place);
      InsertMembers(x, s[1..], rank);
      forall y | y in rest ensures Before(s[0], y, rank, place) {
        if y != x {
          var j :| 0 < j < |s| && s[j] == y;
        }
      }
      SortedCons(s[0], rest, rank, place);
    } else {
      SortedCons(x, s, rank, place);
    }
  }

  lemma {:induction false} StableSortSortsBoth<T(!new)>(s: seq<T>, rank: T -> int, place: T -> int)
    requires StrictlySortedBy(s, place)
    ensures SortedByBoth(StableSort(s, rank), rank, place)
  {
    if s != [] {
      var front, x := s[..|s| - 1], s[|s| - 1];
      StableSortSortsBoth(front, rank, place);
      StableSortSorts(front, rank);
      forall y | y in StableSort(front, rank) ensures place(y) < place(x) {
        assert y in multiset(front);
        var i :| 0 <= i < |front| && front[i] == y;
      }
      InsertSortsBoth(x, StableSort(front, rank), rank, place);
    }
  }

  // ---- Priorities and places of contracts ----

  /** `p` is the smallest priority of the keys of contract `id`. */
  ghost predicate Smallest(keys: seq<Key>, idOf: Contracts, id: string, p: int) {
    (exists i :: 0 <= i < |keys| && idOf(keys[i]) == id && keys[i].restorePriority == p) &&
    forall i :: 0 <= i < |keys| && idOf(keys[i]) == id ==> p <= keys[i].restorePriority
  }

  /** Contract `a` comes before contract `b`: its smallest priority is smaller, or equal and `a` occurs first. */
  ghost predicate Precedes(keys: seq<Key>, idOf: Contracts, a: string, p: int, b: string, q: int) {
    Smallest(keys, idOf, a, p) && Smallest(keys, idOf, b, q) &&
    (p < q || (p == q && FirstOf(keys, idOf, a) < FirstOf(keys, idOf, b)))
  }

  function Place(keys: seq<Key>, idOf: Contracts): seq<Key> -> int {
    (g: seq<Key>) => if g == [] then 0 else FirstOf(keys, idOf, idOf(g[0]))
  }

  lemma {:induction false} SortedListAt(groups: Groups<Key>, i: nat)
    requires i < |groups|
    ensures SortedLists(groups)[i] == StableSort(groups[i].value, Priority())
  {
    if i > 0 {
      SortedListAt(groups[1..], i - 1);
    }
  }

  lemma ListsInFirstOrder(keys: seq<Key>, idOf: Contracts)
    ensures StrictlySortedBy(SortedLists(GroupBy(keys, idOf)), Place(keys, idOf))
  {
    var groups := GroupBy(keys, idOf);
    GroupsInFirstOrder(keys, idOf);
    forall i | 0 <= i < |groups| ensures Place(keys, idOf)(SortedLists(groups)[i]) == FirstOf(keys, idOf, groups[i].key) {
      GroupsNamed(keys, idOf, i);
      SortKeepsContract(groups[i].value, idOf);
      SortedListAt(groups, i);
    }
  }

  /** The groups handed to the packing come in order of their first keys' priorities, and of first occurrence. */
  lemma SortedGroupsOrdered(keys: seq<Key>)
    ensures SortedByBoth(SortedGroups(keys), FirstPriority(), Place(keys, ContractsOf(keys)))
  {
    var idOf := ContractsOf(keys);
    ListsInFirstOrder(keys, idOf);
    StableSortSortsBoth(SortedLists(GroupBy(keys, idOf)), FirstPriority(), Place(keys, idOf));
  }

  /** The first key of a contract's list has the contract's smallest priority. */
  lemma HeadIsSmallest(keys: seq<Key>, idOf: Contracts, id: string)
    requires FirstOf(keys, idOf, id) < |keys|
    ensures var sorted := StableSort(Filter(keys, SameId(idOf, id)), Priority());
      sorted != [] && Smallest(keys, idOf, id, sorted[0].restorePriority)
  {
    var own := Filter(keys, SameId(idOf, id));
    var sorted := StableSort(own, Priority());
    FilterMembers(keys, SameId(idOf, id));
    StableSortSorts(own, Priority());
    var first := keys[FirstOf(keys, idOf, id)];
    assert first in keys && first in own && first in multiset(sorted);
    assert sorted[0] in multiset(own);
    assert sorted[0] in keys;
    forall i | 0 <= i < |keys| && idOf(keys[i]) == id ensures sorted[0].restorePriority <= keys[i].restorePriority {
      assert keys[i] in keys && keys[i] in own && keys[i] in multiset(sorted);
      var n :| 0 <= n < |sorted| && sorted[n] == keys[i];
      assert Priority()(sorted[0]) <= Priority()(sorted[n]);
    }
  }

  lemma FirstIsSmallest(keys: seq<Key>, k: nat, id: string, p: int)
    requires k < |SortedGroups(keys)| && Smallest(keys, ContractsOf(keys), id, p)
    requires SortedGroups(keys)[k] != [] && ContractsOf(keys)(SortedGroups(keys)[k][0]) == id
    ensures SortedGroups(keys)[k][0].restorePriority == p
  {
    var g := SortedGroups(keys)[k];
    assert g[0] in g;
    ListOfContract(keys, k, id);
    HeadIsSmallest(keys, ContractsOf(keys), id);
  }

  // ---- Places in the batches ----

  /** Two places in the flattened lists, and the lists they are in. */
  lemma {:induction false} FlattenPlaces(lists: seq<seq<Key>>, i: nat, j: nat) returns (x: nat, y: nat)
    requires i < j < |Flatten(lists)|
    ensures x <= y < |lists| && Flatten(lists)[i] in lists[x] && Flatten(lists)[j] in lists[y]
    decreases |lists|
  {
    var n := |lists[0]|;
    if i >= n {
      x, y := FlattenPlaces(lists[1..], i - n, j - n);
      x, y := x + 1, y + 1;
    } else if j < n {
      x, y := 0, 0;
    } else {
      y := FlattenPlace(lists[1..], j - n);
      x, y := 0, y + 1;
    }
  }

  lemma {:induction false} FlattenPlace(lists: seq<seq<Key>>, j: nat) returns (y: nat)
    requires j < |Flatten(lists)|
    ensures y < |lists| && Flatten(lists)[j] in lists[y]
    decreases |lists|
  {
    var n := |lists[0]|;
    if j < n {
      y := 0;
    } else {
      y := FlattenPlace(lists[1..], j - n);
      y := y + 1;
    }
  }

  lemma ContractOf(keys: seq<Key>, k: nat, key: Key)
    requires k < |SortedGroups(keys)| && key in SortedGroups(keys)[k]
    ensures SortedGroups(keys)[k] != [] && ContractsOf(keys)(SortedGroups(keys)[k][0]) == ContractsOf(keys)(key)
  {
    ListOfContract(keys, k, ContractsOf(keys)(key));
  }

  lemma NeverBehind(keys: seq<Key>, x: nat, y: nat, key: Key, other: Key, p: int, q: int)
    requires x <= y < |SortedGroups(keys)| && key in SortedGroups(keys)[x] && other in SortedGroups(keys)[y]
    ensures var idOf := ContractsOf(keys); idOf(key) == idOf(other) || !Precedes(keys, idOf, idOf(other), p, idOf(key), q)
  {
    var idOf := ContractsOf(keys);
    ContractOf(keys, x, key);
    ContractOf(keys, y, other);
    SortedGroupsOrdered(keys);
    if Precedes(keys, idOf, idOf(other), p, idOf(key), q) {
      FirstIsSmallest(keys, x, idOf(key), q);
      FirstIsSmallest(keys, y, idOf(other), p);
    }
  }

  lemma PlacesOrdered(keys: seq<Key>, all: seq<Key>, p: int, q: int, i: nat, j: nat)
    requires all == Flatten(SortedGroups(keys)) && i < |all| && j < |all|
    ensures j <= i ==> !Precedes(keys, ContractsOf(keys), ContractsOf(keys)(all[i]), p, ContractsOf(keys)(all[j]), q)
  {
    if j < i {
      var x, y := FlattenPlaces(SortedGroups(keys), j, i);
      NeverBehind(keys, x, y, all[j], all[i], p, q);
    }
  }

  /** In the batches taken one after the other, every key of a contract with a smaller smallest priority comes before
      every key of one with a larger; of two with the same, the one that first occurs in the input comes first. */
  lemma ContractsInOrder(keys: seq<Key>, maxBatchSize: Option<nat>, a: string, p: int, b: string, q: int, i: nat, j: nat)
    requires Precedes(keys, ContractsOf(keys), a, p, b, q)
    requires i < |Flatten(CreateBatches(keys, maxBatchSize))| && j < |Flatten(CreateBatches(keys, maxBatchSize))|
    requires ContractsOf(keys)(Flatten(CreateBatches(keys, maxBatchSize))[i]) == a
    requires ContractsOf(keys)(Flatten(CreateBatches(keys, maxBatchSize))[j]) == b
    ensures i < j
  {
    var all := Flatten(CreateBatches(keys, maxBatchSize));
    PackFlattens([], SortedGroups(keys), EffectiveMax(maxBatchSize));
    assert [] + Flatten(SortedGroups(keys)) == Flatten(SortedGroups(keys));
    PlacesOrdered(keys, all, p, q, i, j);
  }

  /** Of two contracts that occur, one comes before the other. */
  lemma OneComesFirst(keys: seq<Key>, a: string, b: string) returns (p: int, q: int)
    requires a != b && FirstOf(keys, ContractsOf(keys), a) < |keys| && FirstOf(keys, ContractsOf(keys), b) < |keys|
    ensures Precedes(keys, ContractsOf(keys), a, p, b, q) || Precedes(keys, ContractsOf(keys), b, q, a, p)
  {
    HeadIsSmallest(keys, ContractsOf(keys), a);
    HeadIsSmallest(keys, ContractsOf(keys), b);
    p := StableSort(Filter(keys, SameId(ContractsOf(keys), a)), Priority())[0].restorePriority;
    q := StableSort(Filter(keys, SameId(ContractsOf(keys), b)), Priority())[0].restorePriority;
  }

  // ---- Which contract a key belongs to ----

  ghost predicate NamesContract(key: Key, id: Option<string>) {
    key.id == id && key.contractId.Some? && key.contractId.value != ""
  }

  /** Key `i` is the last with this identifier that names a contract. */
  ghost predicate LastNaming(keys: seq<Key>, id: Option<string>, i: int) {
    0 <= i < |keys| && NamesContract(keys[i], id) && forall j :: i < j < |keys| ==> !NamesContract(keys[j], id)
  }

  lemma {:induction false} RecordedContract(keys: seq<Key>, id: Option<string>)
    ensures if id in ContractByKeyId(keys)
            then exists i :: LastNaming(keys, id, i) && keys[i].contractId == Some(ContractByKeyId(keys)[id])
            else forall i :: 0 <= i < |keys| ==> !NamesContract(keys[i], id)
  {
    if keys != [] {
      var front, n := keys[..|keys| - 1], |keys| - 1;
      RecordedContract(front, id);
      if NamesContract(keys[n], id) {
        assert LastNaming(keys, id, n);
      } else if id in ContractByKeyId(front) {
        var i :| LastNaming(front, id, i) && front[i].contractId == Some(ContractByKeyId(front)[id]);
        assert LastNaming(keys, id, i);
      }
    }
  }

  /** A key belongs to the contract it names; else to that of the last key with the identifier it extends, if one names a
      contract; else to the group of the unknown. */
  lemma ContractIs(keys: seq<Key>, key: Key)
    ensures var id := ContractsOf(keys)(key);
      if NamesContract(key, key.id) then id == key.contractId.value
      else if key.extendsKeyId.Some? && key.extendsKeyId.value != "" &&
              exists i :: 0 <= i < |keys| && NamesContract(keys[i], key.extendsKeyId)
      then exists i :: LastNaming(keys, key.extendsKeyId, i) && keys[i].contractId == Some(id)
      else id == UNKNOWN_GROUP
  {
    RecordedContract(keys, key.extendsKeyId);
  }

  /** No batch has more keys than asked for, or than fifty when nothing or zero is. */
  lemma BatchesBounded(keys: seq<Key>, maxBatchSize: Option<nat>, i: nat)
    requires i < |CreateBatches(keys, maxBatchSize)|
    ensures 0 < |CreateBatches(keys, maxBatchSize)[i]| <=
      if maxBatchSize.None? || maxBatchSize.value == 0 then 50 else maxBatchSize.value
  {
    PackBounds([], SortedGroups(keys), EffectiveMax(maxBatchSize));
  }
}
