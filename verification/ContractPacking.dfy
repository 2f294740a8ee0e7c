/** `createBatches`: contract groups packed whole into batches, oversized groups cut up alone. */
module ContractPacking {
  import opened Seqs
  import opened InsertionMap
  import opened Grouping

  datatype Key = Key(id: Option<string>, contractId: Option<string>, extendsKeyId: Option<string>, restorePriority: int)

  const UNKNOWN_GROUP := "__unknown__"
  const DEFAULT_MAX_BATCH_SIZE: nat := 50

  /** A string that is present and not empty. */
  predicate Truthy(s: Option<string>) { s.Some? && s.value != "" }

  // ---- Which contract a key belongs to ----

  /** The contract recorded for each key identifier; the last key with that identifier counts. */
  function ContractByKeyId(keys: seq<Key>): map<Option<string>, string> {
    if keys == [] then map[]
    else
      var front, key := ContractByKeyId(keys[..|keys| - 1]), keys[|keys| - 1];
      if Truthy(key.contractId) then front[key.id := key.contractId.value] else front
  }

  function Resolve(contracts: map<Option<string>, string>): Key -> string {
    (key: Key) =>
      if Truthy(key.contractId) then key.contractId.value
      else if Truthy(key.extendsKeyId) && key.extendsKeyId in contracts then contracts[key.extendsKeyId]
      else UNKNOWN_GROUP
  }

  method ContractByKeyIdLoop(keys: seq<Key>) returns (contracts: map<Option<string>, string>)
    ensures contracts == ContractByKeyId(keys)
  {
    contracts := map[];
    for i := 0 to |keys|
      invariant contracts == ContractByKeyId(keys[..i])
    {
      assert keys[..i + 1][..i] == keys[..i];
      if Truthy(keys[i].contractId) {
        contracts := contracts[keys[i].id := keys[i].contractId.value];
      }
    }
    assert keys[..|keys|] == keys;
  }

  // ---- Packing ----

  function Flushed(current: seq<Key>): seq<seq<Key>> { if current == [] then [] else [current] }

  /** Consecutive pieces of `max` keys. */
  function Pieces(keys: seq<Key>, max: nat): seq<seq<Key>>
    requires max > 0
    decreases |keys|
  {
    if keys == [] then []
    else if |keys| <= max then [keys]
    else [keys[..max]] + Pieces(keys[max..], max)
  }

  /** The batches completed when group `g` arrives: what is open if `g` does not fit beside it, and all
      of `g` in pieces if it fits nowhere. */
  function Completed(current: seq<Key>, g: seq<Key>, max: nat): seq<seq<Key>>
    requires max > 0
  {
    if |g| > max then Flushed(current) + Pieces(g, max) else if |current| + |g| > max then Flushed(current) else []
  }

  /** The batch left open then. */
  function Opened(current: seq<Key>, g: seq<Key>, max: nat): seq<Key> {
    if |g| > max then [] else if |current| + |g| > max then g else current + g
  }

  /** The batches still to come when `current` is open and `groups` are left. */
  function PackFrom(current: seq<Key>, groups: seq<seq<Key>>, max: nat): seq<seq<Key>>
    requires max > 0
    decreases |groups|
  {
    if groups == [] then Flushed(current)
    else Completed(current, groups[0], max) + PackFrom(Opened(current, groups[0], max), groups[1..], max)
  }

  /** The loop with its `flush`. */
  method PackLoop(groups: seq<seq<Key>>, max: nat) returns (batches: seq<seq<Key>>)
    requires max > 0
    ensures batches == PackFrom([], groups, max)
  {
    batches := [];
    var current: seq<Key> := [];
    ghost var left := groups;
    for i := 0 to |groups|
      invariant left == groups[i..]
      invariant batches + PackFrom(current, left, max) == PackFrom([], groups, max)
    {
      var g := groups[i];
      ConcatAssoc(batches, Completed(current, g, max), PackFrom(Opened(current, g, max), left[1..], max));
      ConcatAssoc(batches, Flushed(current), Pieces(g, max));
      assert batches + [] == batches && [] + g == g;
      if |g| <= max {
        if |current| + |g| > max {
          batches := batches + Flushed(current);
          current := [];
        }
        current := current + g;
      } else {
        var pieces := CutLoop(g, max);
        batches := batches + Flushed(current) + pieces;
        current := [];
      }
      left := left[1..];
    }
    batches := batches + Flushed(current);
  }

  /** The inner loop: slices of at most `max` keys. */
  method CutLoop(keys: seq<Key>, max: nat) returns (pieces: seq<seq<Key>>)
    requires max > 0
    ensures pieces == Pieces(keys, max)
  {
    pieces := [];
    var i := 0;
    ghost var left := keys;
    while i < |keys|
      invariant 0 <= i && left == (if i <= |keys| then keys[i..] else [])
      invariant pieces + Pieces(left, max) == Pieces(keys, max)
    {
      var piece := keys[i..if i + max < |keys| then i + max else |keys|];
      ghost var later := if |left| <= max then [] else left[max..];
      assert piece == if |left| <= max then left else left[..max];
      ConcatAssoc(pieces, [piece], Pieces(later, max));
      assert [piece] + [] == [piece];
      pieces := pieces + [piece];
      left := later;
      i := i + max;
    }
    assert pieces + [] == pieces;
  }

  // ---- The whole function ----

  function Priority(): Key -> int { (k: Key) => k.restorePriority }

  function FirstPriority(): seq<Key> -> int { (g: seq<Key>) => if g == [] then 0 else g[0].restorePriority }

  /** Each group's keys in priority order. */
  function SortedLists(groups: Groups<Key>): (r: seq<seq<Key>>)
    ensures |r| == |groups|
  {
    if groups == [] then [] else [StableSort(groups[0].value, Priority())] + SortedLists(groups[1..])
  }

  /** The groups' keys, groups in order of their most urgent key. */
  function SortedGroups(keys: seq<Key>): seq<seq<Key>> {
    StableSort(SortedLists(GroupBy(keys, Resolve(ContractByKeyId(keys)))), FirstPriority())
  }

  type Positive = n: nat | n > 0 witness 1

  /** `options.maxBatchSize || 50`. */
  function EffectiveMax(maxBatchSize: Option<nat>): Positive {
    if maxBatchSize.Some? && maxBatchSize.value != 0 then maxBatchSize.value else DEFAULT_MAX_BATCH_SIZE
  }

  function CreateBatches(keys: seq<Key>, maxBatchSize: Option<nat>): seq<seq<Key>> {
    PackFrom([], SortedGroups(keys), EffectiveMax(maxBatchSize))
  }

  method CreateBatchesLoop(keys: seq<Key>, maxBatchSize: Option<nat>) returns (batches: seq<seq<Key>>)
    ensures batches == CreateBatches(keys, maxBatchSize)
  {
    var contracts := ContractByKeyIdLoop(keys);
    var groups := GroupByLoop(keys, Resolve(contracts));
    batches := PackLoop(StableSort(SortedLists(groups), FirstPriority()), EffectiveMax(maxBatchSize));
  }

  // ---- What packing guarantees ----

  lemma {:induction false} PiecesFacts(keys: seq<Key>, max: nat)
    requires max > 0
    ensures Flatten(Pieces(keys, max)) == keys
    ensures forall i :: 0 <= i < |Pieces(keys, max)| ==> 0 < |Pieces(keys, max)[i]| <= max
    decreases |keys|
  {
    if |keys| > max {
      PiecesFacts(keys[max..], max);
      assert keys == keys[..max] + keys[max..];
    } else if keys != [] {
      assert Flatten([keys]) == keys + Flatten<Key>([]);
    }
  }

  /** The batches are the groups' keys, one group after the other, cut up. */
  lemma {:induction false} PackFlattens(current: seq<Key>, groups: seq<seq<Key>>, max: nat)
    requires max > 0
    ensures Flatten(PackFrom(current, groups, max)) == current + Flatten(groups)
    decreases |groups|
  {
    FlushedFlattens(current);
    if groups != [] {
      var done, open := Completed(current, groups[0], max), Opened(current, groups[0], max);
      CompletedFlattens(current, groups[0], max);
      PackFlattens(open, groups[1..], max);
      FlattenAppend(done, PackFrom(open, groups[1..], max));
      ConcatAssoc(Flatten(done), open, Flatten(groups[1..]));
      ConcatAssoc(current, groups[0], Flatten(groups[1..]));
    }
  }

  lemma CompletedFlattens(current: seq<Key>, g: seq<Key>, max: nat)
    requires max > 0
    ensures Flatten(Completed(current, g, max)) + Opened(current, g, max) == current + g
  {
    FlushedFlattens(current);
    PiecesFacts(g, max);
    FlattenAppend(Flushed(current), Pieces(g, max));
  }

  lemma FlushedFlattens(current: seq<Key>)
    ensures Flatten(Flushed(current)) == current
  {
    if current != [] {
      assert Flatten([current]) == current + Flatten<Key>([]);
    }
  }

  /** No batch is empty or over the maximum. */
  lemma {:induction false} PackBounds(current: seq<Key>, groups: seq<seq<Key>>, max: nat)
    requires max > 0 && |current| <= max
    ensures forall i :: 0 <= i < |PackFrom(current, groups, max)| ==> 0 < |PackFrom(current, groups, max)[i]| <= max
    decreases |groups|
  {
    if groups != [] {
      PiecesFacts(groups[0], max);
      PackBounds(Opened(current, groups[0], max), groups[1..], max);
    }
  }

  ghost predicate PartAt(part: seq<Key>, whole: seq<Key>, lo: nat) {
    lo + |part| <= |whole| && whole[lo..lo + |part|] == part
  }

  /** An open batch only grows at its end. */
  lemma {:induction false} OpenStays(current: seq<Key>, groups: seq<seq<Key>>, max: nat)
    requires max > 0 && current != []
    ensures var r := PackFrom(current, groups, max); r != [] && PartAt(current, r[0], 0)
    decreases |groups|
  {
    if groups != [] && |current| + |groups[0]| <= max {
      var open := current + groups[0];
      OpenStays(open, groups[1..], max);
      var b := PackFrom(open, groups[1..], max)[0];
      assert PackFrom(current, groups, max)[0] == b;
      assert b[0..|current|] == b[0..|open|][..|current|] == current;
    }
  }

  lemma PartOfOpen(part: seq<Key>, open: seq<Key>, whole: seq<Key>)
    requires PartAt(open, whole, 0) && |part| <= |open| && open[|open| - |part|..] == part
    ensures PartAt(part, whole, |open| - |part|)
  {
    assert whole[|open| - |part|..|open|] == whole[0..|open|][|open| - |part|..];
  }

  /** A group that fits is never split: it is a stretch of one batch. */
  lemma {:induction false} FittingGroupWhole(current: seq<Key>, groups: seq<seq<Key>>, max: nat, k: nat) returns (i: nat, lo: nat)
    requires max > 0 && k < |groups| && 0 < |groups[k]| <= max
    ensures i < |PackFrom(current, groups, max)| && PartAt(groups[k], PackFrom(current, groups, max)[i], lo)
    decreases |groups|
  {
    var open := Opened(current, groups[0], max);
    if k > 0 {
      i, lo := FittingGroupWhole(open, groups[1..], max, k - 1);
    } else {
      OpenStays(open, groups[1..], max);
      i, lo := 0, |open| - |groups[0]|;
      PartOfOpen(groups[0], open, PackFrom(open, groups[1..], max)[0]);
    }
    i := |Completed(current, groups[0], max)| + i;
  }

  // ---- Batches of oversized groups ----

  ghost predicate OnlyFrom(batch: seq<Key>, g: seq<Key>) {
    forall i :: 0 <= i < |batch| ==> batch[i] in g
  }

  ghost predicate InFitting(key: Key, groups: seq<seq<Key>>, max: nat) {
    exists k :: 0 <= k < |groups| && |groups[k]| <= max && key in groups[k]
  }

  /** No key of this batch is from an oversized group. */
  ghost predicate FittingOnly(batch: seq<Key>, open: seq<Key>, groups: seq<seq<Key>>, max: nat) {
    forall i :: 0 <= i < |batch| ==> batch[i] in open || InFitting(batch[i], groups, max)
  }

  lemma InFittingTail(key: Key, groups: seq<seq<Key>>, max: nat)
    requires groups != [] && (InFitting(key, groups[1..], max) || (|groups[0]| <= max && key in groups[0]))
    ensures InFitting(key, groups, max)
  {
    if InFitting(key, groups[1..], max) {
      var k :| 0 <= k < |groups[1..]| && |groups[1..][k]| <= max && key in groups[1..][k];
      assert groups[k + 1] == groups[1..][k];
    }
  }

  lemma FittingOnlyTail(batch: seq<Key>, current: seq<Key>, groups: seq<seq<Key>>, max: nat)
    requires groups != [] && FittingOnly(batch, Opened(current, groups[0], max), groups[1..], max)
    ensures FittingOnly(batch, current, groups, max)
  {
    forall i | 0 <= i < |batch| ensures batch[i] in current || InFitting(batch[i], groups, max) {
      if batch[i] !in current {
        InFittingTail(batch[i], groups, max);
      }
    }
  }

  lemma {:induction false} PiecesOnlyFrom(keys: seq<Key>, max: nat)
    requires max > 0
    ensures forall i :: 0 <= i < |Pieces(keys, max)| ==> OnlyFrom(Pieces(keys, max)[i], keys)
    decreases |keys|
  {
    if |keys| > max {
      PiecesOnlyFrom(keys[max..], max);
      forall i | 0 <= i < |Pieces(keys, max)| ensures OnlyFrom(Pieces(keys, max)[i], keys) {
        if i > 0 {
          assert OnlyFrom(Pieces(keys[max..], max)[i - 1], keys[max..]);
        }
      }
    }
  }

  /** A batch is a piece of one oversized group (group `k`), or holds no key of an oversized group. */
  lemma {:induction false} OversizedAlone(current: seq<Key>, groups: seq<seq<Key>>, max: nat, i: nat) returns (k: int)
    requires max > 0 && i < |PackFrom(current, groups, max)|
    ensures k < |groups|
    ensures k >= 0 ==> |groups[k]| > max && OnlyFrom(PackFrom(current, groups, max)[i], groups[k])
    ensures k < 0 ==> FittingOnly(PackFrom(current, groups, max)[i], current, groups, max)
    decreases |groups|
  {
    k := -1;
    if groups != [] {
      var done, open := Completed(current, groups[0], max), Opened(current, groups[0], max);
      if i >= |done| {
        k := OversizedAlone(open, groups[1..], max, i - |done|);
        if k >= 0 {
          assert groups[k + 1] == groups[1..][k];
          k := k + 1;
        } else {
          FittingOnlyTail(PackFrom(open, groups[1..], max)[i - |done|], current, groups, max);
        }
      } else if |groups[0]| > max && i >= |Flushed(current)| {
        PiecesOnlyFrom(groups[0], max);
        k := 0;
      }
    }
  }

  // ---- How many batches ----

  ghost predicate AllFit(groups: seq<seq<Key>>, max: nat) {
    forall i :: 0 <= i < |groups| ==> 0 < |groups[i]| <= max
  }

  /** When every group fits, two neighbouring batches never fit in one. */
  lemma {:induction false} NeighboursOverflow(current: seq<Key>, groups: seq<seq<Key>>, max: nat)
    requires max > 0 && AllFit(groups, max)
    ensures var r := PackFrom(current, groups, max);
      (current != [] ==> r != [] && |r[0]| >= |current|) &&
      forall i :: 0 <= i < |r| - 1 ==> |r[i]| + |r[i + 1]| > max
    decreases |groups|
  {
    if groups != [] {
      NeighboursOverflow(Opened(current, groups[0], max), groups[1..], max);
    }
  }

  lemma {:induction false} PairSum(batches: seq<seq<Key>>, max: nat)
    requires batches != []
    requires forall i :: 0 <= i < |batches| - 1 ==> |batches[i]| + |batches[i + 1]| > max
    ensures (|batches| - 1) * (max + 1) <= 2 * |Flatten(batches)| - |batches[0]| - |batches[|batches| - 1]|
  {
    var rest := batches[1..];
    if rest == [] {
      assert Flatten(batches) == batches[0] + Flatten<Key>([]);
    } else {
      forall i | 0 <= i < |rest| - 1 ensures |rest[i]| + |rest[i + 1]| > max {
        assert rest[i] == batches[i + 1] && rest[i + 1] == batches[i + 2];
      }
      PairSum(rest, max);
      assert (|batches| - 1) * (max + 1) == (|rest| - 1) * (max + 1) + (max + 1);
    }
  }

  lemma {:induction false} FlattenAtMost(batches: seq<seq<Key>>, max: nat)
    requires forall i :: 0 <= i < |batches| ==> |batches[i]| <= max
    ensures |Flatten(batches)| <= |batches| * max
  {
    if batches != [] {
      FlattenAtMost(batches[1..], max);
      assert |batches| * max == (|batches| - 1) * max + max;
    }
  }

  lemma CancelFactor(a: int, b: int, c: int)
    requires c > 0 && a * c < b * c
    ensures a < b
  {
  }

  lemma TwiceBound(r: int, k: int, max: int, n: int)
    requires max > 0 && n > 0 && (r - 1) * (max + 1) <= 2 * n && n <= k * max
    ensures r <= 2 * k
  {
    assert (2 * k) * (max + 1) == 2 * (k * max) + 2 * k;
    CancelFactor(0, k, max);
    CancelFactor(r - 1, 2 * k, max + 1);
  }

  /** When every group fits, at most twice as many batches are used as any way of dividing the same
      number of keys into batches of that size needs. */
  lemma AtMostTwice(groups: seq<seq<Key>>, max: nat, other: seq<seq<Key>>)
    requires max > 0 && AllFit(groups, max)
    requires |Flatten(other)| == |Flatten(groups)| && forall i :: 0 <= i < |other| ==> |other[i]| <= max
    ensures var r := PackFrom([], groups, max);
      |r| <= 2 * |other| && (r != [] ==> (|r| - 1) * (max + 1) <= 2 * |Flatten(groups)|)
  {
    var r, k := PackFrom([], groups, max), |other|;
    PackFlattens([], groups, max);
    PackBounds([], groups, max);
    NeighboursOverflow([], groups, max);
    FlattenAtMost(other, max);
    if r != [] {
      PairSum(r, max);
      TwiceBound(|r|, k, max, |Flatten(groups)|);
    }
  }

  /** The packing is not the best that keeps every group whole: contracts of two, two, one and one keys take three
      batches of at most three, although two batches hold all four groups uncut. */
  lemma NotMinimal(a: seq<Key>, b: seq<Key>, c: seq<Key>, d: seq<Key>)
    requires |a| == 2 && |b| == 2 && |c| == 1 && |d| == 1
    ensures PackFrom([], [a, b, c, d], 3) == [a, b + c, d]
    ensures |a + c| == 3 && |b + d| == 3
    ensures multiset(Flatten([a + c, b + d])) == multiset(Flatten([a, b, c, d]))
  {
    assert [a, b, c, d][1..] == [b, c, d] && [b, c, d][1..] == [c, d] && [c, d][1..] == [d] && [d][1..] == [];
    assert PackFrom(d, [], 3) == [d];
    assert PackFrom(b + c, [d], 3) == [b + c, d];
    assert PackFrom(b, [c, d], 3) == [b + c, d];
    assert [] + a == a;
    assert PackFrom(a, [b, c, d], 3) == [a, b + c, d];
    FlattenTwo(a + c, b + d);
    FlattenTwo(c, d);
    assert Flatten([b, c, d]) == b + Flatten([c, d]) && Flatten([a, b, c, d]) == a + Flatten([b, c, d]);
    assert multiset(a + c) == multiset(a) + multiset(c) && multiset(b + d) == multiset(b) + multiset(d);
  }

  lemma FlattenTwo(x: seq<Key>, y: seq<Key>)
    ensures Flatten([x, y]) == x + y
  {
    assert [x, y][1..] == [y] && [y][1..] == [];
    assert Flatten([y]) == y + [] == y;
  }

  // ---- The whole function, contract by contract ----

  /** A group as the packing sees it: not empty, and all its keys of one contract. */
  ghost predicate OneContract(g: seq<Key>, idOf: Key -> string) {
    g != [] && forall i :: 0 <= i < |g| ==> idOf(g[i]) == idOf(g[0])
  }

  ghost predicate Grouped(lists: seq<seq<Key>>, idOf: Key -> string) {
    forall i :: 0 <= i < |lists| ==> OneContract(lists[i], idOf)
  }

  function HasId(idOf: Key -> string, id: string): seq<Key> -> bool {
    (g: seq<Key>) => g != [] && idOf(g[0]) == id
  }

  /** The keys of one contract, in one list of grouped lists. */
  lemma {:induction false} FilterGrouped(lists: seq<seq<Key>>, idOf: Key -> string, id: string)
    requires Grouped(lists, idOf)
    ensures Filter(Flatten(lists), SameId(idOf, id)) == Flatten(Filter(lists, HasId(idOf, id)))
  {
    if lists != [] {
      FilterGrouped(lists[1..], idOf, id);
      FilterAppend(lists[0], Flatten(lists[1..]), SameId(idOf, id));
      if idOf(lists[0][0]) == id {
        FilterAll(lists[0], SameId(idOf, id));
      } else {
        FilterNone(lists[0], SameId(idOf, id));
      }
    }
  }

  lemma {:induction false} FilterCount(s: seq<seq<Key>>, p: seq<Key> -> bool, x: seq<Key>)
    ensures multiset(Filter(s, p))[x] == if p(x) then multiset(s)[x] else 0
  {
    if s != [] {
      FilterCount(s[1..], p, x);
      assert s == [s[0]] + s[1..];
    }
  }

  lemma SingletonFilter(a: seq<seq<Key>>, b: seq<seq<Key>>, p: seq<Key> -> bool)
    requires multiset(a) == multiset(b) && |Filter(b, p)| <= 1
    ensures Filter(a, p) == Filter(b, p)
  {
    var fa, fb := Filter(a, p), Filter(b, p);
    forall x ensures multiset(fa)[x] == multiset(fb)[x] {
      FilterCount(a, p, x);
      FilterCount(b, p, x);
    }
    assert multiset(fa) == multiset(fb);
    assert |fa| == |multiset(fa)| && |fb| == |multiset(fb)|;
    if fb != [] {
      assert fb[0] in multiset(fb);
      assert fb[0] in multiset(fa);
    }
  }

  lemma SortKeepsContract(g: seq<Key>, idOf: Key -> string)
    requires OneContract(g, idOf)
    ensures OneContract(StableSort(g, Priority()), idOf) && idOf(StableSort(g, Priority())[0]) == idOf(g[0])
  {
    var s := StableSort(g, Priority());
    StableSortSorts(g, Priority());
    forall i | 0 <= i < |s| ensures idOf(s[i]) == idOf(g[0]) {
      assert s[i] in multiset(g);
    }
  }

  /** The sorted lists of groups whose names are their contracts: all of one contract each, no contract
      twice. */
  lemma {:induction false} SortedListsFacts(groups: Groups<Key>, idOf: Key -> string, id: string)
    requires forall i :: 0 <= i < |groups| ==> OneContract(groups[i].value, idOf) && idOf(groups[i].value[0]) == groups[i].key
    requires forall i, j :: 0 <= i < j < |groups| ==> groups[i].key != groups[j].key
    ensures Grouped(SortedLists(groups), idOf)
    ensures forall i :: 0 <= i < |groups| && groups[i].key == id ==>
      Filter(SortedLists(groups), HasId(idOf, id)) == [StableSort(groups[i].value, Priority())]
    ensures (forall i :: 0 <= i < |groups| ==> groups[i].key != id) ==> Filter(SortedLists(groups), HasId(idOf, id)) == []
    ensures multiset(Flatten(SortedLists(groups))) == multiset(Concatenated(groups))
  {
    if groups != [] {
      var first, rest := groups[0], groups[1..];
      SortedListsFacts(rest, idOf, id);
      SortKeepsContract(first.value, idOf);
      StableSortSorts(first.value, Priority());
      assert forall i :: 0 < i < |groups| ==> groups[i] == rest[i - 1];
      assert SortedLists(groups)[1..] == SortedLists(rest);
    }
  }

  lemma {:induction false} FlattenRemove(lists: seq<seq<Key>>, i: nat)
    requires i < |lists|
    ensures multiset(Flatten(lists)) == multiset(lists[i]) + multiset(Flatten(Removed(lists, i)))
  {
    var rest := Removed(lists, i);
    if i == 0 {
      assert rest == lists[1..];
    } else {
      FlattenRemove(lists[1..], i - 1);
      assert rest[0] == lists[0] && rest[1..] == Removed(lists[1..], i - 1);
    }
  }

  lemma {:induction false} FlattenPermuted(a: seq<seq<Key>>, b: seq<seq<Key>>)
    requires multiset(a) == multiset(b)
    ensures multiset(Flatten(a)) == multiset(Flatten(b))
    decreases |a|
  {
    if a == [] {
      assert |b| == |multiset(b)| == 0;
    } else {
      assert a[0] in multiset(b);
      var i :| 0 <= i < |b| && b[i] == a[0];
      RemovedElements(a, 0);
      RemovedElements(b, i);
      FlattenRemove(a, 0);
      FlattenRemove(b, i);
      FlattenPermuted(Removed(a, 0), Removed(b, i));
    }
  }

  lemma GroupsNamed(keys: seq<Key>, idOf: Key -> string, i: nat)
    requires i < |GroupBy(keys, idOf)|
    ensures var g := GroupBy(keys, idOf)[i];
      g.value == Filter(keys, SameId(idOf, g.key)) && OneContract(g.value, idOf) && idOf(g.value[0]) == g.key
  {
    var groups := GroupBy(keys, idOf);
    GroupByFacts(keys, idOf, groups[i].key);
    LookupByIndex(groups, groups[i].key);
    FilterMembers(keys, SameId(idOf, groups[i].key));
    assert forall j :: 0 <= j < |groups[i].value| ==> groups[i].value[j] in groups[i].value;
  }

  /** The groups handed to the packing, for any contract: its keys stably sorted by priority, once, or
      nothing when it has no keys. */
  lemma SortedGroupsFacts(keys: seq<Key>, id: string)
    ensures var idOf := Resolve(ContractByKeyId(keys));
      var own := Filter(keys, SameId(idOf, id));
      Grouped(SortedGroups(keys), idOf) &&
      Filter(SortedGroups(keys), HasId(idOf, id)) == (if own == [] then [] else [StableSort(own, Priority())]) &&
      multiset(Flatten(SortedGroups(keys))) == multiset(keys)
  {
    var idOf := Resolve(ContractByKeyId(keys));
    var groups := GroupBy(keys, idOf);
    var lists := SortedLists(groups);
    var own := Filter(keys, SameId(idOf, id));
    forall i | 0 <= i < |groups| ensures OneContract(groups[i].value, idOf) && idOf(groups[i].value[0]) == groups[i].key {
      GroupsNamed(keys, idOf, i);
    }
    GroupByFacts(keys, idOf, id);
    LookupByIndex(groups, id);
    SortedListsFacts(groups, idOf, id);
    assert Filter(lists, HasId(idOf, id)) == if own == [] then [] else [StableSort(own, Priority())];
    StableSortSorts(lists, FirstPriority());
    SingletonFilter(SortedGroups(keys), lists, HasId(idOf, id));
    FlattenPermuted(SortedGroups(keys), lists);
    GroupByConserves(keys, idOf);
    forall i | 0 <= i < |SortedGroups(keys)| ensures OneContract(SortedGroups(keys)[i], idOf) {
      assert SortedGroups(keys)[i] in multiset(lists);
    }
  }

  /** `createBatches` loses and repeats no key, makes no batch empty or too large, and lists each
      contract's keys in priority order, keys of equal priority in their given order. */
  lemma CreateBatchesFacts(keys: seq<Key>, maxBatchSize: Option<nat>, id: string)
    ensures var idOf := Resolve(ContractByKeyId(keys));
      var batches := CreateBatches(keys, maxBatchSize);
      multiset(Flatten(batches)) == multiset(keys) &&
      (forall i :: 0 <= i < |batches| ==> 0 < |batches[i]| <= EffectiveMax(maxBatchSize)) &&
      Filter(Flatten(batches), SameId(idOf, id)) == StableSort(Filter(keys, SameId(idOf, id)), Priority())
  {
    var idOf := Resolve(ContractByKeyId(keys));
    var own := Filter(keys, SameId(idOf, id));
    PackFlattens([], SortedGroups(keys), EffectiveMax(maxBatchSize));
    PackBounds([], SortedGroups(keys), EffectiveMax(maxBatchSize));
    SortedGroupsFacts(keys, id);
    FilterGrouped(SortedGroups(keys), idOf, id);
    assert [] + Flatten(SortedGroups(keys)) == Flatten(SortedGroups(keys));
    assert Flatten([StableSort(own, Priority())]) == StableSort(own, Priority()) + Flatten<Key>([]);
  }

  /** A contract whose keys fit in one batch has them together, in one stretch of one batch. */
  lemma ContractWhole(keys: seq<Key>, maxBatchSize: Option<nat>, id: string) returns (i: nat, lo: nat)
    requires var own := Filter(keys, SameId(Resolve(ContractByKeyId(keys)), id)); 0 < |own| <= EffectiveMax(maxBatchSize)
    ensures var own := Filter(keys, SameId(Resolve(ContractByKeyId(keys)), id));
      i < |CreateBatches(keys, maxBatchSize)| &&
      PartAt(StableSort(own, Priority()), CreateBatches(keys, maxBatchSize)[i], lo)
  {
    var idOf := Resolve(ContractByKeyId(keys));
    var sorted := StableSort(Filter(keys, SameId(idOf, id)), Priority());
    SortedGroupsFacts(keys, id);
    StableSortSorts(Filter(keys, SameId(idOf, id)), Priority());
    FilterMembers(SortedGroups(keys), HasId(idOf, id));
    assert sorted in Filter(SortedGroups(keys), HasId(idOf, id));
    var k :| 0 <= k < |SortedGroups(keys)| && SortedGroups(keys)[k] == sorted;
    i, lo := FittingGroupWhole([], SortedGroups(keys), EffectiveMax(maxBatchSize), k);
  }

  /** A list of the contract among the groups is the contract's whole list. */
  lemma ListOfContract(keys: seq<Key>, k: nat, id: string)
    requires k < |SortedGroups(keys)|
    requires exists key :: key in SortedGroups(keys)[k] && Resolve(ContractByKeyId(keys))(key) == id
    ensures SortedGroups(keys)[k] == StableSort(Filter(keys, SameId(Resolve(ContractByKeyId(keys)), id)), Priority())
    ensures forall i :: 0 <= i < |SortedGroups(keys)[k]| ==> Resolve(ContractByKeyId(keys))(SortedGroups(keys)[k][i]) == id
  {
    var idOf := Resolve(ContractByKeyId(keys));
    var g := SortedGroups(keys)[k];
    SortedGroupsFacts(keys, id);
    assert OneContract(g, idOf);
    FilterMembers(SortedGroups(keys), HasId(idOf, id));
    assert g in SortedGroups(keys) && HasId(idOf, id)(g);
    assert g in Filter(SortedGroups(keys), HasId(idOf, id));
  }

  /** A contract with too many keys for one batch shares no batch with another contract. */
  lemma ContractAlone(keys: seq<Key>, maxBatchSize: Option<nat>, id: string, i: nat, a: nat, b: nat)
    requires |Filter(keys, SameId(Resolve(ContractByKeyId(keys)), id))| > EffectiveMax(maxBatchSize)
    requires var batches := CreateBatches(keys, maxBatchSize); i < |batches| && a < |batches[i]| && b < |batches[i]|
    requires Resolve(ContractByKeyId(keys))(CreateBatches(keys, maxBatchSize)[i][a]) == id
    ensures Resolve(ContractByKeyId(keys))(CreateBatches(keys, maxBatchSize)[i][b]) == id
  {
    var idOf, max, groups := Resolve(ContractByKeyId(keys)), EffectiveMax(maxBatchSize), SortedGroups(keys);
    var batch := CreateBatches(keys, maxBatchSize)[i];
    var big := OversizedAlone([], groups, max, i);
    if big >= 0 {
      ListOfContract(keys, big, id);
    } else {
      assert InFitting(batch[a], groups, max);
      var k :| 0 <= k < |groups| && |groups[k]| <= max && batch[a] in groups[k];
      ListOfContract(keys, k, id);
      StableSortSorts(Filter(keys, SameId(idOf, id)), Priority());
      assert false;
    }
  }

  /** Every contract has few enough keys for one batch. */
  ghost predicate ContractsFit(keys: seq<Key>, max: nat) {
    forall id :: |Filter(keys, SameId(Resolve(ContractByKeyId(keys)), id))| <= max
  }

  lemma FittingContracts(keys: seq<Key>, max: nat)
    requires ContractsFit(keys, max)
    ensures AllFit(SortedGroups(keys), max)
  {
    var idOf, groups := Resolve(ContractByKeyId(keys)), SortedGroups(keys);
    forall k | 0 <= k < |groups| ensures 0 < |groups[k]| <= max {
      SortedGroupsFacts(keys, "");
      assert OneContract(groups[k], idOf);
      var id := idOf(groups[k][0]);
      assert groups[k][0] in groups[k];
      ListOfContract(keys, k, id);
      StableSortSorts(Filter(keys, SameId(idOf, id)), Priority());
      SameSize(groups[k], Filter(keys, SameId(idOf, id)));
    }
  }

  lemma SameSize(a: seq<Key>, b: seq<Key>)
    requires multiset(a) == multiset(b)
    ensures |a| == |b|
  {
    assert |multiset(a)| == |multiset(b)|;
  }

  lemma SortedGroupsSize(keys: seq<Key>)
    ensures |Flatten(SortedGroups(keys))| == |keys|
  {
    SortedGroupsFacts(keys, "");
    SameSize(Flatten(SortedGroups(keys)), keys);
  }

  /** When every contract fits in one batch, `createBatches` leaves no two neighbouring batches that would fit in one,
      and uses at most twice as many batches as any division of as many keys needs. */
  lemma {:induction false} CreateBatchesCount(keys: seq<Key>, maxBatchSize: Option<nat>, other: seq<seq<Key>>)
    requires ContractsFit(keys, EffectiveMax(maxBatchSize))
    requires |Flatten(other)| == |keys| && forall i :: 0 <= i < |other| ==> |other[i]| <= EffectiveMax(maxBatchSize)
    ensures var r, max := CreateBatches(keys, maxBatchSize), EffectiveMax(maxBatchSize);
      (forall i :: 0 <= i < |r| - 1 ==> |r[i]| + |r[i + 1]| > max) &&
      |r| <= 2 * |other| && (r != [] ==> (|r| - 1) * (max + 1) <= 2 * |keys|)
  {
    var groups, max := SortedGroups(keys), EffectiveMax(maxBatchSize);
    FittingContracts(keys, max);
    SortedGroupsSize(keys);
    NeighboursOverflow([], groups, max);
    AtMostTwice(groups, max, other);
  }
}
