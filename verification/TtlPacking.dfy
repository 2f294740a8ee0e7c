/** Which keys of one contract share a batch, and TTL keys with the keys they extend. */
module TtlPacking {
  import opened Seqs
  import opened InsertionMap
  import opened Grouping
  import opened ContractPacking

  // ---- Pieces of an oversized group ----

  lemma DivStep(p: nat, max: nat)
    requires 0 < max <= p
    ensures p / max == 1 + (p - max) / max
  {
    var q, r := (p - max) / max, (p - max) % max;
    assert p - max == q * max + r;
    assert p == (q + 1) * max + r;
    DivUnique(p, max, q + 1, r);
  }

  lemma ScaledAtLeast(d: int, max: nat)
    ensures d >= 1 ==> d * max >= max
    ensures d <= -1 ==> d * max + max <= 0
  {
  }

  lemma DivUnique(p: nat, max: nat, q: int, r: nat)
    requires 0 < max && p == q * max + r && r < max
    ensures p / max == q
  {
    var d := p / max - q;
    assert p == (p / max) * max + p % max;
    assert d * max == r - p % max;
    ScaledAtLeast(d, max);
  }

  /** A key that occurs once is on one side of a cut. */
  lemma OneSide(keys: seq<Key>, cut: nat, p: nat)
    requires Distinct(keys) && cut <= |keys| && p < |keys|
    ensures if p < cut then keys[p] !in keys[cut..] else keys[p] !in keys[..cut]
    ensures Distinct(keys[cut..])
  {
    assert forall i :: 0 <= i < |keys| - cut ==> keys[cut..][i] == keys[cut + i];
    assert forall i :: 0 <= i < cut ==> keys[..cut][i] == keys[i];
  }

  /** The `p`-th key is in piece `p / max`. */
  lemma {:induction false} InItsPiece(keys: seq<Key>, max: nat, p: nat)
    requires max > 0 && p < |keys|
    ensures p / max < |Pieces(keys, max)| && keys[p] in Pieces(keys, max)[p / max]
    decreases |keys|
  {
    if p < max {
      DivUnique(p, max, 0, p);
      assert |keys| > max ==> keys[..max][p] == keys[p];
    } else {
      DivStep(p, max);
      InItsPiece(keys[max..], max, p - max);
      assert keys[max..][p - max] == keys[p];
    }
  }

  /** If it occurs once, it is in no other. */
  lemma {:induction false} InNoOther(keys: seq<Key>, max: nat, p: nat, j: nat)
    requires max > 0 && p < |keys| && Distinct(keys) && j < |Pieces(keys, max)| && j != p / max
    ensures keys[p] !in Pieces(keys, max)[j]
    decreases |keys|
  {
    if p < max {
      DivUnique(p, max, 0, p);
      if |keys| > max {
        var rest := keys[max..];
        PiecesOnlyFrom(rest, max);
        OneSide(keys, max, p);
        assert Pieces(keys, max)[j] == Pieces(rest, max)[j - 1] && OnlyFrom(Pieces(rest, max)[j - 1], rest);
      }
    } else {
      var rest := keys[max..];
      DivStep(p, max);
      OneSide(keys, max, p);
      assert rest[p - max] == keys[p];
      if j > 0 {
        InNoOther(rest, max, p - max, j - 1);
      }
    }
  }

  ghost predicate PlacedAt(pieces: seq<seq<Key>>, batches: seq<seq<Key>>, lo: nat) {
    lo + |pieces| <= |batches| && forall j :: 0 <= j < |pieces| ==> batches[lo + j] == pieces[j]
  }

  /** The pieces of an oversized group are consecutive batches. */
  lemma {:induction false} PiecesPlaced(current: seq<Key>, groups: seq<seq<Key>>, max: nat, k: nat) returns (lo: nat)
    requires max > 0 && k < |groups| && |groups[k]| > max
    ensures PlacedAt(Pieces(groups[k], max), PackFrom(current, groups, max), lo)
    decreases |groups|
  {
    var done, open := Completed(current, groups[0], max), Opened(current, groups[0], max);
    var later := PackFrom(open, groups[1..], max);
    if k == 0 {
      lo := |Flushed(current)|;
      PlacedBehind(Pieces(groups[0], max), Flushed(current), later);
    } else {
      lo := PiecesPlaced(open, groups[1..], max, k - 1);
      PlacedLater(Pieces(groups[k], max), done, later, lo);
      lo := lo + |done|;
    }
  }

  lemma PlacedBehind(pieces: seq<seq<Key>>, before: seq<seq<Key>>, later: seq<seq<Key>>)
    ensures PlacedAt(pieces, (before + pieces) + later, |before|)
  {
  }

  lemma PlacedLater(pieces: seq<seq<Key>>, before: seq<seq<Key>>, later: seq<seq<Key>>, lo: nat)
    requires PlacedAt(pieces, later, lo)
    ensures PlacedAt(pieces, before + later, lo + |before|)
  {
  }

  // ---- One home for each key ----

  lemma CountWithHead(batches: seq<seq<Key>>, x: Key, j: nat)
    requires 0 < j < |batches| && x in batches[j]
    ensures multiset(Flatten(batches))[x] >= multiset(batches[0])[x] + 1
  {
    var head, tail := batches[0], Flatten(batches[1..]);
    InFlatten(batches[1..], x, j - 1);
    assert multiset(head + tail) == multiset(head) + multiset(tail);
    assert x in multiset(tail);
  }

  lemma {:induction false} OneHome(batches: seq<seq<Key>>, x: Key, i: nat, j: nat)
    requires multiset(Flatten(batches))[x] <= 1
    requires i < |batches| && j < |batches| && x in batches[i] && x in batches[j]
    ensures i == j
  {
    if i == 0 && j > 0 {
      CountWithHead(batches, x, j);
    } else if j == 0 && i > 0 {
      CountWithHead(batches, x, i);
    } else if i > 0 {
      var head, tail := batches[0], Flatten(batches[1..]);
      assert multiset(head + tail) == multiset(head) + multiset(tail);
      OneHome(batches[1..], x, i - 1, j - 1);
    }
  }

  lemma {:induction false} InFlatten(batches: seq<seq<Key>>, x: Key, i: nat)
    requires i < |batches| && x in batches[i]
    ensures x in Flatten(batches)
  {
    if i > 0 {
      InFlatten(batches[1..], x, i - 1);
    }
  }

  lemma {:induction false} FilterKeepsCount(keys: seq<Key>, p: Key -> bool, x: Key)
    requires p(x)
    ensures multiset(Filter(keys, p))[x] == multiset(keys)[x]
  {
    if keys != [] {
      FilterKeepsCount(keys[1..], p, x);
      assert keys == [keys[0]] + keys[1..];
      assert multiset([keys[0]] + keys[1..]) == multiset{keys[0]} + multiset(keys[1..]);
      if p(keys[0]) {
        assert multiset([keys[0]] + Filter(keys[1..], p)) == multiset{keys[0]} + multiset(Filter(keys[1..], p));
      }
    }
  }

  // ---- Which keys of a contract share a batch ----

  function Own(keys: seq<Key>, id: string): seq<Key> { Filter(keys, SameId(Resolve(ContractByKeyId(keys)), id)) }

  /** The keys of a contract in priority order. */
  function Ranked(keys: seq<Key>, id: string): seq<Key> { StableSort(Own(keys, id), Priority()) }

  ghost predicate Share(batches: seq<seq<Key>>, a: Key, b: Key) {
    exists i :: 0 <= i < |batches| && a in batches[i] && b in batches[i]
  }

  lemma RankedFacts(keys: seq<Key>, id: string)
    requires Distinct(Own(keys, id))
    ensures multiset(Ranked(keys, id)) == multiset(Own(keys, id)) && |Ranked(keys, id)| == |Own(keys, id)|
    ensures Distinct(Ranked(keys, id))
    ensures Own(keys, id) != [] ==> Ranked(keys, id) in SortedGroups(keys)
  {
    var own, ranked, idOf := Own(keys, id), Ranked(keys, id), Resolve(ContractByKeyId(keys));
    StableSortSorts(own, Priority());
    assert |multiset(ranked)| == |ranked| && |multiset(own)| == |own|;
    forall x ensures multiset(ranked)[x] <= 1 {
      DistinctOnce(own, x);
    }
    OnceDistinct(ranked);
    SortedGroupsFacts(keys, id);
    FilterMembers(SortedGroups(keys), HasId(idOf, id));
    if own != [] {
      assert ranked in Filter(SortedGroups(keys), HasId(idOf, id));
    }
  }

  lemma {:induction false} OwnOnce(keys: seq<Key>, maxBatchSize: Option<nat>, id: string, x: Key)
    requires Distinct(Own(keys, id)) && x in Own(keys, id)
    ensures multiset(Flatten(CreateBatches(keys, maxBatchSize)))[x] <= 1
  {
    var p := SameId(Resolve(ContractByKeyId(keys)), id);
    CreateBatchesFacts(keys, maxBatchSize, id);
    FilterMembers(keys, p);
    FilterKeepsCount(keys, p, x);
    DistinctOnce(Own(keys, id), x);
  }

  /** A contract over the maximum is cut at every multiple of it: two of its keys share a batch if and only if their
      places in priority order fall between the same two cuts. */
  lemma {:induction false} OversizedShare(keys: seq<Key>, maxBatchSize: Option<nat>, id: string, p: nat, q: nat)
    requires Distinct(Own(keys, id)) && |Own(keys, id)| > EffectiveMax(maxBatchSize)
    requires p < |Ranked(keys, id)| && q < |Ranked(keys, id)|
    ensures Share(CreateBatches(keys, maxBatchSize), Ranked(keys, id)[p], Ranked(keys, id)[q]) <==>
      p / EffectiveMax(maxBatchSize) == q / EffectiveMax(maxBatchSize)
  {
    var max, ranked := EffectiveMax(maxBatchSize), Ranked(keys, id);
    RankedFacts(keys, id);
    var k :| 0 <= k < |SortedGroups(keys)| && SortedGroups(keys)[k] == ranked;
    assert ranked[p] in multiset(Own(keys, id));
    OwnOnce(keys, maxBatchSize, id, ranked[p]);
    PackedShare(SortedGroups(keys), max, k, p, q);
  }

  lemma {:induction false} PackedShare(groups: seq<seq<Key>>, max: nat, k: nat, p: nat, q: nat)
    requires max > 0 && k < |groups| && |groups[k]| > max && Distinct(groups[k]) && p < |groups[k]| && q < |groups[k]|
    requires multiset(Flatten(PackFrom([], groups, max)))[groups[k][p]] <= 1
    ensures Share(PackFrom([], groups, max), groups[k][p], groups[k][q]) <==> p / max == q / max
  {
    var lo := PiecesPlaced([], groups, max, k);
    PlacedShare(PackFrom([], groups, max), groups[k], max, lo, p, q);
  }

  lemma {:induction false} PlacedShare(batches: seq<seq<Key>>, ranked: seq<Key>, max: nat, lo: nat, p: nat, q: nat)
    requires max > 0 && Distinct(ranked) && p < |ranked| && q < |ranked|
    requires PlacedAt(Pieces(ranked, max), batches, lo) && multiset(Flatten(batches))[ranked[p]] <= 1
    ensures Share(batches, ranked[p], ranked[q]) <==> p / max == q / max
  {
    var i, j := PiecesOfTwo(ranked, max, p, q);
    PlacedHomes(batches, Pieces(ranked, max), lo, i, j, ranked[p], ranked[q]);
  }

  lemma {:induction false} PiecesOfTwo(ranked: seq<Key>, max: nat, p: nat, q: nat) returns (i: nat, j: nat)
    requires max > 0 && Distinct(ranked) && p < |ranked| && q < |ranked|
    ensures i < |Pieces(ranked, max)| && j < |Pieces(ranked, max)| && (i == j <==> p / max == q / max)
    ensures ranked[p] in Pieces(ranked, max)[i] && ranked[q] in Pieces(ranked, max)[j]
    ensures i != j ==> ranked[q] !in Pieces(ranked, max)[i]
  {
    i, j := p / max, q / max;
    InItsPiece(ranked, max, p);
    InItsPiece(ranked, max, q);
    if i != j {
      InNoOther(ranked, max, q, i);
    }
  }

  lemma {:induction false} PlacedHomes(batches: seq<seq<Key>>, pieces: seq<seq<Key>>, lo: nat, i: nat, j: nat, x: Key, y: Key)
    requires PlacedAt(pieces, batches, lo) && i < |pieces| && j < |pieces| && x in pieces[i] && y in pieces[j]
    requires multiset(Flatten(batches))[x] <= 1 && (i != j ==> y !in pieces[i])
    ensures Share(batches, x, y) <==> i == j
  {
    HomesShare(batches, x, y, lo + i, lo + j);
  }

  lemma {:induction false} HomesShare(batches: seq<seq<Key>>, x: Key, y: Key, i: nat, j: nat)
    requires i < |batches| && j < |batches| && x in batches[i] && y in batches[j]
    requires multiset(Flatten(batches))[x] <= 1 && (i != j ==> y !in batches[i])
    ensures Share(batches, x, y) <==> i == j
  {
    if Share(batches, x, y) {
      var k :| 0 <= k < |batches| && x in batches[k] && y in batches[k];
      OneHome(batches, x, k, i);
    }
  }

  /** Two keys of one contract share a batch if and only if the contract fits in one, or their places fall between
      the same two cuts. */
  lemma ShareIff(keys: seq<Key>, maxBatchSize: Option<nat>, id: string, p: nat, q: nat)
    requires Distinct(Own(keys, id)) && p < |Ranked(keys, id)| && q < |Ranked(keys, id)|
    ensures Share(CreateBatches(keys, maxBatchSize), Ranked(keys, id)[p], Ranked(keys, id)[q]) <==>
      |Own(keys, id)| <= EffectiveMax(maxBatchSize) || p / EffectiveMax(maxBatchSize) == q / EffectiveMax(maxBatchSize)
  {
    RankedFacts(keys, id);
    if |Own(keys, id)| > EffectiveMax(maxBatchSize) {
      OversizedShare(keys, maxBatchSize, id, p, q);
    } else {
      var i, lo := ContractWhole(keys, maxBatchSize, id);
      var batch, ranked := CreateBatches(keys, maxBatchSize)[i], Ranked(keys, id);
      assert batch[lo + p] == ranked[p] && batch[lo + q] == ranked[q];
    }
  }

  // ---- TTL keys and their siblings ----

  /** `data` is the key with its identifier: no other key of a contract claims it for another one. */
  ghost predicate Identified(keys: seq<Key>, data: Key) {
    data in keys && Truthy(data.contractId) &&
    forall k :: k in keys && k.id == data.id && Truthy(k.contractId) ==> k.contractId == data.contractId
  }

  /** `ttl` extends `data` and names no contract of its own. */
  predicate ExtendsKey(ttl: Key, data: Key) {
    !Truthy(ttl.contractId) && Truthy(ttl.extendsKeyId) && ttl.extendsKeyId == data.id
  }

  lemma {:induction false} ContractRecorded(keys: seq<Key>, data: Key)
    requires Identified(keys, data)
    ensures data.id in ContractByKeyId(keys) && ContractByKeyId(keys)[data.id] == data.contractId.value
  {
    var front, key := keys[..|keys| - 1], keys[|keys| - 1];
    assert keys == front + [key];
    if !(Truthy(key.contractId) && key.id == data.id) {
      ContractRecorded(front, data);
    }
  }

  /** A TTL key belongs to the contract of the key it extends. */
  lemma TtlResolves(keys: seq<Key>, data: Key, ttl: Key)
    requires Identified(keys, data) && ExtendsKey(ttl, data)
    ensures var idOf := Resolve(ContractByKeyId(keys)); idOf(ttl) == idOf(data) == data.contractId.value
  {
    ContractRecorded(keys, data);
  }

  /** So a TTL key is batched with the key it extends if and only if their contract fits in one batch, or no cut
      falls between their places. */
  lemma TtlWithSiblingIff(keys: seq<Key>, maxBatchSize: Option<nat>, data: Key, ttl: Key, p: nat, q: nat)
    requires Identified(keys, data) && ExtendsKey(ttl, data) && ttl in keys
    requires var id := data.contractId.value;
      Distinct(Own(keys, id)) && p < |Ranked(keys, id)| && Ranked(keys, id)[p] == data &&
      q < |Ranked(keys, id)| && Ranked(keys, id)[q] == ttl
    ensures Share(CreateBatches(keys, maxBatchSize), data, ttl) <==>
      |Own(keys, data.contractId.value)| <= EffectiveMax(maxBatchSize) ||
      p / EffectiveMax(maxBatchSize) == q / EffectiveMax(maxBatchSize)
  {
    ShareIff(keys, maxBatchSize, data.contractId.value, p, q);
  }

  /** The places in question exist. */
  lemma SiblingPlaces(keys: seq<Key>, data: Key, ttl: Key) returns (p: nat, q: nat)
    requires Identified(keys, data) && ExtendsKey(ttl, data) && ttl in keys && Distinct(Own(keys, data.contractId.value))
    ensures var ranked := Ranked(keys, data.contractId.value);
      p < |ranked| && ranked[p] == data && q < |ranked| && ranked[q] == ttl
  {
    var id := data.contractId.value;
    TtlResolves(keys, data, ttl);
    FilterMembers(keys, SameId(Resolve(ContractByKeyId(keys)), id));
    RankedFacts(keys, id);
    assert data in multiset(Ranked(keys, id)) && ttl in multiset(Ranked(keys, id));
    p :| 0 <= p < |Ranked(keys, id)| && Ranked(keys, id)[p] == data;
    q :| 0 <= q < |Ranked(keys, id)| && Ranked(keys, id)[q] == ttl;
  }

  /** Separated: a contract of three keys, two to a batch, with another data key between the two. */
  lemma TtlSeparated(data: Key, other: Key, ttl: Key)
    requires Truthy(data.contractId) && other.contractId == data.contractId && ExtendsKey(ttl, data)
    requires other.id != data.id && data.restorePriority <= other.restorePriority <= ttl.restorePriority
    ensures !Share(CreateBatches([data, other, ttl], Some(2)), data, ttl)
  {
    ThreeRanked(data, other, ttl);
    ShareIff([data, other, ttl], Some(2), data.contractId.value, 0, 2);
  }

  lemma ThreeRanked(data: Key, other: Key, ttl: Key)
    requires Truthy(data.contractId) && other.contractId == data.contractId && ExtendsKey(ttl, data)
    requires other.id != data.id && data.restorePriority <= other.restorePriority <= ttl.restorePriority
    ensures var keys, id := [data, other, ttl], data.contractId.value;
      Own(keys, id) == keys && Ranked(keys, id) == keys && Distinct(Own(keys, id))
  {
    var keys, id := [data, other, ttl], data.contractId.value;
    TtlResolves(keys, data, ttl);
    FilterAll(keys, SameId(Resolve(ContractByKeyId(keys)), id));
    StableSortIdempotent(keys, Priority());
  }
}
