/** What classification reads off the parsed key, and what the concurrent batches are in terms of it. */
module KeyClassification {
  import opened Seqs
  import opened Keys
  import opened Grouping
  import opened GreedyBatching
  import opened RestorePipeline

  /** What an entry belongs to: contract data to its contract, code to its hash, nothing else to anything. */
  function Owner(entry: LedgerEntry): Option<string> {
    match entry
    case ContractData(contract, _) => contract
    case ContractCode(hash) => Some(hash)
    case _ => None
  }

  ghost predicate TypeFollows(keyType: KeyType, entry: LedgerEntry) {
    (keyType == ContractInstanceKey <==> entry.ContractData? && entry.isInstance) &&
    (keyType == ContractDataKey <==> entry.ContractData? && !entry.isInstance) &&
    (keyType == ContractCodeKey <==> entry.ContractCode?) &&
    (keyType == LiquidityPoolKey <==> entry.LiquidityPool?) &&
    (keyType == ClaimableBalanceKey <==> entry.ClaimableBalance?) &&
    (keyType == TtlEntryKey <==> entry.Ttl?)
  }

  /** The default priority: instances, then code, then data, then the rest. */
  ghost predicate DefaultFor(priority: int, entry: LedgerEntry) {
    match entry
    case ContractData(_, isInstance) => priority == if isInstance then 0 else 2
    case ContractCode(_) => priority == 1
    case _ => priority == 3
  }

  /** A classified key is one of the given keys, and its contract, type and priority follow its parsed entry and the
      priority map. */
  lemma ClassifiedFollowsEntry(keys: seq<ArchivedKey>, priorities: PriorityMap, k: ArchivedKey)
    requires k in Classify(keys, priorities)
    ensures exists i :: 0 <= i < |keys| && keys[i].key == k.key && keys[i].keyBase64 == k.keyBase64
    ensures k.contractId == Owner(k.key.entry)
    ensures TypeFollows(k.keyType, k.key.entry)
    ensures if k.keyType in priorities then k.restorePriority == priorities[k.keyType]
            else DefaultFor(k.restorePriority, k.key.entry)
  {
    var mapped := Map(keys, Reclassify(priorities));
    StableSortSorts(mapped, Priority());
    ClassifiedMember(keys, priorities, k);
    assert k in multiset(mapped);
    var i :| 0 <= i < |mapped| && mapped[i] == k;
    assert keys[i].key == k.key && keys[i].keyBase64 == k.keyBase64;
  }

  // ---- Batches in terms of entries ----

  /** Batch `i` of the concurrent batches holds `k`. */
  ghost predicate InBatch(limits: Limits, keys: seq<ArchivedKey>, priorities: PriorityMap, i: int, k: ArchivedKey) {
    0 <= i < |ConcurrentBatches(limits, keys, priorities)| && k in ConcurrentBatches(limits, keys, priorities)[i]
  }

  lemma BatchMember(limits: Limits, keys: seq<ArchivedKey>, priorities: PriorityMap, i: nat, k: ArchivedKey)
    requires InBatch(limits, keys, priorities, i, k)
    ensures k in Classify(keys, priorities)
    ensures var b := ConcurrentBatches(limits, keys, priorities)[i]; b != [] && GroupId()(b[0]) == GroupId()(k)
    ensures GroupId()(k) == if Owner(k.key.entry).Some? then Owner(k.key.entry).value else UNKNOWN_GROUP
  {
    var batches := ConcurrentBatches(limits, keys, priorities);
    ConcurrentBatchesFacts(limits, keys, priorities, "");
    FlattenMembers(batches, i);
    assert k in multiset(Flatten(batches));
    ClassifiedFollowsEntry(keys, priorities, k);
    var n :| 0 <= n < |batches[i]| && batches[i][n] == k;
    assert AllOf(batches[i], GroupId()(batches[i][0]));
  }

  /** The keys of one batch have one owner, unless each of them has none or one called like the group of those
      without. */
  lemma OneOwnerPerBatch(limits: Limits, keys: seq<ArchivedKey>, priorities: PriorityMap, i: nat, a: ArchivedKey, b: ArchivedKey)
    requires InBatch(limits, keys, priorities, i, a) && InBatch(limits, keys, priorities, i, b)
    ensures Owner(a.key.entry) == Owner(b.key.entry) ||
      (Owner(a.key.entry) in {None, Some(UNKNOWN_GROUP)} && Owner(b.key.entry) in {None, Some(UNKNOWN_GROUP)})
  {
    BatchMember(limits, keys, priorities, i, a);
    BatchMember(limits, keys, priorities, i, b);
  }

  /** So contract-data keys of one batch name the same contract. */
  lemma OneContractPerBatch(limits: Limits, keys: seq<ArchivedKey>, priorities: PriorityMap, i: nat, a: ArchivedKey, b: ArchivedKey)
    requires InBatch(limits, keys, priorities, i, a) && InBatch(limits, keys, priorities, i, b)
    requires a.key.entry.ContractData? && b.key.entry.ContractData?
    requires a.key.entry.contract.Some? && a.key.entry.contract.value != UNKNOWN_GROUP
    ensures b.key.entry.contract == a.key.entry.contract
  {
    OneOwnerPerBatch(limits, keys, priorities, i, a, b);
  }

  /** The batches of one owner, its instance and its data alike, stand next to each other. */
  lemma OwnerTogether(limits: Limits, keys: seq<ArchivedKey>, priorities: PriorityMap, i: nat, j: nat, m: nat,
                      a: ArchivedKey, b: ArchivedKey, c: ArchivedKey)
    requires i <= j <= m
    requires InBatch(limits, keys, priorities, i, a) && InBatch(limits, keys, priorities, j, b) && InBatch(limits, keys, priorities, m, c)
    requires Owner(a.key.entry) == Owner(c.key.entry)
    ensures Owner(b.key.entry) == Owner(a.key.entry) ||
      (Owner(a.key.entry) in {None, Some(UNKNOWN_GROUP)} && Owner(b.key.entry) in {None, Some(UNKNOWN_GROUP)})
  {
    var classified := Classify(keys, priorities);
    var groups := GroupBy(classified, GroupId());
    BatchMember(limits, keys, priorities, i, a);
    BatchMember(limits, keys, priorities, j, b);
    BatchMember(limits, keys, priorities, m, c);
    var p := BatchGroup(limits, classified, i);
    var q := BatchGroup(limits, classified, j);
    var r := BatchGroup(limits, classified, m);
    GroupIndexMonotone(limits, groups, i, j);
    GroupIndexMonotone(limits, groups, j, m);
    GroupByFacts(classified, GroupId(), "");
    assert p == r;
  }

  /** Two batches of one group, found again among the batches of that group. */
  lemma {:induction false} FoundAgain(batches: seq<seq<ArchivedKey>>, id: string, i: nat, j: nat) returns (x: nat, y: nat)
    requires i < j < |batches| && batches[i] != [] && batches[j] != []
    requires GroupId()(batches[i][0]) == id && GroupId()(batches[j][0]) == id
    ensures x < y < |BatchesOf(batches, id)| && BatchesOf(batches, id)[x] == batches[i] && BatchesOf(batches, id)[y] == batches[j]
    decreases j
  {
    if i > 0 {
      x, y := FoundAgain(batches[1..], id, i - 1, j - 1);
      if BatchesOf(batches, id) != BatchesOf(batches[1..], id) {
        x, y := x + 1, y + 1;
      }
    } else {
      x := 0;
      y := FoundOne(batches[1..], id, j - 1);
      y := y + 1;
    }
  }

  lemma {:induction false} FoundOne(batches: seq<seq<ArchivedKey>>, id: string, j: nat) returns (y: nat)
    requires j < |batches| && batches[j] != [] && GroupId()(batches[j][0]) == id
    ensures y < |BatchesOf(batches, id)| && BatchesOf(batches, id)[y] == batches[j]
    decreases j
  {
    if j == 0 {
      y := 0;
    } else {
      y := FoundOne(batches[1..], id, j - 1);
      if BatchesOf(batches, id) != BatchesOf(batches[1..], id) {
        y := y + 1;
      }
    }
  }

  /** With the default priorities, a batch that comes before a batch holding the instance of a contract, and itself
      holds data of that contract, holds its instance. */
  lemma InstanceBeforeData(limits: Limits, keys: seq<ArchivedKey>, i: nat, j: nat, a: ArchivedKey, b: ArchivedKey)
    requires i < j && InBatch(limits, keys, map[], i, a) && InBatch(limits, keys, map[], j, b)
    requires a.key.entry.ContractData? && b.key.entry.ContractData? && a.key.entry.contract == b.key.entry.contract
    requires b.key.entry.isInstance
    ensures a.key.entry.isInstance
  {
    var batches, id := ConcurrentBatches(limits, keys, map[]), GroupId()(a);
    BatchMember(limits, keys, map[], i, a);
    BatchMember(limits, keys, map[], j, b);
    var x, y := FoundAgain(batches, id, i, j);
    ClassifiedFollowsEntry(keys, map[], a);
    ClassifiedFollowsEntry(keys, map[], b);
    InstanceFirst(limits, keys, id, x, y, a, b);
  }

  // ---- Order ----

  function KeysOf(archived: seq<ArchivedKey>): seq<LedgerKey> {
    if archived == [] then [] else [archived[0].key] + KeysOf(archived[1..])
  }

  /** A detected key, before anything is known of it. */
  ghost predicate Undecided(k: ArchivedKey, existing: set<string>) {
    k.keyBase64 == k.key.encoding && k.key.encoding !in existing &&
    k.keyType == UnknownKey && k.contractId.None? && k.restorePriority == 3
  }

  /** What is detected stands in the order of the footprint, undecided and not on the ledger. With the multiplicities of
      `DetectFacts` this says which keys they are. */
  lemma {:induction false} DetectedInOrder(footprint: seq<LedgerKey>, existing: set<string>)
    ensures Subsequence(KeysOf(Detect(footprint, existing)), footprint)
    ensures forall k :: k in Detect(footprint, existing) ==> Undecided(k, existing)
  {
    if footprint != [] {
      DetectedInOrder(footprint[1..], existing);
      var rest := Detect(footprint[1..], existing);
      DetectStep([], footprint, existing);
      assert [] + Detect(footprint, existing) == Detect(footprint, existing);
      if footprint[0].encoding in existing {
        assert [] + rest == rest;
      } else {
        var first := Unclassified(footprint[0]);
        assert [] + [first] + rest == [first] + rest && ([first] + rest)[1..] == rest;
        assert KeysOf([first] + rest) == [footprint[0]] + KeysOf(rest);
        assert ([footprint[0]] + KeysOf(rest))[1..] == KeysOf(rest);
      }
    }
  }

  lemma {:induction false} RankInOrder(keys: seq<ArchivedKey>, p: int)
    ensures Subsequence(KeysOf(OfRank(keys, Priority(), p)), KeysOf(keys))
  {
    if keys != [] {
      RankInOrder(keys[1..], p);
      var rest := OfRank(keys[1..], Priority(), p);
      assert KeysOf(keys)[1..] == KeysOf(keys[1..]);
      if keys[0].restorePriority == p {
        assert OfRank(keys, Priority(), p) == [keys[0]] + rest && ([keys[0]] + rest)[1..] == rest;
        assert KeysOf([keys[0]] + rest)[1..] == KeysOf(rest);
      } else {
        assert OfRank(keys, Priority(), p) == [] + rest == rest;
      }
    }
  }

  lemma {:induction false} ReclassifiedKeys(keys: seq<ArchivedKey>, priorities: PriorityMap)
    ensures KeysOf(Map(keys, Reclassify(priorities))) == KeysOf(keys)
  {
    if keys != [] {
      ReclassifiedKeys(keys[1..], priorities);
      assert Map(keys, Reclassify(priorities))[1..] == Map(keys[1..], Reclassify(priorities));
    }
  }

  /** Classified keys are in priority order, those of one priority in the order they were given in. */
  lemma ClassifiedInOrder(keys: seq<ArchivedKey>, priorities: PriorityMap, p: int)
    ensures forall i, j :: 0 <= i < j < |Classify(keys, priorities)| ==>
      Classify(keys, priorities)[i].restorePriority <= Classify(keys, priorities)[j].restorePriority
    ensures Subsequence(KeysOf(OfRank(Classify(keys, priorities), Priority(), p)), KeysOf(keys))
  {
    var mapped := Map(keys, Reclassify(priorities));
    ClassifySorted(keys, priorities);
    var classified := Classify(keys, priorities);
    assert forall i :: 0 <= i < |classified| ==> Priority()(classified[i]) == classified[i].restorePriority;
    StableSortStable(mapped, Priority(), p);
    RankInOrder(mapped, p);
    ReclassifiedKeys(keys, priorities);
  }
}
