/** From a footprint to restore batches: detect, classify, group by contract, cut, number. */
module RestorePipeline {
  import opened Seqs
  import opened Keys
  import opened InsertionMap
  import opened Grouping
  import opened GreedyBatching
  import opened Network
  import opened SequentialRestore

  // ---- Detection and classification ----

  function Absent(existing: set<string>): LedgerKey -> bool { (k: LedgerKey) => k.encoding !in existing }

  function Unclassified(k: LedgerKey): ArchivedKey { ArchivedKey(k, k.encoding, UnknownKey, None, 3) }

  /** The footprint keys that the ledger did not return, in footprint order. */
  function Detect(footprint: seq<LedgerKey>, existing: set<string>): seq<ArchivedKey> {
    Map(Filter(footprint, Absent(existing)), (k: LedgerKey) => Unclassified(k))
  }

  /** `detectArchivedKeys`: no query for an empty footprint, an error when the query fails, and otherwise
      the loop over the footprint. */
  method DetectLoop(footprint: seq<LedgerKey>, queried: Option<set<string>>) returns (r: Option<seq<ArchivedKey>>)
    ensures footprint == [] ==> r == Some([])
    ensures footprint != [] ==> r == if queried.None? then None else Some(Detect(footprint, queried.value))
  {
    if |footprint| == 0 {
      return Some([]);
    }
    if queried.None? {
      return None;
    }
    var archived: seq<ArchivedKey> := [];
    for i := 0 to |footprint|
      invariant archived + Detect(footprint[i..], queried.value) == Detect(footprint, queried.value)
    {
      assert footprint[i..][0] == footprint[i] && footprint[i..][1..] == footprint[i + 1..];
      DetectStep(archived, footprint[i..], queried.value);
      if footprint[i].encoding !in queried.value {
        archived := archived + [Unclassified(footprint[i])];
      }
    }
    assert archived + [] == archived;
    return Some(archived);
  }

  lemma DetectStep(found: seq<ArchivedKey>, footprint: seq<LedgerKey>, existing: set<string>)
    requires footprint != []
    ensures found + Detect(footprint, existing) ==
      (if footprint[0].encoding in existing then found else found + [Unclassified(footprint[0])]) +
      Detect(footprint[1..], existing)
  {
    var rest := Detect(footprint[1..], existing);
    if footprint[0].encoding in existing {
      assert Detect(footprint, existing) == rest;
    } else {
      assert Detect(footprint, existing) == [Unclassified(footprint[0])] + rest;
    }
  }

  type PriorityMap = map<KeyType, int>

  /** `classifyLedgerKey`, with the priority overridden where the map has an entry. */
  function ClassifyKey(key: LedgerKey, keyBase64: string, priorities: PriorityMap): ArchivedKey {
    var (keyType, contractId, priority) :=
      match key.entry
      case ContractData(contract, isInstance) =>
        if isInstance then (ContractInstanceKey, contract, 0) else (ContractDataKey, contract, 2)
      case ContractCode(hash) => (ContractCodeKey, Some(hash), 1)
      case LiquidityPool => (LiquidityPoolKey, None, 3)
      case ClaimableBalance => (ClaimableBalanceKey, None, 3)
      case Ttl => (TtlEntryKey, None, 3)
      case Unrecognised => (UnknownKey, None, 3);
    ArchivedKey(key, keyBase64, keyType, contractId, if keyType in priorities then priorities[keyType] else priority)
  }

  function Priority(): ArchivedKey -> int { (k: ArchivedKey) => k.restorePriority }

  function Reclassify(priorities: PriorityMap): ArchivedKey -> ArchivedKey {
    (k: ArchivedKey) => ClassifyKey(k.key, k.keyBase64, priorities)
  }

  function Classify(keys: seq<ArchivedKey>, priorities: PriorityMap): seq<ArchivedKey> {
    StableSort(Map(keys, Reclassify(priorities)), Priority())
  }

  /** Classifying what is already classified changes nothing, order included. */
  lemma ClassifyIdempotent(keys: seq<ArchivedKey>, priorities: PriorityMap)
    ensures Classify(Classify(keys, priorities), priorities) == Classify(keys, priorities)
  {
    var mapped := Map(keys, Reclassify(priorities));
    var once := StableSort(mapped, Priority());
    StableSortSorts(mapped, Priority());
    forall i | 0 <= i < |once| ensures Reclassify(priorities)(once[i]) == once[i] {
      assert once[i] in multiset(mapped);
      var j :| 0 <= j < |mapped| && mapped[j] == once[i];
    }
    assert Map(once, Reclassify(priorities)) == once;
    StableSortIdempotent(once, Priority());
  }

  // ---- Batches per contract ----

  const UNKNOWN_GROUP := "__unknown__"

  function GroupId(): ArchivedKey -> string {
    (k: ArchivedKey) => if k.contractId.Some? then k.contractId.value else UNKNOWN_GROUP
  }

  function BatchKeyGroups(limits: Limits, groups: Groups<ArchivedKey>): seq<seq<ArchivedKey>> {
    if groups == [] then [] else BatchKeys(limits, groups[0].value) + BatchKeyGroups(limits, groups[1..])
  }

  method BatchKeyGroupsLoop(limits: Limits, groups: Groups<ArchivedKey>) returns (allBatches: seq<seq<ArchivedKey>>)
    ensures allBatches == BatchKeyGroups(limits, groups)
  {
    allBatches := [];
    for i := 0 to |groups|
      invariant allBatches + BatchKeyGroups(limits, groups[i..]) == BatchKeyGroups(limits, groups)
    {
      assert groups[i..][0] == groups[i] && groups[i..][1..] == groups[i + 1..];
      var subBatches := BatchKeysLoop(limits, groups[i].value);
      assert allBatches + (subBatches + BatchKeyGroups(limits, groups[i + 1..])) ==
        (allBatches + subBatches) + BatchKeyGroups(limits, groups[i + 1..]);
      allBatches := allBatches + subBatches;
    }
    assert allBatches + [] == allBatches;
  }

  /** Classify, group by contract, cut each group: the batches meant for concurrent submission. */
  function ConcurrentBatches(limits: Limits, keys: seq<ArchivedKey>, priorities: PriorityMap): seq<seq<ArchivedKey>> {
    BatchKeyGroups(limits, GroupBy(Classify(keys, priorities), GroupId()))
  }

  /** The batches that hold keys of one contract. */
  function BatchesOf(batches: seq<seq<ArchivedKey>>, id: string): seq<seq<ArchivedKey>> {
    if batches == [] then []
    else (if batches[0] != [] && GroupId()(batches[0][0]) == id then [batches[0]] else []) + BatchesOf(batches[1..], id)
  }

  ghost predicate AllOf(keys: seq<ArchivedKey>, id: string) {
    forall i :: 0 <= i < |keys| ==> GroupId()(keys[i]) == id
  }

  lemma {:induction false} FlattenMembers(batches: seq<seq<ArchivedKey>>, i: nat)
    requires i < |batches|
    ensures forall j :: 0 <= j < |batches[i]| ==> batches[i][j] in Flatten(batches)
  {
    if i > 0 {
      FlattenMembers(batches[1..], i - 1);
      assert batches[i] == batches[1..][i - 1];
    }
  }

  lemma {:induction false} BatchesOfAppend(a: seq<seq<ArchivedKey>>, b: seq<seq<ArchivedKey>>, id: string)
    ensures BatchesOf(a + b, id) == BatchesOf(a, id) + BatchesOf(b, id)
  {
    if a == [] {
      assert a + b == b;
    } else {
      var head := if a[0] != [] && GroupId()(a[0][0]) == id then [a[0]] else [];
      assert (a + b)[1..] == a[1..] + b;
      BatchesOfAppend(a[1..], b, id);
      assert head + (BatchesOf(a[1..], id) + BatchesOf(b, id)) == (head + BatchesOf(a[1..], id)) + BatchesOf(b, id);
    }
  }

  lemma {:induction false} BatchesOfUniform(batches: seq<seq<ArchivedKey>>, id: string, other: string)
    requires forall i :: 0 <= i < |batches| ==> batches[i] != [] && AllOf(batches[i], id)
    ensures BatchesOf(batches, other) == if other == id then batches else []
  {
    if batches != [] {
      BatchesOfUniform(batches[1..], id, other);
    }
  }

  /** The cut of one group holds only that group's keys. */
  lemma GroupBatches(limits: Limits, keys: seq<ArchivedKey>, id: string)
    requires AllOf(keys, id)
    ensures var batches := BatchKeys(limits, keys);
      Flatten(batches) == keys && forall i :: 0 <= i < |batches| ==> batches[i] != [] && AllOf(batches[i], id)
  {
    var batches := BatchKeys(limits, keys);
    GreedyIsPartition(limits, true, keys);
    forall i | 0 <= i < |batches| ensures batches[i] != [] && AllOf(batches[i], id) {
      FlattenMembers(batches, i);
    }
  }

  ghost predicate Uniform(groups: Groups<ArchivedKey>) {
    forall i :: 0 <= i < |groups| ==> AllOf(groups[i].value, groups[i].key)
  }

  /** Over all groups: each batch is of one contract, and a contract's batches are the greedy cut of
      that contract's own list. */
  lemma {:induction false} BatchKeyGroupsFacts(limits: Limits, groups: Groups<ArchivedKey>, id: string)
    requires Uniform(groups) && forall i, j :: 0 <= i < j < |groups| ==> groups[i].key != groups[j].key
    ensures BatchesOf(BatchKeyGroups(limits, groups), id) == BatchKeys(limits, Listed(groups, id))
    ensures Flatten(BatchKeyGroups(limits, groups)) == Concatenated(groups)
    ensures forall i :: 0 <= i < |BatchKeyGroups(limits, groups)| ==>
      var b := BatchKeyGroups(limits, groups)[i]; b != [] && AllOf(b, GroupId()(b[0]))
  {
    if groups != [] {
      var g, rest := groups[0], groups[1..];
      BatchKeyGroupsFacts(limits, rest, id);
      GroupBatches(limits, g.value, g.key);
      BatchesOfAppend(BatchKeys(limits, g.value), BatchKeyGroups(limits, rest), id);
      BatchesOfUniform(BatchKeys(limits, g.value), g.key, id);
      FlattenAppend(BatchKeys(limits, g.value), BatchKeyGroups(limits, rest));
      ListedStep(groups, id);
    }
  }

  lemma ListedStep(groups: Groups<ArchivedKey>, id: string)
    requires groups != [] && forall i, j :: 0 <= i < j < |groups| ==> groups[i].key != groups[j].key
    ensures Listed(groups, id) == if groups[0].key == id then groups[0].value else Listed(groups[1..], id)
    ensures groups[0].key == id ==> Listed(groups[1..], id) == []
  {
    var i, j := IndexOf(groups, id), IndexOf(groups[1..], id);
    assert j < |groups[1..]| ==> groups[j + 1] == groups[1..][j];
    assert 0 < i < |groups| ==> groups[i] == groups[1..][i - 1];
  }

  // ---- Conservation and order, end to end ----

  /** Nothing is lost or repeated, every batch is of one contract, and each contract's batches are the
      greedy cut of its keys in priority order. */
  lemma ConcurrentBatchesFacts(limits: Limits, keys: seq<ArchivedKey>, priorities: PriorityMap, id: string)
    ensures var classified, batches := Classify(keys, priorities), ConcurrentBatches(limits, keys, priorities);
      multiset(Flatten(batches)) == multiset(classified) &&
      BatchesOf(batches, id) == BatchKeys(limits, Filter(classified, SameId(GroupId(), id))) &&
      forall i :: 0 <= i < |batches| ==> batches[i] != [] && AllOf(batches[i], GroupId()(batches[i][0]))
  {
    var classified := Classify(keys, priorities);
    var groups := GroupBy(classified, GroupId());
    GroupByFacts(classified, GroupId(), id);
    forall i | 0 <= i < |groups| ensures AllOf(groups[i].value, groups[i].key) {
      GroupByFacts(classified, GroupId(), groups[i].key);
      LookupByIndex(groups, groups[i].key);
      FilterMembers(classified, SameId(GroupId(), groups[i].key));
      assert forall j :: 0 <= j < |groups[i].value| ==> groups[i].value[j] in groups[i].value;
    }
    BatchKeyGroupsFacts(limits, groups, id);
    GroupByConserves(classified, GroupId());
  }

  lemma {:induction false} FilterSorted(keys: seq<ArchivedKey>, p: ArchivedKey -> bool)
    requires SortedBy(keys, Priority())
    ensures SortedBy(Filter(keys, p), Priority())
  {
    if keys != [] {
      FilterSorted(keys[1..], p);
      FilterMembers(keys[1..], p);
      var rest := Filter(keys[1..], p);
      assert forall i :: 0 <= i < |rest| ==> rest[i] in rest && rest[i] in keys[1..];
    }
  }

  lemma SortedConcat(x: seq<ArchivedKey>, y: seq<ArchivedKey>, a: ArchivedKey, b: ArchivedKey)
    requires SortedBy(x + y, Priority()) && a in x && b in y
    ensures a.restorePriority <= b.restorePriority
  {
    var i :| 0 <= i < |x| && x[i] == a;
    var j :| 0 <= j < |y| && y[j] == b;
    assert Priority()((x + y)[i]) <= Priority()((x + y)[|x| + j]);
  }

  lemma SortedTail(x: seq<ArchivedKey>, y: seq<ArchivedKey>)
    requires SortedBy(x + y, Priority())
    ensures SortedBy(y, Priority())
  {
    assert forall i :: 0 <= i < |y| ==> y[i] == (x + y)[|x| + i];
  }

  lemma {:induction false} SortedCut(batches: seq<seq<ArchivedKey>>, i: nat, j: nat, a: ArchivedKey, b: ArchivedKey)
    requires SortedBy(Flatten(batches), Priority())
    requires i < j < |batches| && a in batches[i] && b in batches[j]
    ensures a.restorePriority <= b.restorePriority
    decreases i
  {
    if i == 0 {
      FlattenMembers(batches[1..], j - 1);
      SortedConcat(batches[0], Flatten(batches[1..]), a, b);
    } else {
      SortedTail(batches[0], Flatten(batches[1..]));
      SortedCut(batches[1..], i - 1, j - 1, a, b);
    }
  }

  /** Across one contract's consecutive batches the priority never goes down. */
  lemma PriorityOrder(limits: Limits, keys: seq<ArchivedKey>, priorities: PriorityMap, id: string,
                      i: nat, j: nat, a: ArchivedKey, b: ArchivedKey)
    requires var cut := BatchesOf(ConcurrentBatches(limits, keys, priorities), id);
      i < j < |cut| && a in cut[i] && b in cut[j]
    ensures a.restorePriority <= b.restorePriority
  {
    var classified := Classify(keys, priorities);
    var own := Filter(classified, SameId(GroupId(), id));
    ConcurrentBatchesFacts(limits, keys, priorities, id);
    StableSortSorts(Map(keys, Reclassify(priorities)), Priority());
    FilterSorted(classified, SameId(GroupId(), id));
    GreedyIsPartition(limits, true, own);
    SortedCut(BatchKeys(limits, own), i, j, a, b);
  }

  lemma ClassifiedMember(keys: seq<ArchivedKey>, priorities: PriorityMap, k: ArchivedKey)
    requires k in Classify(keys, priorities)
    ensures k == Reclassify(priorities)(k)
  {
    var mapped := Map(keys, Reclassify(priorities));
    StableSortSorts(mapped, Priority());
    assert k in multiset(mapped);
    var j :| 0 <= j < |mapped| && mapped[j] == k;
  }

  lemma CutMember(limits: Limits, keys: seq<ArchivedKey>, priorities: PriorityMap, id: string, i: nat, a: ArchivedKey)
    requires var cut := BatchesOf(ConcurrentBatches(limits, keys, priorities), id); i < |cut| && a in cut[i]
    ensures a == Reclassify(priorities)(a)
  {
    var classified := Classify(keys, priorities);
    var own := Filter(classified, SameId(GroupId(), id));
    ConcurrentBatchesFacts(limits, keys, priorities, id);
    GreedyIsPartition(limits, true, own);
    FlattenMembers(BatchKeys(limits, own), i);
    FilterMembers(classified, SameId(GroupId(), id));
    ClassifiedMember(keys, priorities, a);
  }

  /** With the default priorities a contract's instance is never in a later batch than its data. */
  lemma InstanceFirst(limits: Limits, keys: seq<ArchivedKey>, id: string, i: nat, j: nat, a: ArchivedKey, b: ArchivedKey)
    requires var cut := BatchesOf(ConcurrentBatches(limits, keys, map[]), id);
      i < j < |cut| && a in cut[i] && b in cut[j]
    requires b.keyType == ContractInstanceKey
    ensures a.keyType == ContractInstanceKey
  {
    PriorityOrder(limits, keys, map[], id, i, j, a, b);
    CutMember(limits, keys, map[], id, i, a);
    CutMember(limits, keys, map[], id, j, b);
  }

  // ---- Order across contracts ----

  /** The group that batch `m` is cut from. */
  function GroupIndex(limits: Limits, groups: Groups<ArchivedKey>, m: nat): (p: nat)
    requires m < |BatchKeyGroups(limits, groups)|
    ensures p < |groups|
    decreases |groups|
  {
    var n := |BatchKeys(limits, groups[0].value)|;
    if m < n then 0 else 1 + GroupIndex(limits, groups[1..], m - n)
  }

  lemma {:induction false} GroupIndexFacts(limits: Limits, groups: Groups<ArchivedKey>, m: nat)
    requires Uniform(groups) && m < |BatchKeyGroups(limits, groups)|
    ensures var b := BatchKeyGroups(limits, groups)[m];
      b != [] && GroupId()(b[0]) == groups[GroupIndex(limits, groups, m)].key
    decreases |groups|
  {
    var n := |BatchKeys(limits, groups[0].value)|;
    GroupBatches(limits, groups[0].value, groups[0].key);
    if m >= n {
      GroupIndexFacts(limits, groups[1..], m - n);
    }
  }

  lemma {:induction false} GroupIndexMonotone(limits: Limits, groups: Groups<ArchivedKey>, i: nat, j: nat)
    requires i <= j < |BatchKeyGroups(limits, groups)|
    ensures GroupIndex(limits, groups, i) <= GroupIndex(limits, groups, j)
    decreases |groups|
  {
    var n := |BatchKeys(limits, groups[0].value)|;
    if i >= n {
      GroupIndexMonotone(limits, groups[1..], i - n, j - n);
    }
  }

  /** The smallest priority number among the classified keys of a group, which is that of its first key. */
  function Urgency(classified: seq<ArchivedKey>, id: string): int {
    var own := Filter(classified, SameId(GroupId(), id));
    if own == [] then 0 else own[0].restorePriority
  }

  lemma UniformGroups(classified: seq<ArchivedKey>)
    ensures Uniform(GroupBy(classified, GroupId()))
  {
    var groups := GroupBy(classified, GroupId());
    forall i | 0 <= i < |groups| ensures AllOf(groups[i].value, groups[i].key) {
      GroupMembers(classified, GroupId(), i);
      assert forall j :: 0 <= j < |groups[i].value| ==> groups[i].value[j] in groups[i].value;
    }
  }

  function GroupOf(batches: seq<seq<ArchivedKey>>, i: nat): string {
    if i < |batches| && batches[i] != [] then GroupId()(batches[i][0]) else ""
  }

  /** What batch `m` is cut from. */
  lemma BatchGroup(limits: Limits, classified: seq<ArchivedKey>, m: nat) returns (p: nat)
    requires m < |BatchKeyGroups(limits, GroupBy(classified, GroupId()))|
    ensures var groups := GroupBy(classified, GroupId());
      p == GroupIndex(limits, groups, m) && p < |groups| && groups[p].value != [] &&
      BatchKeyGroups(limits, groups)[m] != [] && GroupOf(BatchKeyGroups(limits, groups), m) == groups[p].key &&
      groups[p].value == Filter(classified, SameId(GroupId(), groups[p].key))
  {
    var groups := GroupBy(classified, GroupId());
    UniformGroups(classified);
    GroupIndexFacts(limits, groups, m);
    p := GroupIndex(limits, groups, m);
    GroupMembers(classified, GroupId(), p);
  }

  lemma GroupUrgency(classified: seq<ArchivedKey>, p: nat)
    requires p < |GroupBy(classified, GroupId())|
    ensures var g := GroupBy(classified, GroupId())[p];
      g.value != [] && Urgency(classified, g.key) == Priority()(g.value[0])
  {
    GroupMembers(classified, GroupId(), p);
  }

  lemma GroupsInUrgencyOrder(classified: seq<ArchivedKey>, p: nat, q: nat)
    requires SortedBy(classified, Priority()) && p <= q < |GroupBy(classified, GroupId())|
    ensures var groups := GroupBy(classified, GroupId());
      Urgency(classified, groups[p].key) <= Urgency(classified, groups[q].key)
  {
    if p < q {
      GroupUrgency(classified, p);
      GroupUrgency(classified, q);
      GroupsInRankOrder(classified, GroupId(), Priority(), p, q);
    }
  }

  lemma SortedGroupOrder(limits: Limits, classified: seq<ArchivedKey>, i: nat, j: nat)
    requires SortedBy(classified, Priority()) && i < j < |BatchKeyGroups(limits, GroupBy(classified, GroupId()))|
    ensures var batches := BatchKeyGroups(limits, GroupBy(classified, GroupId()));
      Urgency(classified, GroupOf(batches, i)) <= Urgency(classified, GroupOf(batches, j))
  {
    var p := BatchGroup(limits, classified, i);
    var q := BatchGroup(limits, classified, j);
    GroupIndexMonotone(limits, GroupBy(classified, GroupId()), i, j);
    GroupsInUrgencyOrder(classified, p, q);
  }

  lemma ClassifySorted(keys: seq<ArchivedKey>, priorities: PriorityMap)
    ensures SortedBy(Classify(keys, priorities), Priority())
  {
    StableSortSorts(Map(keys, Reclassify(priorities)), Priority());
  }

  /** Across all concurrent batches, the contracts come in the order of their most urgent keys. */
  lemma ContractOrder(limits: Limits, keys: seq<ArchivedKey>, priorities: PriorityMap, i: nat, j: nat)
    requires i < j < |ConcurrentBatches(limits, keys, priorities)|
    ensures var classified, batches := Classify(keys, priorities), ConcurrentBatches(limits, keys, priorities);
      Urgency(classified, GroupOf(batches, i)) <= Urgency(classified, GroupOf(batches, j))
  {
    ClassifySorted(keys, priorities);
    SortedGroupOrder(limits, Classify(keys, priorities), i, j);
  }

  ghost predicate HasInstance(classified: seq<ArchivedKey>, id: string) {
    exists k :: k in classified && GroupId()(k) == id && k.keyType == ContractInstanceKey
  }

  /** Sorted, with priorities of which zero is the instances' own. */
  ghost predicate InstancesLead(classified: seq<ArchivedKey>) {
    SortedBy(classified, Priority()) &&
    forall k :: k in classified ==> DefaultPriority(k)
  }

  lemma UrgentIsInstance(classified: seq<ArchivedKey>, id: string)
    requires InstancesLead(classified) && Filter(classified, SameId(GroupId(), id)) != []
    ensures HasInstance(classified, id) <==> Urgency(classified, id) == 0
    ensures Urgency(classified, id) >= 0
  {
    var own := Filter(classified, SameId(GroupId(), id));
    FilterMembers(classified, SameId(GroupId(), id));
    FilterSorted(classified, SameId(GroupId(), id));
    assert own[0] in own && own[0] in classified;
    if k :| k in classified && GroupId()(k) == id && k.keyType == ContractInstanceKey {
      assert k in own;
      var n :| 0 <= n < |own| && own[n] == k;
      assert Priority()(own[0]) <= Priority()(own[n]);
    }
  }

  predicate DefaultPriority(k: ArchivedKey) {
    k.restorePriority >= 0 && (k.restorePriority == 0 <==> k.keyType == ContractInstanceKey)
  }

  lemma DefaultPriorities(keys: seq<ArchivedKey>, k: ArchivedKey)
    requires k in Classify(keys, map[])
    ensures DefaultPriority(k)
  {
    ClassifiedMember(keys, map[], k);
  }

  lemma DefaultInstancesLead(keys: seq<ArchivedKey>)
    ensures InstancesLead(Classify(keys, map[]))
  {
    var classified := Classify(keys, map[]);
    ClassifySorted(keys, map[]);
    forall k | k in classified ensures DefaultPriority(k) {
      DefaultPriorities(keys, k);
    }
  }

  /** With the default priorities every batch of a group that holds an instance comes before every batch of a
      group that holds none, such as the code, which is grouped under its own hash. */
  lemma InstanceGroupsFirst(limits: Limits, keys: seq<ArchivedKey>, i: nat, j: nat)
    requires i < j < |ConcurrentBatches(limits, keys, map[])|
    ensures var classified, batches := Classify(keys, map[]), ConcurrentBatches(limits, keys, map[]);
      HasInstance(classified, GroupOf(batches, j)) ==> HasInstance(classified, GroupOf(batches, i))
  {
    var classified := Classify(keys, map[]);
    DefaultInstancesLead(keys);
    SortedGroupOrder(limits, classified, i, j);
    var p := BatchGroup(limits, classified, i);
    var q := BatchGroup(limits, classified, j);
    UrgentIsInstance(classified, GroupBy(classified, GroupId())[p].key);
    UrgentIsInstance(classified, GroupBy(classified, GroupId())[q].key);
  }

  // ---- What the batches name ----

  function Encodings(keys: seq<ArchivedKey>): seq<string> {
    if keys == [] then [] else [keys[0].key.encoding] + Encodings(keys[1..])
  }

  lemma {:induction false} EncodingsAppend(a: seq<ArchivedKey>, b: seq<ArchivedKey>)
    ensures Encodings(a + b) == Encodings(a) + Encodings(b)
  {
    if a == [] {
      assert a + b == b;
    } else {
      var head := [a[0].key.encoding];
      assert (a + b)[1..] == a[1..] + b;
      EncodingsAppend(a[1..], b);
      assert head + (Encodings(a[1..]) + Encodings(b)) == (head + Encodings(a[1..])) + Encodings(b);
    }
  }

  /** The encodings, with multiplicity. */
  function Named(keys: seq<ArchivedKey>): multiset<string> {
    if keys == [] then multiset{} else multiset{keys[0].key.encoding} + Named(keys[1..])
  }

  lemma {:induction false} NamedEncodings(keys: seq<ArchivedKey>)
    ensures Named(keys) == multiset(Encodings(keys))
  {
    if keys != [] {
      NamedEncodings(keys[1..]);
    }
  }

  lemma {:induction false} RemovedNamed(keys: seq<ArchivedKey>, i: nat)
    requires i < |keys|
    ensures Named(keys) == multiset{keys[i].key.encoding} + Named(Removed(keys, i))
  {
    if i == 0 {
      assert Removed(keys, i) == keys[1..];
    } else {
      RemovedNamed(keys[1..], i - 1);
      assert Removed(keys, i)[0] == keys[0] && Removed(keys, i)[1..] == Removed(keys[1..], i - 1);
    }
  }

  lemma {:induction false} NamedPermuted(a: seq<ArchivedKey>, b: seq<ArchivedKey>)
    requires multiset(a) == multiset(b)
    ensures Named(a) == Named(b)
    decreases |a|
  {
    if a == [] {
      assert |b| == |multiset(b)| == 0;
    } else {
      assert a[0] in multiset(b);
      var i :| 0 <= i < |b| && b[i] == a[0];
      RemovedElements(a, 0);
      RemovedElements(b, i);
      RemovedNamed(a, 0);
      RemovedNamed(b, i);
      NamedPermuted(Removed(a, 0), Removed(b, i));
    }
  }

  lemma {:induction false} ReclassifyNamed(keys: seq<ArchivedKey>, priorities: PriorityMap)
    ensures Named(Map(keys, Reclassify(priorities))) == Named(keys)
  {
    if keys != [] {
      ReclassifyNamed(keys[1..], priorities);
      assert Map(keys, Reclassify(priorities))[1..] == Map(keys[1..], Reclassify(priorities));
    }
  }

  lemma ClassifyNamed(keys: seq<ArchivedKey>, priorities: PriorityMap)
    ensures Named(Classify(keys, priorities)) == Named(keys)
  {
    var mapped := Map(keys, Reclassify(priorities));
    StableSortSorts(mapped, Priority());
    NamedPermuted(Classify(keys, priorities), mapped);
    ReclassifyNamed(keys, priorities);
  }

  /** How often the footprint names an encoding the ledger did not return. */
  function Missing(footprint: seq<LedgerKey>, existing: set<string>, e: string): nat {
    if footprint == [] || e in existing then 0
    else (if footprint[0].encoding == e then 1 else 0) + Missing(footprint[1..], existing, e)
  }

  /** What is detected are the footprint's encodings that the ledger did not return, each as often. */
  lemma {:induction false} DetectFacts(footprint: seq<LedgerKey>, existing: set<string>)
    ensures forall e :: Named(Detect(footprint, existing))[e] == Missing(footprint, existing, e)
  {
    if footprint != [] {
      DetectFacts(footprint[1..], existing);
      var rest := Detect(footprint[1..], existing);
      if footprint[0].encoding !in existing {
        assert Detect(footprint, existing) == [Unclassified(footprint[0])] + rest;
        assert Detect(footprint, existing)[1..] == rest;
      } else {
        assert Detect(footprint, existing) == rest;
      }
    }
  }

  /** From the footprint to the concurrent batches: every missing entry is named exactly as often as in
      the footprint, and nothing else is named. */
  lemma PipelineConserves(limits: Limits, footprint: seq<LedgerKey>, existing: set<string>, priorities: PriorityMap)
    ensures var batches := ConcurrentBatches(limits, Detect(footprint, existing), priorities);
      forall e :: Named(Flatten(batches))[e] == Missing(footprint, existing, e)
  {
    var keys := Detect(footprint, existing);
    DetectFacts(footprint, existing);
    ClassifyNamed(keys, priorities);
    ConcurrentBatchesFacts(limits, keys, priorities, "");
    NamedPermuted(Flatten(ConcurrentBatches(limits, keys, priorities)), Classify(keys, priorities));
  }
}
