/** Numbering the batches of a restore, and the whole way from archived keys to the ledger. */
module RestorePlan {
  import opened Seqs
  import opened Keys
  import opened GreedyBatching
  import opened RestorePipeline
  import opened Network
  import opened SequentialRestore
  import opened RestoreReceipts
  import opened RestoreGuards
  import opened SequenceRecovery

  /** Batch `i` names its keys and takes the `i`-th sequence number after the account's. With a fee
      sponsor the transaction is wrapped. */
  function Plan(batches: seq<seq<ArchivedKey>>, sequence: int, sponsored: bool): (r: seq<Batch>)
    ensures |r| == |batches|
    ensures forall i :: 0 <= i < |r| ==> r[i] == PlannedBatch(batches[i], i, sequence, sponsored)
  {
    seq(|batches|, i requires 0 <= i < |batches| => PlannedBatch(batches[i], i, sequence, sponsored))
  }

  function PlannedBatch(keys: seq<ArchivedKey>, i: int, sequence: int, sponsored: bool): Batch {
    Batch(i, Transaction(Encodings(keys), sequence + 1 + i, if sponsored then Wrapped else Plain), |keys|, Pending, None, None)
  }

  /** `buildRestoreTransactionBatches`: rejects an empty list and a failed account read, and otherwise
      walks the batches with a running sequence number. */
  method BuildBatches(archived: seq<ArchivedKey>, priorities: PriorityMap, config: Config, fee: nat -> int,
                      account: Option<int>, sponsored: bool) returns (r: Outcome<seq<Batch>>)
    ensures r == if archived == [] || account.None? then Threw
      else Returned(Plan(BatchKeys(SdkLimits(config, fee), Classify(archived, priorities)), account.value, sponsored))
  {
    if |archived| == 0 {
      return Threw;
    }
    var batches := BatchKeysLoop(SdkLimits(config, fee), Classify(archived, priorities));
    if account.None? {
      return Threw;
    }
    var currentSequence := account.value;
    var results: seq<Batch> := [];
    for i := 0 to |batches|
      invariant |results| == i && currentSequence == account.value + i
      invariant forall j :: 0 <= j < i ==> results[j] == PlannedBatch(batches[j], j, account.value, sponsored)
    {
      var accountSequence := currentSequence;
      currentSequence := currentSequence + 1;
      var form := if sponsored then Wrapped else Plain;
      results := results + [
        Batch(i, Transaction(Encodings(batches[i]), accountSequence + 1, form), |batches[i]|, Pending, None, None)];
    }
    assert results == Plan(batches, account.value, sponsored);
    return Returned(results);
  }

  /** A plan is numbered without gaps, is in index order without repeated indices, and nothing in it has been sent. */
  lemma PlanFacts(batches: seq<seq<ArchivedKey>>, sequence: int, sponsored: bool)
    ensures var p := Plan(batches, sequence, sponsored);
      Consecutive(p, sequence) && DistinctIndices(p) && SortedBy(p, ByIndex()) && Unsent(p) && (!sponsored ==> AllPlain(p))
  {
  }

  lemma {:induction false} EncodingsAt(keys: seq<ArchivedKey>)
    ensures |Encodings(keys)| == |keys| && forall j :: 0 <= j < |keys| ==> Encodings(keys)[j] == keys[j].key.encoding
  {
    if keys != [] {
      EncodingsAt(keys[1..]);
    }
  }

  /** A planned batch names its keys in their order, counts them, and is numbered by its place. */
  ghost predicate NamesItsKeys(b: Batch, keys: seq<ArchivedKey>, i: int, sequence: int) {
    b.batchIndex == i && b.tx.sequence == sequence + i + 1 &&
    b.keysRestored == |b.tx.footprint| == |keys| &&
    forall j :: 0 <= j < |keys| ==> b.tx.footprint[j] == keys[j].key.encoding
  }

  lemma {:induction false} PlannedCount(batches: seq<seq<ArchivedKey>>, planned: seq<Batch>)
    requires |planned| == |batches| && forall i :: 0 <= i < |planned| ==> planned[i].keysRestored == |batches[i]|
    ensures KeyCount(planned) == |Flatten(batches)|
  {
    if batches != [] {
      assert forall i :: 0 <= i < |batches| - 1 ==> planned[1..][i] == planned[i + 1] && batches[1..][i] == batches[i + 1];
      PlannedCount(batches[1..], planned[1..]);
    }
  }

  /** Every batch of a plan does so, and together they count every key. */
  lemma PlanCounts(batches: seq<seq<ArchivedKey>>, sequence: int, sponsored: bool)
    ensures var p := Plan(batches, sequence, sponsored);
      (forall i :: 0 <= i < |batches| ==> NamesItsKeys(p[i], batches[i], i, sequence)) && KeyCount(p) == |Flatten(batches)|
  {
    var p := Plan(batches, sequence, sponsored);
    forall i | 0 <= i < |batches| ensures NamesItsKeys(p[i], batches[i], i, sequence) {
      EncodingsAt(batches[i]);
    }
    PlannedCount(batches, p);
  }

  lemma {:induction false} PlanNames(batches: seq<seq<ArchivedKey>>, planned: seq<Batch>)
    requires |planned| == |batches|
    requires forall i :: 0 <= i < |planned| ==> planned[i].tx.footprint == Encodings(batches[i])
    ensures Flatten(Footprints(planned)) == Encodings(Flatten(batches))
  {
    if batches != [] {
      assert forall i :: 0 <= i < |batches| - 1 ==> planned[1..][i] == planned[i + 1] && batches[1..][i] == batches[i + 1];
      PlanNames(batches[1..], planned[1..]);
      EncodingsAppend(batches[0], Flatten(batches[1..]));
      assert Footprints(planned)[1..] == Footprints(planned[1..]);
    }
  }

  lemma {:induction false} FirstEncoding(batches: seq<seq<ArchivedKey>>, planned: seq<Batch>, j: nat)
    requires |planned| == |batches| && j < |batches| && batches[j] != []
    requires forall i :: 0 <= i < |planned| ==> planned[i].tx.footprint == Encodings(batches[i])
    ensures planned[j].tx.footprint != [] && planned[j].tx.footprint[0] in Encodings(Flatten(batches))
  {
    EncodingsAppend(batches[0], Flatten(batches[1..]));
    if j > 0 {
      FirstEncoding(batches[1..], planned[1..], j - 1);
    }
  }

  lemma {:induction false} SplitDistinct(own: seq<string>, others: seq<string>)
    requires own != [] && var all := own + others; Distinct(all)
    ensures Distinct(others) && own[0] !in others
  {
    var all := own + others;
    forall i | 0 <= i < |others| ensures others[i] != own[0] {
      assert all[0] != all[|own| + i];
    }
    forall i, j | 0 <= i < j < |others| ensures others[i] != others[j] {
      assert all[|own| + i] != all[|own| + j];
    }
  }

  ghost predicate NamesDiffer(batches: seq<seq<ArchivedKey>>) { Distinct(Encodings(Flatten(batches))) }

  /** Planned footprints differ when no key is named twice. */
  lemma {:induction false} FootprintsDiffer(batches: seq<seq<ArchivedKey>>, planned: seq<Batch>)
    requires |planned| == |batches| && forall i :: 0 <= i < |planned| ==> planned[i].tx.footprint == Encodings(batches[i])
    requires forall i :: 0 <= i < |batches| ==> batches[i] != []
    requires NamesDiffer(batches)
    ensures DistinctFootprints(planned)
  {
    if batches != [] {
      var own, others := Encodings(batches[0]), Encodings(Flatten(batches[1..]));
      EncodingsAppend(batches[0], Flatten(batches[1..]));
      FirstEncoding(batches, planned, 0);
      SplitDistinct(own, others);
      FootprintsDiffer(batches[1..], planned[1..]);
      forall j | 0 < j < |planned| ensures planned[j].tx.footprint != own {
        FirstEncoding(batches[1..], planned[1..], j - 1);
        assert planned[1..][j - 1] == planned[j];
      }
      HeadDiffers(planned);
    }
  }

  lemma {:induction false} HeadDiffers(planned: seq<Batch>)
    requires planned != [] && DistinctFootprints(planned[1..])
    requires forall j :: 0 < j < |planned| ==> planned[j].tx.footprint != planned[0].tx.footprint
    ensures DistinctFootprints(planned)
  {
    var all := Footprints(planned);
    forall j | 0 < j < |all| ensures all[j] != all[0] {
      FootprintsLength(planned);
      FootprintAt(planned, j);
    }
    assert all[1..] == Footprints(planned[1..]);
    forall i, j | 0 <= i < j < |all| ensures all[i] != all[j] {
      assert i > 0 ==> all[1..][i - 1] == all[i] && all[1..][j - 1] == all[j];
    }
  }

  lemma {:induction false} FlattenFootprints(a: seq<Footprint>, b: seq<Footprint>)
    ensures multiset(Flatten(a + b)) == multiset(Flatten(a)) + multiset(Flatten(b))
  {
    FlattenAppend(a, b);
  }

  /** The whole way: while no other submitter moves the account, running the plan for the archived keys
      needs no refresh, succeeds, and lands each archived key exactly as often as it was given. */
  lemma EndToEnd(archived: seq<ArchivedKey>, priorities: PriorityMap, limits: Limits, source: bool, l: Ledger, w: World)
    requires Prompt(w) && Still(w, l.submissions, |BatchKeys(limits, Classify(archived, priorities))|)
    ensures var planned := Plan(BatchKeys(limits, Classify(archived, priorities)), l.sequence, false);
      var e := Run(planned, source, false, l, w);
      e.end.Completed? && e.refreshes == 0 &&
      multiset(Flatten(e.ledger.landed)) == multiset(Flatten(l.landed)) + Named(archived)
  {
    var classified := Classify(archived, priorities);
    var batches := BatchKeys(limits, classified);
    var planned := Plan(batches, l.sequence, false);
    PlanFacts(batches, l.sequence, false);
    NeverStale(planned, l, w);
    RunPhases(planned, source, false, l, w);
    GreedyIsPartition(limits, true, classified);
    PlanNames(batches, planned);
    ClassifyNamed(archived, priorities);
    NamedEncodings(classified);
    FlattenFootprints(l.landed, Footprints(planned));
  }

  /** With a fee sponsor nothing is restored, whatever the network does: the wrapped transactions are refused
      before they are sent. */
  lemma SponsoredLandsNothing(archived: seq<ArchivedKey>, priorities: PriorityMap, limits: Limits, source: bool, l: Ledger, w: World)
    requires archived != []
    ensures var planned := Plan(BatchKeys(limits, Classify(archived, priorities)), l.sequence, true);
      var e := Run(planned, source, false, l, w);
      e.end.Stopped? && e.done == [] && e.ledger.landed == l.landed
  {
    var classified := Classify(archived, priorities);
    var batches := BatchKeys(limits, classified);
    var planned := Plan(batches, l.sequence, true);
    ClassifyNamed(archived, priorities);
    assert batches != [] && planned[0] == PlannedBatch(batches[0], 0, l.sequence, true);
    assert Submit(l, planned[0].tx, w).reply.Failed?;
  }
}
