/** Any number of rounds of execute, record, resume: what lands, what the receipt says of it, and when the two
    agree. */
module RestoreRounds {
  import opened Seqs
  import opened Network
  import opened SequentialRestore
  import opened RestoreReceipts
  import opened RestoreGuards

  // ---- Sorting by batch index ----

  lemma {:induction false} OfIndex(batches: seq<Batch>, k: int)
    requires DistinctIndices(batches)
    ensures OfRank(batches, ByIndex(), k) == (if Latest(batches, k).Some? then [Latest(batches, k).value] else [])
  {
    if batches != [] {
      var front, last := batches[..|batches| - 1], batches[|batches| - 1];
      assert batches == front + [last];
      OfRankAppend(front, [last], ByIndex(), k);
      OfIndex(front, k);
      if last.batchIndex == k {
        assert forall i :: 0 <= i < |front| ==> batches[i].batchIndex != k;
      }
    }
  }

  lemma {:induction false} RankPresent(batches: seq<Batch>, i: nat)
    requires i < |batches|
    ensures OfRank(batches, ByIndex(), batches[i].batchIndex) != []
  {
    if i > 0 {
      RankPresent(batches[1..], i - 1);
    }
  }

  lemma SortKeepsDistinct(batches: seq<Batch>)
    requires DistinctIndices(batches)
    ensures DistinctIndices(StableSort(batches, ByIndex()))
  {
    var sorted := StableSort(batches, ByIndex());
    forall i, j | 0 <= i < j < |sorted| ensures sorted[i].batchIndex != sorted[j].batchIndex {
      var k := sorted[i].batchIndex;
      if sorted[j].batchIndex == k {
        assert sorted == sorted[..j] + sorted[j..];
        OfRankAppend(sorted[..j], sorted[j..], ByIndex(), k);
        RankPresent(sorted[..j], i);
        RankPresent(sorted[j..], 0);
        StableSortStable(batches, ByIndex(), k);
        OfIndex(batches, k);
        assert false;
      }
    }
  }

  lemma {:induction false} RestoredAppend(a: seq<Batch>, b: seq<Batch>)
    ensures Restored(a + b) == Restored(a) + Restored(b)
  {
    if a == [] {
      assert a + b == b;
    } else {
      assert (a + b)[1..] == a[1..] + b;
      RestoredAppend(a[1..], b);
    }
  }

  lemma {:induction false} InsertRestored(b: Batch, s: seq<Batch>)
    ensures Restored(Insert(b, s, ByIndex())) == Restored([b]) + Restored(s)
  {
    if s == [] || b.batchIndex < s[0].batchIndex {
      RestoredAppend([b], s);
    } else {
      InsertRestored(b, s[1..]);
      assert Insert(b, s, ByIndex())[1..] == Insert(b, s[1..], ByIndex());
    }
  }

  lemma InsertKeepsRestored(front: seq<Batch>, last: Batch, sorted: seq<Batch>)
    requires Restored(sorted) == Restored(front)
    ensures Restored(Insert(last, sorted, ByIndex())) == Restored(front + [last])
  {
    InsertRestored(last, sorted);
    RestoredAppend(front, [last]);
  }

  lemma {:induction false} SortKeepsRestored(batches: seq<Batch>)
    ensures Restored(StableSort(batches, ByIndex())) == Restored(batches)
  {
    if batches != [] {
      var front, last := batches[..|batches| - 1], batches[|batches| - 1];
      SortKeepsRestored(front);
      InsertKeepsRestored(front, last, StableSort(front, ByIndex()));
      assert batches == front + [last];
    }
  }

  lemma SameIdentities(a: seq<Batch>, b: seq<Batch>)
    requires Identities(a) == Identities(b)
    ensures |a| == |b| && DistinctIndices(a) == DistinctIndices(b)
    ensures SortedBy(a, ByIndex()) == SortedBy(b, ByIndex())
    ensures forall i :: 0 <= i < |a| ==> IdentityOf(a[i]) == IdentityOf(b[i])
  {
    IdentitiesDetermine(a, b);
    assert forall i :: 0 <= i < |a| ==> ByIndex()(a[i]) == IdentityOf(a[i]).batchIndex == ByIndex()(b[i]);
    assert forall i :: 0 <= i < |a| ==> a[i].batchIndex == IdentityOf(a[i]).batchIndex == b[i].batchIndex;
  }

  // ---- One resumed round ----

  lemma PendingFacts(ordered: seq<Batch>)
    requires DistinctIndices(ordered)
    ensures var pending := Filter(ordered, Undone());
      Identities(ResetAll(pending)) == Identities(pending) && Unsent(ResetAll(pending)) && DistinctIndices(pending)
  {
    var pending := Filter(ordered, Undone());
    ResetFacts(pending);
    FilterKeepsDistinct(ordered);
  }

  lemma {:induction false} FilterKeepsDistinct(ordered: seq<Batch>)
    requires DistinctIndices(ordered)
    ensures DistinctIndices(Filter(ordered, Undone()))
  {
    if ordered != [] {
      FilterKeepsDistinct(ordered[1..]);
      FilterMembers(ordered[1..], Undone());
      var rest := Filter(ordered[1..], Undone());
      assert forall i :: 0 <= i < |rest| ==> rest[i] in rest;
    }
  }

  /** The run of the pending batches of an ordered receipt, laid back over it. */
  lemma PendingRun(ordered: seq<Batch>, source: bool, l: Ledger, w: World)
    requires DistinctIndices(ordered) && Consistent(ordered)
    ensures var e := Run(ResetAll(Filter(ordered, Undone())), source, false, l, w);
      var merged := Overlay(ordered, Reported(e));
      Identities(merged) == Identities(ordered) && Consistent(merged) &&
      (e.end.Completed? <==> AllSuccess(merged)) &&
      Restored(merged) == Restored(ordered) + multiset(Footprints(e.done))
  {
    var pending := Filter(ordered, Undone());
    var queue := ResetAll(pending);
    var results := Reported(Run(queue, source, false, l, w));
    PendingFacts(ordered);
    RunReports(queue, source, l, w);
    ReportedDistinct(results, pending);
    OverlayIsDealt(ordered, results);
    DealtKeeps(ordered, results);
    DealtAdds(ordered, results);
    DealtSuccess(ordered, results);
  }

  /** The batches that resuming `receipt` submits, and the run that it performs. */
  function ResumeQueue(receipt: seq<Batch>): seq<Batch> { ResetAll(Filter(StableSort(receipt, ByIndex()), Undone())) }

  function ResumedRun(receipt: seq<Batch>, source: bool, l: Ledger, w: World): Execution {
    Run(ResumeQueue(receipt), source, false, l, w)
  }

  /** A round that resubmits something, in terms of its run. */
  lemma ResumeRuns(receipt: seq<Batch>, source: bool, l: Ledger, w: World)
    requires Filter(StableSort(receipt, ByIndex()), Undone()) != []
    ensures var ordered := StableSort(receipt, ByIndex());
      var e := ResumedRun(receipt, source, l, w);
      var merged := Overlay(ordered, Reported(e));
      var (o, after) := Resume(receipt, source, l, w);
      after == e.ledger &&
      (o.Threw? <==> e.end.ReadFailed?) &&
      (o.Returned? ==> o.value.batches == merged && o.value.success == e.end.Completed?) &&
      (o.Returned? ==> o.value.totalKeysRestored == KeyCount(Successes(merged)))
  {
    var e := ResumedRun(receipt, source, l, w);
    assert e.done + [] == e.done;
  }

  lemma NothingPending(receipt: seq<Batch>, source: bool, l: Ledger, w: World)
    requires Consistent(StableSort(receipt, ByIndex()))
    requires Filter(StableSort(receipt, ByIndex()), Undone()) == []
    ensures var ordered := StableSort(receipt, ByIndex());
      var (o, after) := Resume(receipt, source, l, w);
      AllSuccess(ordered) && after == l && o.Returned? && o.value.success && o.value.batches == ordered &&
      o.value.totalKeysRestored == KeyCount(Successes(ordered))
  {
    var ordered := StableSort(receipt, ByIndex());
    FilterMembers(ordered, Undone());
    assert forall i :: 0 <= i < |ordered| ==> ordered[i] in ordered;
    SuccessesOfDone(ordered, []);
    assert ordered + [] == ordered;
  }

  /** A resumed round that returns lists every batch of the receipt once, in index order, with success
      reported exactly when all of them have succeeded; what lands is exactly what is newly reported
      successful, and what is lost. */
  lemma ResumeRound(receipt: seq<Batch>, source: bool, l: Ledger, w: World)
    requires DistinctIndices(receipt) && Consistent(StableSort(receipt, ByIndex()))
    requires Resume(receipt, source, l, w).0.Returned?
    ensures var (o, after) := Resume(receipt, source, l, w); var r := o.value;
      Identities(r.batches) == Identities(StableSort(receipt, ByIndex())) &&
      Consistent(r.batches) &&
      (r.success <==> AllSuccess(r.batches)) &&
      r.totalKeysRestored == KeyCount(Successes(r.batches)) &&
      multiset(after.landed) + Restored(receipt) ==
        multiset(l.landed) + Restored(r.batches) + multiset(Lost(ResumedRun(receipt, source, l, w)))
  {
    SortKeepsRestored(receipt);
    if Filter(StableSort(receipt, ByIndex()), Undone()) == [] {
      NothingPending(receipt, source, l, w);
    } else {
      ResumeRuns(receipt, source, l, w);
      SortKeepsDistinct(receipt);
      PendingRun(StableSort(receipt, ByIndex()), source, l, w);
      ResumedLands(receipt, source, l, w);
    }
  }

  lemma ResumedLands(receipt: seq<Batch>, source: bool, l: Ledger, w: World)
    ensures var e := ResumedRun(receipt, source, l, w);
      multiset(e.ledger.landed) == multiset(l.landed) + Told(e) + multiset(Lost(e))
  {
    RunLandsToldOrLost(ResumeQueue(receipt), source, l, w);
  }

  /** A resumed round that rejects loses whatever it landed, and had something left to do. */
  lemma ResumeRejects(receipt: seq<Batch>, source: bool, l: Ledger, w: World)
    requires Resume(receipt, source, l, w).0.Threw?
    ensures multiset(Resume(receipt, source, l, w).1.landed) ==
      multiset(l.landed) + multiset(Lost(ResumedRun(receipt, source, l, w)))
    ensures !AllSuccess(StableSort(receipt, ByIndex()))
  {
    var ordered := StableSort(receipt, ByIndex());
    var pending := Filter(ordered, Undone());
    ResumeRuns(receipt, source, l, w);
    ResumedLands(receipt, source, l, w);
    FilterMembers(ordered, Undone());
    assert pending[0] in pending;
  }

  lemma ReportedDistinct(results: seq<Batch>, queue: seq<Batch>)
    requires Identities(results) <= Identities(queue) && DistinctIndices(queue)
    ensures DistinctIndices(results)
  {
    IdentitiesAt(results);
    IdentitiesAt(queue);
    assert forall i :: 0 <= i < |results| ==>
      results[i].batchIndex == Identities(results)[i].batchIndex == Identities(queue)[i].batchIndex == queue[i].batchIndex;
  }

  // ---- Receipts from round to round ----

  /** `createExecutionReceipt`: every planned batch, with its result where it was executed. */
  function CreateReceipt(results: seq<Batch>, planned: seq<Batch>): seq<Batch> { Overlay(planned, results) }

  lemma {:induction false} IdentitiesEqual(a: seq<Batch>, b: seq<Batch>)
    requires |a| == |b| && forall i :: 0 <= i < |a| ==> IdentityOf(a[i]) == IdentityOf(b[i])
    ensures Identities(a) == Identities(b)
  {
    if a != [] {
      assert forall i :: 0 <= i < |a| - 1 ==> a[1..][i] == a[i + 1] && b[1..][i] == b[i + 1];
      IdentitiesEqual(a[1..], b[1..]);
    }
  }

  /** Under every index the two hold batches of one identity, or both hold none. */
  ghost predicate Match(a: seq<Batch>, b: seq<Batch>, k: int) {
    (Latest(a, k).Some? <==> Latest(b, k).Some?) &&
    (Latest(a, k).Some? ==> IdentityOf(Latest(a, k).value) == IdentityOf(Latest(b, k).value))
  }

  lemma {:induction false} SameIdentitiesMatch(a: seq<Batch>, b: seq<Batch>, k: int)
    requires Identities(a) == Identities(b)
    ensures Match(a, b, k)
  {
    SameIdentities(a, b);
    if a != [] {
      IdentitiesEqual(a[..|a| - 1], b[..|b| - 1]);
      assert IdentityOf(a[|a| - 1]) == IdentityOf(b[|b| - 1]);
      SameIdentitiesMatch(a[..|a| - 1], b[..|b| - 1], k);
    }
  }

  lemma MergedMatch(planned: seq<Batch>, receipt: seq<Batch>, merged: seq<Batch>, k: int)
    requires DistinctIndices(receipt) && Identities(receipt) == Identities(planned)
    requires Identities(merged) == Identities(StableSort(receipt, ByIndex()))
    ensures Match(merged, planned, k)
  {
    SameIdentitiesMatch(merged, StableSort(receipt, ByIndex()), k);
    StableSortStable(receipt, ByIndex(), k);
    SortKeepsDistinct(receipt);
    OfIndex(receipt, k);
    OfIndex(StableSort(receipt, ByIndex()), k);
    SameIdentitiesMatch(receipt, planned, k);
  }

  lemma OverlaidLatest(planned: seq<Batch>, merged: seq<Batch>, k: int)
    requires Match(merged, planned, k)
    requires Identities(CreateReceipt(merged, planned)) == Identities(planned)
    requires DistinctIndices(CreateReceipt(merged, planned))
    ensures Latest(CreateReceipt(merged, planned), k) == Latest(merged, k)
  {
    var next := CreateReceipt(merged, planned);
    SameIdentities(next, planned);
    if Latest(planned, k).Some? {
      var i :| 0 <= i < |planned| && planned[i] == Latest(planned, k).value;
      assert IdentityOf(next[i]) == IdentityOf(planned[i]);
      LatestUnique(next, i);
    } else {
      SameIdentitiesMatch(next, planned, k);
    }
  }

  /** The receipt made from a resumed round lists that round's batches, back in planned order. */
  lemma ReceiptOfRound(planned: seq<Batch>, receipt: seq<Batch>, merged: seq<Batch>)
    requires DistinctIndices(planned) && Identities(receipt) == Identities(planned)
    requires Identities(merged) == Identities(StableSort(receipt, ByIndex()))
    ensures var next := CreateReceipt(merged, planned);
      Identities(next) == Identities(planned) && StableSort(next, ByIndex()) == merged
  {
    var next, sorted := CreateReceipt(merged, planned), StableSort(receipt, ByIndex());
    SameIdentities(receipt, planned);
    SortKeepsDistinct(receipt);
    StableSortSorts(receipt, ByIndex());
    SameIdentities(merged, sorted);
    forall i | 0 <= i < |planned| ensures IdentityOf(next[i]) == IdentityOf(planned[i]) {
      MergedMatch(planned, receipt, merged, planned[i].batchIndex);
      LatestUnique(planned, i);
    }
    IdentitiesEqual(next, planned);
    SameIdentities(next, planned);
    forall k ensures OfRank(merged, ByIndex(), k) == OfRank(next, ByIndex(), k) {
      OfIndex(merged, k);
      OfIndex(next, k);
      MergedMatch(planned, receipt, merged, k);
      OverlaidLatest(planned, merged, k);
    }
    StableSortCharacterised(next, merged, ByIndex());
  }

  /** Where a restore stands: the receipt in hand, the ledger, and what the last call reported. `lost`
      only records history: what landed without the caller being told. */
  datatype Progress = Progress(receipt: seq<Batch>, ledger: Ledger, success: bool, lost: seq<Footprint>)

  /** Execute the plan and make a receipt; a call that rejects leaves only the plan. */
  function FirstRound(planned: seq<Batch>, source: bool, l: Ledger, w: World): Progress {
    var e := Run(planned, source, false, l, w);
    match ResultOf(e)
    case Threw => Progress(planned, e.ledger, false, Lost(e))
    case Returned(r) => Progress(CreateReceipt(r.batches, planned), e.ledger, r.success, Lost(e))
  }

  /** Resume the latest receipt and make the next one; a call that rejects leaves the old one. */
  function NextRound(p: Progress, planned: seq<Batch>, source: bool, w: World): Progress {
    var (o, after) := Resume(p.receipt, source, p.ledger, w);
    var lost := p.lost + Lost(ResumedRun(p.receipt, source, p.ledger, w));
    match o
    case Threw => Progress(p.receipt, after, false, lost)
    case Returned(r) => Progress(CreateReceipt(r.batches, planned), after, r.success, lost)
  }

  /** The first call may be given no source account; the receipt always names one. */
  function Rounds(n: nat, planned: seq<Batch>, sourceFirst: bool, source: bool, l: Ledger, w: World): Progress {
    Repeated(n, FirstRound(planned, sourceFirst, l, w), Resuming(planned, source, w))
  }

  function Resuming(planned: seq<Batch>, source: bool, w: World): Progress -> Progress {
    (p: Progress) => NextRound(p, planned, source, w)
  }

  /** The receipt describes the plan, success is reported exactly when all of it succeeded, and its
      successes are exactly what landed since `base`, except for what was lost. */
  ghost predicate Faithful(p: Progress, planned: seq<Batch>, base: seq<Footprint>) {
    Identities(p.receipt) == Identities(planned) &&
    Consistent(p.receipt) &&
    (p.success <==> AllSuccess(p.receipt)) &&
    multiset(p.ledger.landed) == multiset(base) + Restored(p.receipt) + multiset(p.lost)
  }

  /** Laying the results of a run of the whole plan over the plan. */
  lemma FirstReceipt(planned: seq<Batch>, source: bool, l: Ledger, w: World)
    requires DistinctIndices(planned) && Unsent(planned)
    ensures var e := Run(planned, source, false, l, w);
      var receipt := CreateReceipt(Reported(e), planned);
      Identities(receipt) == Identities(planned) && Consistent(receipt) &&
      (e.end.Completed? <==> AllSuccess(receipt)) && Restored(receipt) == multiset(Footprints(e.done))
  {
    var results := Reported(Run(planned, source, false, l, w));
    FilterAll(planned, Undone());
    RunReports(planned, source, l, w);
    ReportedDistinct(results, planned);
    OverlayIsDealt(planned, results);
    DealtKeeps(planned, results);
    DealtAdds(planned, results);
    DealtSuccess(planned, results);
    NoneRestored(planned);
  }

  lemma ReportedIsResult(e: Execution)
    requires !e.end.ReadFailed?
    ensures ResultOf(e).Returned? && ResultOf(e).value.batches == Reported(e)
    ensures ResultOf(e).value.success == e.end.Completed?
  {
    assert e.done + [] == e.done;
  }

  lemma FirstRoundFaithful(planned: seq<Batch>, source: bool, l: Ledger, w: World)
    requires DistinctIndices(planned) && Unsent(planned)
    ensures Faithful(FirstRound(planned, source, l, w), planned, l.landed)
  {
    var e := Run(planned, source, false, l, w);
    RunLandsToldOrLost(planned, source, l, w);
    NoneRestored(planned);
    if e.end.ReadFailed? {
      RunOutcomes(planned, source, false, l, w);
      RunPartitions(planned, source, false, l, w);
      assert planned != [] && planned[0].status != Success;
    } else {
      ReportedIsResult(e);
      FirstReceipt(planned, source, l, w);
    }
  }

  lemma {:induction false} NoneRestored(batches: seq<Batch>)
    requires Unsent(batches)
    ensures Restored(batches) == multiset{}
  {
    if batches != [] {
      NoneRestored(batches[1..]);
    }
  }

  lemma SortedSuccess(batches: seq<Batch>)
    ensures AllSuccess(StableSort(batches, ByIndex())) <==> AllSuccess(batches)
    ensures Consistent(StableSort(batches, ByIndex())) <==> Consistent(batches)
  {
    var sorted := StableSort(batches, ByIndex());
    StableSortSorts(batches, ByIndex());
    forall b ensures b in sorted <==> b in batches {
      assert b in multiset(sorted) <==> b in multiset(batches);
    }
    assert forall i :: 0 <= i < |sorted| ==> sorted[i] in batches;
    assert forall i :: 0 <= i < |batches| ==> batches[i] in sorted;
  }

  lemma NextReceipt(planned: seq<Batch>, receipt: seq<Batch>, merged: seq<Batch>)
    requires DistinctIndices(planned) && Identities(receipt) == Identities(planned)
    requires Identities(merged) == Identities(StableSort(receipt, ByIndex())) && Consistent(merged)
    ensures var next := CreateReceipt(merged, planned);
      Identities(next) == Identities(planned) && Consistent(next) && Restored(next) == Restored(merged) &&
      (AllSuccess(next) <==> AllSuccess(merged))
  {
    var next := CreateReceipt(merged, planned);
    ReceiptOfRound(planned, receipt, merged);
    SortKeepsRestored(next);
    SortedSuccess(next);
  }

  lemma Cancel(after: multiset<Footprint>, before: multiset<Footprint>, base: multiset<Footprint>,
               earlier: multiset<Footprint>, later: multiset<Footprint>,
               lostBefore: multiset<Footprint>, lostNow: multiset<Footprint>)
    requires after + earlier == before + later + lostNow && before == base + earlier + lostBefore
    ensures after == base + later + (lostBefore + lostNow)
  {
    forall f ensures after[f] == (base + later + (lostBefore + lostNow))[f] {
      assert (after + earlier)[f] == (before + later + lostNow)[f];
    }
  }

  lemma NextRoundFaithful(p: Progress, planned: seq<Batch>, source: bool, base: seq<Footprint>, w: World)
    requires DistinctIndices(planned) && Faithful(p, planned, base)
    ensures Faithful(NextRound(p, planned, source, w), planned, base)
  {
    var (o, after) := Resume(p.receipt, source, p.ledger, w);
    var lost := Lost(ResumedRun(p.receipt, source, p.ledger, w));
    SameIdentities(p.receipt, planned);
    SortedSuccess(p.receipt);
    if o.Threw? {
      ResumeRejects(p.receipt, source, p.ledger, w);
    } else {
      ResumeRound(p.receipt, source, p.ledger, w);
      NextReceipt(planned, p.receipt, o.value.batches);
      Cancel(multiset(after.landed), multiset(p.ledger.landed), multiset(base), Restored(p.receipt),
             Restored(o.value.batches), multiset(p.lost), multiset(lost));
    }
  }

  /** Over any number of rounds, whatever the network does: the receipt records exactly what landed,
      except for what was lost. */
  lemma RoundsFaithful(n: nat, planned: seq<Batch>, sourceFirst: bool, source: bool, l: Ledger, w: World)
    requires DistinctIndices(planned) && Unsent(planned)
    ensures Faithful(Rounds(n, planned, sourceFirst, source, l, w), planned, l.landed)
  {
    var holds := (p: Progress) => Faithful(p, planned, l.landed);
    var round := Resuming(planned, source, w);
    FirstRoundFaithful(planned, sourceFirst, l, w);
    forall q | holds(q) ensures holds(round(q)) {
      NextRoundFaithful(q, planned, source, l.landed, w);
    }
    RepeatedKeeps(n, FirstRound(planned, sourceFirst, l, w), round, holds);
  }

  /** Every round told its caller of all it landed. The guard of each is on the queue it runs, the ledger it
      finds and the network. */
  ghost predicate ToldThroughout(n: nat, planned: seq<Batch>, sourceFirst: bool, source: bool, l: Ledger, w: World) {
    !Forgets(planned, sourceFirst, l, w) &&
    GoodSoFar(n, FirstRound(planned, sourceFirst, l, w), Resuming(planned, source, w), ToldNext(source, w))
  }

  function ToldNext(source: bool, w: World): Progress -> bool {
    (p: Progress) => !Forgets(ResumeQueue(p.receipt), source, p.ledger, w)
  }

  lemma NextLostIff(p: Progress, planned: seq<Batch>, source: bool, w: World)
    ensures NextRound(p, planned, source, w).lost == [] <==> p.lost == [] && ToldNext(source, w)(p)
  {
    LostIff(ResumeQueue(p.receipt), source, p.ledger, w);
    assert NextRound(p, planned, source, w).lost == p.lost + Lost(ResumedRun(p.receipt, source, p.ledger, w));
  }

  /** Nothing is lost over any number of rounds exactly when the guard is false at every one of them. */
  lemma LostNeverIff(n: nat, planned: seq<Batch>, sourceFirst: bool, source: bool, l: Ledger, w: World)
    ensures Rounds(n, planned, sourceFirst, source, l, w).lost == [] <==> ToldThroughout(n, planned, sourceFirst, source, l, w)
  {
    var first, round := FirstRound(planned, sourceFirst, l, w), Resuming(planned, source, w);
    var holds := (p: Progress, told: bool) => p.lost == [] <==> told;
    LostIff(planned, sourceFirst, l, w);
    forall p, told | holds(p, told) ensures holds(round(p), told && ToldNext(source, w)(p)) {
      NextLostIff(p, planned, source, w);
    }
    RepeatedKeepsFlag(n, first, round, !Forgets(planned, sourceFirst, l, w), ToldNext(source, w), holds);
  }

  /** With no outcome in doubt and no failed account read the guard is false at every round. */
  lemma ClearRoundsTell(n: nat, planned: seq<Batch>, sourceFirst: bool, source: bool, l: Ledger, w: World)
    requires Clear(w) && Readable(w)
    ensures ToldThroughout(n, planned, sourceFirst, source, l, w)
  {
    ClearForgetsNothing(planned, sourceFirst, l, w);
    forall p ensures ToldNext(source, w)(p) {
      ClearForgetsNothing(ResumeQueue(p.receipt), source, p.ledger, w);
    }
  }

  lemma {:induction false} RestoredWithinPlan(batches: seq<Batch>)
    ensures Restored(batches) <= multiset(Footprints(batches))
    ensures AllSuccess(batches) ==> Restored(batches) == multiset(Footprints(batches))
  {
    if batches != [] {
      RestoredWithinPlan(batches[1..]);
      assert Footprints(batches) == [batches[0].tx.footprint] + Footprints(batches[1..]);
      assert AllSuccess(batches) ==> AllSuccess(batches[1..]);
    }
  }

  /** No footprint has landed more often than planned, other than by being lost, and after success all of
      the plan has landed once, and besides exactly what was lost. */
  ghost predicate LandedOnce(p: Progress, planned: seq<Batch>, base: seq<Footprint>) {
    multiset(p.ledger.landed) <= multiset(base) + multiset(Footprints(planned)) + multiset(p.lost) &&
    (p.success ==> multiset(p.ledger.landed) == multiset(base) + multiset(Footprints(planned)) + multiset(p.lost))
  }

  lemma FaithfulLandsOnce(p: Progress, planned: seq<Batch>, base: seq<Footprint>)
    requires Faithful(p, planned, base)
    ensures LandedOnce(p, planned, base)
  {
    IdentitiesDetermine(p.receipt, planned);
    RestoredWithinPlan(p.receipt);
  }

  /** At most once, and all at the end, over any number of rounds, apart from what is lost. */
  lemma AtMostOnce(n: nat, planned: seq<Batch>, sourceFirst: bool, source: bool, l: Ledger, w: World)
    requires DistinctIndices(planned) && Unsent(planned)
    ensures LandedOnce(Rounds(n, planned, sourceFirst, source, l, w), planned, l.landed)
  {
    RoundsFaithful(n, planned, sourceFirst, source, l, w);
    FaithfulLandsOnce(Rounds(n, planned, sourceFirst, source, l, w), planned, l.landed);
  }

  lemma SumIsFirst(a: multiset<Footprint>, b: seq<Footprint>)
    ensures a + multiset(b) == a <==> b == []
  {
    assert |a + multiset(b)| == |a| + |b|;
  }

  /** The receipt's successes are exactly what landed since `base`. */
  ghost predicate Recorded(p: Progress, base: seq<Footprint>) {
    multiset(p.ledger.landed) == multiset(base) + Restored(p.receipt)
  }

  /** The receipt in hand after any number of rounds matches what landed if and only if the guard was false
      at every round: what one round loses, no later round makes good. */
  lemma RecordedIff(n: nat, planned: seq<Batch>, sourceFirst: bool, source: bool, l: Ledger, w: World)
    requires DistinctIndices(planned) && Unsent(planned)
    ensures Recorded(Rounds(n, planned, sourceFirst, source, l, w), l.landed) <==> ToldThroughout(n, planned, sourceFirst, source, l, w)
  {
    var p := Rounds(n, planned, sourceFirst, source, l, w);
    RoundsFaithful(n, planned, sourceFirst, source, l, w);
    LostNeverIff(n, planned, sourceFirst, source, l, w);
    SumIsFirst(multiset(l.landed) + Restored(p.receipt), p.lost);
  }

  ghost predicate LandedExactly(p: Progress, planned: seq<Batch>, base: seq<Footprint>) {
    multiset(p.ledger.landed) == multiset(base) + multiset(Footprints(planned))
  }

  /** A restore that reports success has landed every planned footprint exactly once if and only if the guard
      was false at every round. */
  lemma SuccessExactIff(n: nat, planned: seq<Batch>, sourceFirst: bool, source: bool, l: Ledger, w: World)
    requires DistinctIndices(planned) && Unsent(planned) && Rounds(n, planned, sourceFirst, source, l, w).success
    ensures LandedExactly(Rounds(n, planned, sourceFirst, source, l, w), planned, l.landed) <==> ToldThroughout(n, planned, sourceFirst, source, l, w)
  {
    var p := Rounds(n, planned, sourceFirst, source, l, w);
    AtMostOnce(n, planned, sourceFirst, source, l, w);
    LostNeverIff(n, planned, sourceFirst, source, l, w);
    SumIsFirst(multiset(l.landed) + multiset(Footprints(planned)), p.lost);
  }

  /** The failed read at work: the first batch lands, the second is found stale, the refresh cannot read
      the account and the call rejects. Resuming from the plan, all the caller has, lands the first
      batch again and reports success. */
  lemma RejectedCallLandsTwice(a: Footprint, b: Footprint)
    ensures var planned := [
        Batch(0, Transaction(a, 1, Plain), 1, Pending, None, None),
        Batch(1, Transaction(b, 2, Plain), 1, Pending, None, None)];
      var w := World(k => Weather(if k == 1 then 1 else 0, Deliver, "h"), k => if k == 0 then None else Some(0));
      var p := Rounds(1, planned, true, true, Ledger(0, [], 0, 0), w);
      Clear(w) && p.success && p.ledger.landed == [a, a, b] && p.lost == [a]
  {
    var w := World(k => Weather(if k == 1 then 1 else 0, Deliver, "h"), k => if k == 0 then None else Some(0));
    var b0 := Batch(0, Transaction(a, 1, Plain), 1, Pending, None, None);
    var b1 := Batch(1, Transaction(b, 2, Plain), 1, Pending, None, None);
    var planned := [b0, b1];
    var l0 := Ledger(0, [], 0, 0);
    var l1 := Ledger(1, [a], 1, 0);
    assert planned[1..] == [b1];
    assert Run([b1], true, false, l1, w).end == ReadFailed([b1]);
    var e := Run(planned, true, false, l0, w);
    assert Run([b1], true, false, l1, w).done == [];
    assert [] + [a] == [a] && Submit(l0, b0.tx, w) == Submission(l1, Confirmed("h"), false);
    assert e.end == ReadFailed([b1]) && e.done == [Succeeded(b0, "h")];
    assert Footprints(e.done) == [a] + Footprints(e.done[1..]) && e.done[1..] == [];
    assert Lost(e) == [a] + [] == [a];
    var l2 := Ledger(2, [a], 2, 1);
    assert FirstRound(planned, true, l0, w) == Progress(planned, l2, false, [a]);
    SecondCallSucceeds(planned, l2, a, b, w);
    var first := FirstRound(planned, true, l0, w);
    assert Repeated(1, first, Resuming(planned, true, w)) == NextRound(first, planned, true, w);
    assert [a] + [] == [a];
  }

  lemma SecondCallSucceeds(planned: seq<Batch>, l: Ledger, a: Footprint, b: Footprint, w: World)
    requires planned == [
        Batch(0, Transaction(a, 1, Plain), 1, Pending, None, None),
        Batch(1, Transaction(b, 2, Plain), 1, Pending, None, None)]
    requires l == Ledger(2, [a], 2, 1)
    requires forall k :: k >= 2 ==> w.submit(k) == Weather(0, Deliver, "h")
    requires w.read(1) == Some(0)
    ensures var (o, after) := Resume(planned, true, l, w);
      o.Returned? && o.value.success && after.landed == [a, a, b] && Lost(ResumedRun(planned, true, l, w)) == []
  {
    StableSortIdempotent(planned, ByIndex());
    FilterAll(planned, Undone());
    ResetFacts(planned);
    assert ResetAll(planned) == planned;
    var r0 := planned[0].(tx := Transaction(a, 3, Plain));
    var r1 := planned[1].(tx := Transaction(b, 4, Plain));
    assert planned[1..] == [planned[1]] && planned[1..][1..] == [];
    assert Rebuilt(planned, 2) == [r0, r1] by {
      assert Rebuilt(planned[1..], 3) == [r1] + Rebuilt([], 4);
    }
    var m0, m1, m2 := Ledger(2, [a], 3, 2), Ledger(3, [a, a], 4, 2), Ledger(4, [a, a, b], 5, 2);
    assert [r0, r1][1..] == [r1] && [r1][1..] == [];
    assert Submit(m0, r0.tx, w).ledger == m1 && Submit(m1, r1.tx, w).ledger == m2 by {
      assert [a] + [a] == [a, a] && [a, a] + [b] == [a, a, b];
    }
    assert Run([], true, true, m2, w).ledger == m2;
    assert Run([r1], true, true, m1, w).ledger == m2 && Run([r1], true, true, m1, w).end.Completed?;
    assert Run([r0, r1], true, true, m0, w).ledger == m2 && Run([r0, r1], true, true, m0, w).end.Completed?;
    assert Run(planned, true, false, l, w).ledger == m2 && Run(planned, true, false, l, w).end.Completed?;
    ReportedIsResult(Run(planned, true, false, l, w));
  }
}
