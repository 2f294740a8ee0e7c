/** What the calls that run batches one by one report of themselves: where they stopped, why, and what they count. */
module RestoreReports {
  import opened Seqs
  import opened Network
  import opened SequentialRestore
  import opened RestoreReceipts
  import opened RestoreGuards
  import opened RestoreRounds
  import opened RestoreRetries
  import opened RecordedHashes

  /** A report of success: every batch reported succeeded, and no failure is mentioned. */
  ghost predicate TellsSuccess(r: RestoreResult, queue: seq<Batch>) {
    |r.batches| == |queue| && AllSuccess(r.batches) && r.failedAtBatchIndex.None? && r.error.None? && !r.ambiguous
  }

  /** A report of failure: everything but the last batch reported succeeded, that one failed, and the position and the
      error given are its own. */
  ghost predicate TellsFailure(r: RestoreResult, last: Weather) {
    var n := |r.batches| - 1;
    n >= 0 && r.failedAtBatchIndex == Some(n) && AllSuccess(r.batches[..n]) &&
    r.batches[n].status == Failure && r.error == r.batches[n].error == Some(last.note) &&
    (r.ambiguous <==> !r.batches[n].tx.form.Wrapped? && last.verdict.LoseTrack? && last.verdict.recognised)
  }

  /** What a run records, as far as reports need it. */
  ghost predicate WellTold(e: Execution, l: Ledger, w: World) {
    AllSucceeded(e.done) &&
    (e.end.Stopped? ==> e.ledger.submissions > l.submissions && StopsWith(e.end, w.submit(e.ledger.submissions - 1)))
  }

  lemma RunTold(queue: seq<Batch>, source: bool, l: Ledger, w: World)
    ensures WellTold(Run(queue, source, false, l, w), l, w)
  {
    RunOutcomes(queue, source, false, l, w);
    RunRecords(queue, source, l, w);
  }

  lemma SuccessesCounted(done: seq<Batch>, tail: seq<Batch>)
    requires AllSuccess(done) && forall i :: 0 <= i < |tail| ==> tail[i].status != Success
    ensures KeyCount(Successes(done + tail)) == KeyCount(done)
  {
    SuccessesOfDone(done, tail);
  }

  lemma StoppedTells(e: Execution, l: Ledger, w: World)
    requires e.end.Stopped? && WellTold(e, l, w)
    ensures TellsFailure(ResultOf(e).value, w.submit(e.ledger.submissions - 1))
    ensures ResultOf(e).value.totalKeysRestored == KeyCount(Successes(ResultOf(e).value.batches))
  {
    var batches := e.done + [e.end.failed];
    assert batches[..|e.done|] == e.done;
    SuccessesCounted(e.done, [e.end.failed]);
  }

  lemma CompletedTells(e: Execution, queue: seq<Batch>, l: Ledger, w: World)
    requires e.end.Completed? && WellTold(e, l, w) && Identities(e.done) + Identities(Remaining(e)) == Identities(queue)
    ensures TellsSuccess(ResultOf(e).value, queue)
    ensures ResultOf(e).value.totalKeysRestored == KeyCount(Successes(ResultOf(e).value.batches))
  {
    assert e.done + [] == e.done;
    IdentitiesAt(e.done);
    IdentitiesAt(queue);
    SuccessesCounted(e.done, []);
  }

  /** What a call that returns reports: its keys are those of the batches it lists as successful, and it tells of success
      or of the last submission made. */
  ghost predicate TellsRun(r: RestoreResult, queue: seq<Batch>, after: Ledger, l: Ledger, w: World) {
    r.totalKeysRestored == KeyCount(Successes(r.batches)) &&
    if r.success then TellsSuccess(r, queue)
    else after.submissions > l.submissions && TellsFailure(r, w.submit(after.submissions - 1))
  }

  lemma ResultTells(e: Execution, queue: seq<Batch>, l: Ledger, w: World)
    requires WellTold(e, l, w) && Identities(e.done) + Identities(Remaining(e)) == Identities(queue)
    ensures ResultOf(e).Returned? ==> TellsRun(ResultOf(e).value, queue, e.ledger, l, w)
  {
    match e.end
    case Completed => CompletedTells(e, queue, l, w);
    case Stopped(_, _, _) => StoppedTells(e, l, w);
    case ReadFailed(_) =>
  }

  /** `executeRestoreBatches` rejects exactly under the guard, and otherwise reports so. */
  lemma ExecuteTells(queue: seq<Batch>, source: bool, l: Ledger, w: World)
    ensures var e := Run(queue, source, false, l, w); var o := ResultOf(e);
      if Rejects(queue, source, l, w) then o.Threw? else o.Returned? && TellsRun(o.value, queue, e.ledger, l, w)
  {
    RunEndsIff(queue, source, l, w);
    RunTold(queue, source, l, w);
    RunPartitions(queue, source, false, l, w);
    ResultTells(Run(queue, source, false, l, w), queue, l, w);
  }

  // ---- The captured failed state ----

  /** The captured state is the reported failure: the batch it stopped at, its position, the keys counted, and with that
      batch all that come after it. */
  ghost predicate CapturesFailure(state: FailedState, r: RestoreResult, queue: seq<Batch>, source: Option<string>) {
    var n := |r.batches| - 1;
    n >= 0 && r.failedAtBatchIndex == Some(state.failedBatchIndex) && state.partialEntriesRestored == r.totalKeysRestored &&
    state.sourceAccountID == (if source.Some? then source.value else "") &&
    state.failedBatches != [] && state.failedBatches[0] == r.batches[n] &&
    Identities(r.batches[..n]) + Identities(state.failedBatches) == Identities(queue)
  }

  /** A call that rejects leaves the captured state alone, one that succeeds clears it, and one that fails captures what
      it reports. */
  lemma ExecuteCaptures(c: Client, queue: seq<Batch>, source: Option<string>, w: World)
    ensures var (o, c') := Execute(c, queue, source, w);
      if o.Threw? then c'.state == c.state
      else if o.value.success then c'.state.None?
      else c'.state.Some? && CapturesFailure(c'.state.value, o.value, queue, source)
  {
    var e := Run(queue, Truthy(source), false, c.ledger, w);
    RunPartitions(queue, Truthy(source), false, c.ledger, w);
    if e.end.Stopped? {
      var batches := e.done + [e.end.failed];
      assert batches[..|e.done|] == e.done;
    }
  }

  /** A retry with nothing left returns the count it was given; any other rejects exactly when the account cannot be read, or
      when the run of the rebuilt batches rejects. */
  lemma RetryTells(c: Client, state: FailedState, w: World)
    ensures var (o, c') := Retry(c, state, w); var (after, sequence) := ReadAccount(c.ledger, w);
      if state.failedBatches == [] then o == Returned(RetryResult(true, state.partialEntriesRestored)) && c' == c
      else
        o.Threw? <==>
          sequence.None? || Rejects(Rebuilt(state.failedBatches, sequence.value), state.sourceAccountID != "", after, w)
  {
    var (after, sequence) := ReadAccount(c.ledger, w);
    if sequence.Some? {
      RunEndsIff(Rebuilt(state.failedBatches, sequence.value), state.sourceAccountID != "", after, w);
    }
  }

  // ---- A resumed round ----

  /** Where a resumed round stops: at the batch at this position among the pending ones, which the merged report lists as
      failed with the error given; all pending ones before it are listed as successful. */
  ghost predicate ResumeStopsAt(r: RestoreResult, ordered: seq<Batch>, pending: seq<Batch>, n: nat, note: string) {
    r.failedAtBatchIndex == Some(n) && r.error == Some(note) && n < |pending| && |r.batches| == |ordered| &&
    (forall i, j :: 0 <= i < |ordered| && 0 <= j <= n && ordered[i].batchIndex == pending[j].batchIndex ==>
      if j < n then r.batches[i].status == Success else r.batches[i].status == Failure && r.batches[i].error == Some(note))
  }

  lemma MergedAt(ordered: seq<Batch>, results: seq<Batch>, i: nat, j: nat)
    requires DistinctIndices(results) && i < |ordered| && j < |results| && ordered[i].batchIndex == results[j].batchIndex
    ensures Overlay(ordered, results)[i] == results[j]
  {
    LatestUnique(results, j);
  }

  /** `results` are those of the first pending batches. */
  ghost predicate LinedUp(results: seq<Batch>, pending: seq<Batch>) {
    DistinctIndices(results) && |results| <= |pending| &&
    forall j :: 0 <= j < |results| ==> results[j].batchIndex == pending[j].batchIndex
  }

  lemma ResultsLineUp(receipt: seq<Batch>, source: bool, l: Ledger, w: World)
    requires DistinctIndices(receipt)
    ensures LinedUp(Reported(ResumedRun(receipt, source, l, w)), Filter(StableSort(receipt, ByIndex()), Undone()))
  {
    var ordered := StableSort(receipt, ByIndex());
    var pending := Filter(ordered, Undone());
    var results := Reported(ResumedRun(receipt, source, l, w));
    SortKeepsDistinct(receipt);
    PendingFacts(ordered);
    RunReports(ResumeQueue(receipt), source, l, w);
    ReportedDistinct(results, pending);
    IdentitiesAt(results);
    IdentitiesAt(pending);
    assert forall j :: 0 <= j < |results| ==> IdentityOf(results[j]) == Identities(results)[j] == Identities(pending)[j];
  }

  /** What a resumed round returns, in terms of its run. */
  ghost predicate Mentions(r: RestoreResult, e: Execution, ordered: seq<Batch>) {
    r.batches == Overlay(ordered, Reported(e)) && r.success == e.end.Completed? && !e.end.ReadFailed? && !r.ambiguous &&
    (e.end.Stopped? ==> r.failedAtBatchIndex == Some(|e.done|) && r.error == e.end.failed.error) &&
    (e.end.Completed? ==> r.failedAtBatchIndex.None? && r.error.None?)
  }

  lemma ResumeMentions(receipt: seq<Batch>, source: bool, l: Ledger, w: World)
    requires Filter(StableSort(receipt, ByIndex()), Undone()) != [] && Resume(receipt, source, l, w).0.Returned?
    ensures Mentions(Resume(receipt, source, l, w).0.value, ResumedRun(receipt, source, l, w), StableSort(receipt, ByIndex()))
    ensures Resume(receipt, source, l, w).1 == ResumedRun(receipt, source, l, w).ledger
  {
    ResumeRuns(receipt, source, l, w);
  }

  /** No failure is mentioned on success; on failure the stop is that of the last submission. */
  ghost predicate TellsStop(r: RestoreResult, ordered: seq<Batch>, after: Ledger, l: Ledger, w: World) {
    !r.ambiguous &&
    if r.success then r.failedAtBatchIndex.None? && r.error.None?
    else
      after.submissions > l.submissions && r.failedAtBatchIndex.Some? &&
      ResumeStopsAt(r, ordered, Filter(ordered, Undone()), r.failedAtBatchIndex.value, w.submit(after.submissions - 1).note)
  }

  lemma StopsAtLast(e: Execution, r: RestoreResult, ordered: seq<Batch>, l: Ledger, w: World)
    requires WellTold(e, l, w) && Mentions(r, e, ordered) && LinedUp(Reported(e), Filter(ordered, Undone()))
    ensures TellsStop(r, ordered, e.ledger, l, w)
  {
    if e.end.Stopped? {
      var results, pending := Reported(e), Filter(ordered, Undone());
      forall i, j | 0 <= i < |ordered| && 0 <= j < |results| && ordered[i].batchIndex == pending[j].batchIndex
        ensures r.batches[i] == results[j] {
        MergedAt(ordered, results, i, j);
      }
      assert results[|e.done|] == e.end.failed && forall j :: 0 <= j < |e.done| ==> results[j] == e.done[j];
    }
  }

  /** A resumed round that returns mentions a failure exactly when it has one: by position among the pending batches, with
      the error of its last submission. It never calls it ambiguous. */
  lemma ResumeTells(receipt: seq<Batch>, source: bool, l: Ledger, w: World)
    requires DistinctIndices(receipt) && Resume(receipt, source, l, w).0.Returned?
    ensures var (o, after) := Resume(receipt, source, l, w); TellsStop(o.value, StableSort(receipt, ByIndex()), after, l, w)
  {
    var ordered := StableSort(receipt, ByIndex());
    if Filter(ordered, Undone()) != [] {
      ResumeMentions(receipt, source, l, w);
      ResultsLineUp(receipt, source, l, w);
      RunTold(ResumeQueue(receipt), source, l, w);
      StopsAtLast(ResumedRun(receipt, source, l, w), Resume(receipt, source, l, w).0.value, ordered, l, w);
    }
  }

  // ---- What a resumed round submits ----

  /** Neither successful nor carrying a hash. */
  ghost predicate NotSubmitted(b: Batch) {
    b.status != Success && (b.txHash.None? || b.txHash.value == "")
  }

  function Cleared(b: Batch): Batch { b.(status := Pending, txHash := None, error := None) }

  lemma ResetMembers(batches: seq<Batch>, q: Batch)
    ensures q in ResetAll(batches) <==> exists b :: b in batches && q == Cleared(b)
  {
    var reset := ResetAll(batches);
    ResetFacts(batches);
    if q in reset {
      var i :| 0 <= i < |reset| && reset[i] == q;
      assert batches[i] in batches && q == Cleared(batches[i]);
    }
    if b :| b in batches && q == Cleared(b) {
      var i :| 0 <= i < |batches| && batches[i] == b;
      assert reset[i] == q;
    }
  }

  lemma {:induction false} FilterSorted(ordered: seq<Batch>)
    requires SortedBy(ordered, ByIndex())
    ensures SortedBy(Filter(ordered, Undone()), ByIndex())
  {
    if ordered != [] {
      FilterSorted(ordered[1..]);
      FilterMembers(ordered[1..], Undone());
      var rest := Filter(ordered[1..], Undone());
      assert forall i :: 0 <= i < |rest| ==> rest[i] in rest && rest[i] in ordered[1..];
    }
  }

  lemma ResetSorted(pending: seq<Batch>)
    requires SortedBy(pending, ByIndex())
    ensures SortedBy(ResetAll(pending), ByIndex())
  {
    ResetFacts(pending);
    assert forall i :: 0 <= i < |pending| ==> ByIndex()(ResetAll(pending)[i]) == ByIndex()(pending[i]);
  }

  /** A resumed round submits its batches in index order, none of them twice. */
  lemma ResumeOrder(receipt: seq<Batch>)
    ensures SortedBy(ResumeQueue(receipt), ByIndex())
    ensures DistinctIndices(receipt) ==> DistinctIndices(ResumeQueue(receipt))
  {
    var ordered := StableSort(receipt, ByIndex());
    StableSortSorts(receipt, ByIndex());
    FilterSorted(ordered);
    ResetSorted(Filter(ordered, Undone()));
    if DistinctIndices(receipt) {
      SortKeepsDistinct(receipt);
      PendingFacts(ordered);
      ResetFacts(Filter(ordered, Undone()));
    }
  }

  /** They are exactly the batches that were not submitted, cleared of their earlier status, hash and error. */
  lemma ResumeSubmits(receipt: seq<Batch>, q: Batch)
    ensures q in ResumeQueue(receipt) <==> exists b :: b in receipt && NotSubmitted(b) && q == Cleared(b)
  {
    var ordered := StableSort(receipt, ByIndex());
    StableSortSorts(receipt, ByIndex());
    FilterMembers(ordered, Undone());
    ResetMembers(Filter(ordered, Undone()), q);
    assert forall b :: b in receipt <==> b in multiset(ordered);
  }

  /** Of two batches with one index the later is the one that `Latest` finds. */
  lemma {:induction false} LatestIsLast(batches: seq<Batch>, i: nat)
    requires i < |batches| && forall j :: i < j < |batches| ==> batches[j].batchIndex != batches[i].batchIndex
    ensures Latest(batches, batches[i].batchIndex) == Some(batches[i])
  {
    if i < |batches| - 1 {
      LatestIsLast(batches[..|batches| - 1], i);
    }
  }
}
