/** Receipts: recording an interrupted restore, resuming it, and what any number of rounds lands. */
module RestoreReceipts {
  import opened Seqs
  import opened Network
  import opened SequentialRestore

  datatype RestoreResult = RestoreResult(
    success: bool,
    batches: seq<Batch>,
    totalKeysRestored: int,
    failedAtBatchIndex: Option<nat>,
    error: Option<string>,
    ambiguous: bool)

  /** A call that returns, or one that rejects. */
  datatype Outcome<T> = Returned(value: T) | Threw

  function ResultOf(e: Execution): Outcome<RestoreResult> {
    match e.end
    case Completed => Returned(RestoreResult(true, e.done, KeyCount(e.done), None, None, false))
    case Stopped(failed, ambiguous, _) =>
      Returned(RestoreResult(false, e.done + [failed], KeyCount(e.done), Some(|e.done|), failed.error, ambiguous))
    case ReadFailed(_) => Threw
  }

  /** What a run reports as executed: its successes and, if it stopped, the batch it stopped at. */
  function Reported(e: Execution): seq<Batch> {
    e.done + if e.end.Stopped? then [e.end.failed] else []
  }

  function ByIndex(): Batch -> int { (b: Batch) => b.batchIndex }

  /** `new Map(batches.map(b => [b.batchIndex, b])).get(index)`. */
  function Latest(batches: seq<Batch>, index: int): (r: Option<Batch>)
    ensures r.Some? ==> r.value in batches && r.value.batchIndex == index
    ensures r.None? ==> forall i :: 0 <= i < |batches| ==> batches[i].batchIndex != index
  {
    if batches == [] then None
    else if batches[|batches| - 1].batchIndex == index then Some(batches[|batches| - 1])
    else Latest(batches[..|batches| - 1], index)
  }

  /** `results.get(b.batchIndex) ?? b`. */
  function LatestOr(results: seq<Batch>, b: Batch): Batch {
    match Latest(results, b.batchIndex)
    case None => b
    case Some(r) => r
  }

  /** Each batch replaced by its result, where there is one. */
  function Overlay(planned: seq<Batch>, results: seq<Batch>): (r: seq<Batch>)
    ensures |r| == |planned|
    ensures forall i :: 0 <= i < |r| ==> r[i] == LatestOr(results, planned[i])
  {
    seq(|planned|, i requires 0 <= i < |planned| => LatestOr(results, planned[i]))
  }

  /** Already submitted: marked successful or carrying a transaction hash. */
  predicate Done(b: Batch) {
    b.status == Success || (b.txHash.Some? && b.txHash.value != "")
  }

  function Undone(): Batch -> bool { (b: Batch) => !Done(b) }

  function Reset(b: Batch): Batch { Requeued(b, b.tx) }

  function ResetAll(batches: seq<Batch>): (r: seq<Batch>)
    ensures |r| == |batches|
  {
    if batches == [] then [] else [Reset(batches[0])] + ResetAll(batches[1..])
  }

  function Successes(batches: seq<Batch>): seq<Batch> {
    if batches == [] then []
    else (if batches[0].status == Success then [batches[0]] else []) + Successes(batches[1..])
  }

  function RestoredBy(b: Batch): multiset<Footprint> {
    if b.status == Success then multiset{b.tx.footprint} else multiset{}
  }

  /** The footprints of the successful batches, with multiplicity. */
  function Restored(batches: seq<Batch>): multiset<Footprint> {
    if batches == [] then multiset{}
    else RestoredBy(batches[0]) + Restored(batches[1..])
  }

  /** A resumed round: what it returns and the ledger it leaves. */
  function Resume(receipt: seq<Batch>, source: bool, l: Ledger, w: World): (Outcome<RestoreResult>, Ledger) {
    var ordered := StableSort(receipt, ByIndex());
    var pending := Filter(ordered, Undone());
    if pending == [] then (Returned(RestoreResult(true, ordered, KeyCount(ordered), None, None, false)), l)
    else
      var e := Run(ResetAll(pending), source, false, l, w);
      match ResultOf(e)
      case Threw => (Threw, e.ledger)
      case Returned(r) =>
        var merged := Overlay(ordered, r.batches);
        (Returned(RestoreResult(r.success, merged, KeyCount(Successes(merged)), r.failedAtBatchIndex, r.error, false)),
         e.ledger)
  }

  // ---- Overlaying results, seen as a walk along the batches ----

  /** `results` dealt out in order to the batches that are not done. */
  function Dealt(batches: seq<Batch>, results: seq<Batch>): (r: seq<Batch>)
    ensures |r| == |batches|
  {
    if batches == [] || results == [] then batches
    else if Done(batches[0]) then [batches[0]] + Dealt(batches[1..], results)
    else [results[0]] + Dealt(batches[1..], results[1..])
  }

  ghost predicate DistinctIndices(batches: seq<Batch>) {
    forall i, j :: 0 <= i < j < |batches| ==> batches[i].batchIndex != batches[j].batchIndex
  }

  /** A hash is only ever recorded on a success. */
  ghost predicate Consistent(batches: seq<Batch>) {
    forall i :: 0 <= i < |batches| ==> (Done(batches[i]) <==> batches[i].status == Success)
  }

  /** `results` are, in order, the outcomes of the first batches that were not done. */
  ghost predicate OutcomesOf(results: seq<Batch>, batches: seq<Batch>) {
    Identities(results) <= Identities(Filter(batches, Undone()))
  }

  lemma {:induction false} IdentitiesAt(batches: seq<Batch>)
    ensures |Identities(batches)| == |batches|
    ensures forall i :: 0 <= i < |batches| ==> Identities(batches)[i] == IdentityOf(batches[i])
  {
    if batches != [] {
      IdentitiesAt(batches[1..]);
    }
  }

  lemma {:induction false} LatestUnique(batches: seq<Batch>, i: nat)
    requires DistinctIndices(batches) && i < |batches|
    ensures Latest(batches, batches[i].batchIndex) == Some(batches[i])
  {
    if i < |batches| - 1 {
      LatestUnique(batches[..|batches| - 1], i);
    }
  }

  lemma OutcomesHaveIndices(results: seq<Batch>, batches: seq<Batch>, j: nat)
    requires OutcomesOf(results, batches) && j < |results|
    ensures exists i :: 0 <= i < |batches| && batches[i].batchIndex == results[j].batchIndex && !Done(batches[i])
  {
    var undone := Filter(batches, Undone());
    FilterMembers(batches, Undone());
    IdentitiesAt(results);
    IdentitiesAt(undone);
    assert Identities(results)[j] == Identities(undone)[j];
    assert undone[j] in undone && undone[j] in batches;
  }

  lemma OutcomesTail(batches: seq<Batch>, results: seq<Batch>)
    requires OutcomesOf(results, batches) && results != []
    ensures batches != []
    ensures Done(batches[0]) ==> OutcomesOf(results, batches[1..])
    ensures !Done(batches[0]) ==>
      IdentityOf(results[0]) == IdentityOf(batches[0]) && OutcomesOf(results[1..], batches[1..])
  {
    var undone := Filter(batches, Undone());
    IdentitiesAt(undone);
    IdentitiesAt(results);
    if !Done(batches[0]) {
      assert undone[1..] == Filter(batches[1..], Undone());
      assert Identities(results)[0] == Identities(undone)[0];
      assert Identities(results)[1..] == Identities(results[1..]) && Identities(undone)[1..] == Identities(undone[1..]);
    }
  }

  lemma {:induction false} OverlayIsDealt(batches: seq<Batch>, results: seq<Batch>)
    requires DistinctIndices(batches) && DistinctIndices(results) && OutcomesOf(results, batches)
    ensures Overlay(batches, results) == Dealt(batches, results)
  {
    if batches != [] && results != [] {
      var b := batches[0];
      OutcomesTail(batches, results);
      if Done(b) {
        if Latest(results, b.batchIndex).Some? {
          var j :| 0 <= j < |results| && results[j].batchIndex == b.batchIndex;
          OutcomesHaveIndices(results, batches, j);
        }
        OverlayIsDealt(batches[1..], results);
        assert Overlay(batches, results) == [b] + Overlay(batches[1..], results);
      } else {
        LatestUnique(results, 0);
        OverlayIsDealt(batches[1..], results[1..]);
        forall i | 0 < i < |batches| ensures LatestOr(results, batches[i]) == LatestOr(results[1..], batches[i]) {
          LatestTail(results, batches[i].batchIndex);
        }
        assert Overlay(batches, results) == [results[0]] + Overlay(batches[1..], results[1..]);
      }
    }
  }

  lemma {:induction false} LatestTail(batches: seq<Batch>, index: int)
    requires batches != [] && batches[0].batchIndex != index
    ensures Latest(batches, index) == Latest(batches[1..], index)
  {
    if |batches| > 1 && batches[|batches| - 1].batchIndex != index {
      LatestTail(batches[..|batches| - 1], index);
      assert batches[..|batches| - 1][1..] == batches[1..][..|batches[1..]| - 1];
    }
  }

  ghost predicate AllSuccess(batches: seq<Batch>) {
    forall i :: 0 <= i < |batches| ==> batches[i].status == Success
  }

  /** Dealing out results keeps every batch's identity and place. */
  lemma {:induction false} DealtKeeps(batches: seq<Batch>, results: seq<Batch>)
    requires Consistent(batches) && Consistent(results) && OutcomesOf(results, batches)
    ensures Identities(Dealt(batches, results)) == Identities(batches)
    ensures Consistent(Dealt(batches, results))
  {
    if batches != [] && results != [] {
      OutcomesTail(batches, results);
      DealtKeeps(batches[1..], if Done(batches[0]) then results else results[1..]);
      assert Dealt(batches, results)[1..] == Dealt(batches[1..], if Done(batches[0]) then results else results[1..]);
    }
  }

  lemma RestoredStep(b: Batch, rest: seq<Batch>)
    ensures Restored([b] + rest) == RestoredBy(b) + Restored(rest)
  {
    assert ([b] + rest)[1..] == rest;
  }

  /** It adds exactly the new successes. */
  lemma {:induction false} DealtAdds(batches: seq<Batch>, results: seq<Batch>)
    requires Consistent(batches) && OutcomesOf(results, batches)
    ensures Restored(Dealt(batches, results)) == Restored(batches) + Restored(results)
  {
    if results != [] {
      OutcomesTail(batches, results);
      if Done(batches[0]) {
        DealtAdds(batches[1..], results);
        RestoredStep(batches[0], Dealt(batches[1..], results));
      } else {
        DealtAdds(batches[1..], results[1..]);
        RestoredStep(results[0], Dealt(batches[1..], results[1..]));
      }
    }
  }

  lemma AllSuccessStep(batches: seq<Batch>)
    requires batches != []
    ensures AllSuccess(batches) <==> batches[0].status == Success && AllSuccess(batches[1..])
  {
    assert batches == [batches[0]] + batches[1..];
  }

  /** Every batch ends up successful exactly when every undone one was dealt a success. */
  lemma {:induction false} DealtSuccess(batches: seq<Batch>, results: seq<Batch>)
    requires Consistent(batches) && OutcomesOf(results, batches)
    ensures AllSuccess(Dealt(batches, results)) <==>
      (|results| == |Filter(batches, Undone())| && AllSuccess(results))
  {
    if results != [] {
      OutcomesTail(batches, results);
      var d, rest := Dealt(batches, results), if Done(batches[0]) then results else results[1..];
      DealtSuccess(batches[1..], rest);
      assert d[1..] == Dealt(batches[1..], rest);
      AllSuccessStep(d);
      AllSuccessStep(results);
    } else {
      var undone := Filter(batches, Undone());
      FilterMembers(batches, Undone());
      if undone != [] {
        assert undone[0] in undone && undone[0] in batches;
      } else {
        assert forall i :: 0 <= i < |batches| ==> batches[i] in batches;
      }
    }
  }

  // ---- One run, reported and recorded ----

  lemma {:induction false} ResetFacts(batches: seq<Batch>)
    ensures Identities(ResetAll(batches)) == Identities(batches)
    ensures forall i :: 0 <= i < |batches| ==> ResetAll(batches)[i] == Reset(batches[i])
  {
    if batches != [] {
      ResetFacts(batches[1..]);
    }
  }

  /** Not yet submitted, with no hash left over. */
  ghost predicate Unsent(batches: seq<Batch>) {
    forall i :: 0 <= i < |batches| ==> batches[i].status != Success && batches[i].txHash.None?
  }

  lemma {:induction false} RunStopsUnsent(queue: seq<Batch>, source: bool, refreshed: bool, l: Ledger, w: World)
    requires Unsent(queue)
    ensures var e := Run(queue, source, refreshed, l, w); e.end.Stopped? ==> e.end.failed.status == Failure && e.end.failed.txHash.None?
    decreases !refreshed, |queue|
  {
    if queue != [] {
      var s := Submit(l, queue[0].tx, w);
      if s.reply.Confirmed? {
        RunStopsUnsent(queue[1..], source, refreshed, s.ledger, w);
      } else if source && !refreshed && s.reply.Stale? {
        var (after, sequence) := ReadAccount(s.ledger, w);
        if sequence.Some? {
          RebuiltUnsent(queue, sequence.value);
          RunStopsUnsent(Rebuilt(queue, sequence.value), source, true, after, w);
        }
      }
    }
  }

  lemma {:induction false} RebuiltUnsent(batches: seq<Batch>, sequence: int)
    ensures Unsent(Rebuilt(batches, sequence))
  {
    if batches != [] {
      var used := if batches[0].tx.form.Unparsable? then sequence else sequence + 1;
      RebuiltUnsent(batches[1..], used);
      assert Rebuilt(batches, sequence)[1..] == Rebuilt(batches[1..], used);
    }
  }

  lemma {:induction false} SuccessesOfDone(done: seq<Batch>, tail: seq<Batch>)
    requires AllSuccess(done) && forall i :: 0 <= i < |tail| ==> tail[i].status != Success
    ensures Successes(done + tail) == done
    ensures Restored(done + tail) == multiset(Footprints(done))
  {
    if done == [] {
      assert done + tail == tail;
      if tail != [] {
        SuccessesOfDone([], tail[1..]);
        assert [] + tail[1..] == tail[1..];
      }
    } else {
      assert (done + tail)[1..] == done[1..] + tail;
      SuccessesOfDone(done[1..], tail);
      assert Footprints(done)[1..] == Footprints(done[1..]);
      assert Footprints(done) == [done[0].tx.footprint] + Footprints(done[1..]);
    }
  }

  /** What a run reports are the outcomes of the first batches of its queue, consistently recorded,
      and it completes exactly when all of them succeeded and none is left. */
  lemma RunReports(queue: seq<Batch>, source: bool, l: Ledger, w: World)
    requires Unsent(queue)
    ensures var e := Run(queue, source, false, l, w);
      Identities(Reported(e)) <= Identities(queue) &&
      Consistent(Reported(e)) &&
      Restored(Reported(e)) == multiset(Footprints(e.done)) &&
      (e.end.Completed? <==> |Reported(e)| == |queue| && AllSuccess(Reported(e)))
  {
    var e := Run(queue, source, false, l, w);
    RunPartitions(queue, source, false, l, w);
    RunOutcomes(queue, source, false, l, w);
    RunStopsUnsent(queue, source, false, l, w);
    IdentitiesAt(queue);
    IdentitiesAt(e.done);
    IdentitiesAt(Remaining(e));
    var tail := Reported(e)[|e.done|..];
    SuccessesOfDone(e.done, tail);
    AppendFacts(e.done, tail);
    assert Reported(e) == e.done + tail;
    IdentitiesAt(tail);
    if tail != [] {
      assert Identities(Remaining(e))[0] == IdentityOf(e.end.failed) == Identities(tail)[0];
      assert Reported(e)[|e.done|].status == Failure;
    }
  }
}
