/** The client object: the sequential executor, its captured failure state, resume and retry, as the
    loops that carry them out. */
module RestoreClient {
  import opened Seqs
  import opened Network
  import opened SequentialRestore
  import opened RestoreReceipts
  import opened RestoreRounds
  import opened RestoreRetries

  /** `rest` is what remains of the run `total` once `results` have succeeded. */
  ghost predicate Continues(total: Execution, results: seq<Batch>, rest: Execution) {
    total.ledger == rest.ledger && total.end == rest.end && total.done == results + rest.done
  }

  lemma AfterSuccess(total: Execution, results: seq<Batch>, queue: seq<Batch>, source: bool, refreshed: bool, l: Ledger, w: World)
    requires queue != [] && Continues(total, results, Run(queue, source, refreshed, l, w))
    requires Submit(l, queue[0].tx, w).reply.Confirmed?
    ensures var s := Submit(l, queue[0].tx, w); var b := Succeeded(queue[0], s.reply.hash);
      Continues(total, results + [b], Run(queue[1..], source, refreshed, s.ledger, w)) &&
      KeyCount(results + [b]) == KeyCount(results) + b.keysRestored
  {
    var s := Submit(l, queue[0].tx, w);
    var b := Succeeded(queue[0], s.reply.hash);
    var later := Run(queue[1..], source, refreshed, s.ledger, w).done;
    assert results + ([b] + later) == results + [b] + later;
    AppendFacts(results, [b]);
  }

  lemma AfterRefresh(total: Execution, results: seq<Batch>, queue: seq<Batch>, l: Ledger, w: World)
    requires queue != [] && Continues(total, results, Run(queue, true, false, l, w))
    requires Submit(l, queue[0].tx, w).reply.Stale?
    ensures var (after, sequence) := ReadAccount(Submit(l, queue[0].tx, w).ledger, w);
      if sequence.None? then total.ledger == after && total.end == ReadFailed(queue)
      else Continues(total, results, Run(Rebuilt(queue, sequence.value), true, true, after, w))
  {
  }

  lemma AfterStop(total: Execution, results: seq<Batch>, queue: seq<Batch>, source: Option<string>, refreshed: bool, l: Ledger, w: World)
    requires queue != [] && Continues(total, results, Run(queue, Truthy(source), refreshed, l, w))
    requires var reply := Submit(l, queue[0].tx, w).reply; !reply.Confirmed? && !(Truthy(source) && !refreshed && reply.Stale?)
    ensures var s := Submit(l, queue[0].tx, w);
      var failed := queue[0].(status := Failure, error := Some(s.reply.message));
      total.ledger == s.ledger &&
      ResultOf(total) == Returned(RestoreResult(
        false, results + [failed], KeyCount(results), Some(|results|), Some(s.reply.message), s.reply.Ambiguous?)) &&
      StateAfter(total, source, None) == Some(FailedState(
        if source.Some? then source.value else "", [failed] + queue[1..], |results|, KeyCount(results)))
  {
    assert results + [] == results;
  }

  lemma AfterAll(total: Execution, results: seq<Batch>, queue: seq<Batch>, source: bool, refreshed: bool, l: Ledger, w: World)
    requires queue == [] && Continues(total, results, Run(queue, source, refreshed, l, w))
    ensures total.ledger == l && total.end.Completed?
    ensures ResultOf(total) == Returned(RestoreResult(true, results, KeyCount(results), None, None, false))
  {
    assert results + [] == results;
  }

  /** One turn of the rebuilding loop. */
  lemma RebuiltStep(done: seq<Batch>, batches: seq<Batch>, sequence: int)
    requires batches != []
    ensures var b := batches[0];
      var tx := if b.tx.form.Plain? then b.tx.(sequence := sequence + 1) else b.tx;
      var used := if b.tx.form.Unparsable? then sequence else sequence + 1;
      done + Rebuilt(batches, sequence) == (done + [Requeued(b, tx)]) + Rebuilt(batches[1..], used)
  {
  }

  class RestoreClient {
    const world: World
    var ledger: Ledger
    var lastFailedRestoreState: Option<FailedState>

    constructor (world: World, ledger: Ledger)
      ensures this.world == world && Abs() == Client(None, ledger)
    {
      this.world, this.ledger, lastFailedRestoreState := world, ledger, None;
    }

    ghost function Abs(): Client reads this { Client(lastFailedRestoreState, ledger) }

    method SubmitSignedTransaction(tx: Transaction) returns (reply: Reply)
      modifies this`ledger
      ensures ledger == Submit(old(ledger), tx, world).ledger && reply == Submit(old(ledger), tx, world).reply
    {
      var s := Submit(ledger, tx, world);
      ledger := s.ledger;
      return s.reply;
    }

    method GetAccount() returns (sequence: Option<int>)
      modifies this`ledger
      ensures (ledger, sequence) == ReadAccount(old(ledger), world)
    {
      var (after, r) := ReadAccount(ledger, world);
      ledger := after;
      return r;
    }

    method RebuildRestoreBatches(batches: seq<Batch>) returns (r: Outcome<seq<Batch>>)
      modifies this`ledger
      ensures ledger == ReadAccount(old(ledger), world).0
      ensures var sequence := ReadAccount(old(ledger), world).1;
        r == if sequence.None? then Threw else Returned(Rebuilt(batches, sequence.value))
    {
      var account := GetAccount();
      if account.None? {
        return Threw;
      }
      var currentSequence := account.value;
      var rebuilt: seq<Batch> := [];
      ghost var all := Rebuilt(batches, currentSequence);
      assert batches[0..] == batches && [] + all == all;
      for i := 0 to |batches|
        invariant ledger == ReadAccount(old(ledger), world).0
        invariant rebuilt + Rebuilt(batches[i..], currentSequence) == all
      {
        var batch := batches[i];
        RebuiltStep(rebuilt, batches[i..], currentSequence);
        assert batches[i..][0] == batch && batches[i..][1..] == batches[i + 1..];
        var rebuildTx := batch.tx;
        if !batch.tx.form.Unparsable? {
          var batchSequence := currentSequence;
          currentSequence := currentSequence + 1;
          if batch.tx.form.Plain? {
            rebuildTx := batch.tx.(sequence := batchSequence + 1);
          }
        }
        rebuilt := rebuilt + [batch.(tx := rebuildTx, status := Pending, txHash := None, error := None)];
      }
      assert batches[|batches|..] == [] && rebuilt + [] == rebuilt;
      return Returned(rebuilt);
    }

    method ExecuteRestoreBatches(batches: seq<Batch>, sourceAccountID: Option<string>) returns (r: Outcome<RestoreResult>)
      modifies this
      ensures (r, Abs()) == Execute(old(Abs()), batches, sourceAccountID, world)
    {
      var results: seq<Batch> := [];
      var totalKeysRestored := 0;
      var queue := batches;
      var sequenceRefreshed := false;
      var i: int := 0;
      ghost var total := Run(batches, Truthy(sourceAccountID), false, ledger, world);
      assert [] + total.done == total.done && batches[0..] == batches;
      while i < |queue|
        invariant 0 <= i <= |queue| && |results| == i
        invariant totalKeysRestored == KeyCount(results)
        invariant lastFailedRestoreState == old(lastFailedRestoreState)
        invariant Continues(total, results, Run(queue[i..], Truthy(sourceAccountID), sequenceRefreshed, ledger, world))
        decreases !sequenceRefreshed, |queue| - i
      {
        var batch := queue[i];
        ghost var left, before := queue[i..], ledger;
        assert left[0] == batch && left[1..] == queue[i + 1..];
        var reply := SubmitSignedTransaction(batch.tx);
        if reply.Confirmed? {
          AfterSuccess(total, results, left, Truthy(sourceAccountID), sequenceRefreshed, before, world);
          results := results + [batch.(txHash := Some(reply.hash), status := Success)];
          totalKeysRestored := totalKeysRestored + batch.keysRestored;
        } else if Truthy(sourceAccountID) && !sequenceRefreshed && reply.Stale? {
          AfterRefresh(total, results, left, before, world);
          sequenceRefreshed := true;
          var rebuilt := RebuildRestoreBatches(queue[i..]);
          if rebuilt.Threw? {
            return Threw;
          }
          queue := queue[..i] + rebuilt.value;
          assert queue[i..] == rebuilt.value;
          i := i - 1;
        } else {
          AfterStop(total, results, left, sourceAccountID, sequenceRefreshed, before, world);
          var failed := batch.(status := Failure, error := Some(reply.message));
          var failedBatches := [failed] + queue[i + 1..];
          lastFailedRestoreState := Some(FailedState(
            if sourceAccountID.Some? then sourceAccountID.value else "", failedBatches, i, totalKeysRestored));
          return Returned(RestoreResult(
            false, results + [failed], totalKeysRestored, Some(i), Some(reply.message), reply.Ambiguous?));
        }
        i := i + 1;
      }
      AfterAll(total, results, queue[i..], Truthy(sourceAccountID), sequenceRefreshed, ledger, world);
      lastFailedRestoreState := None;
      return Returned(RestoreResult(true, results, totalKeysRestored, None, None, false));
    }

    method ResumeRestoreBatches(receipt: seq<Batch>, sourceAccountID: string) returns (r: Outcome<RestoreResult>)
      modifies this
      ensures (r, ledger) == Resume(receipt, sourceAccountID != "", old(ledger), world)
      ensures lastFailedRestoreState == if ResumeQueue(receipt) == [] then old(lastFailedRestoreState)
        else StateAfter(
          ResumedRun(receipt, sourceAccountID != "", old(ledger), world), Some(sourceAccountID), old(lastFailedRestoreState))
    {
      var ordered := StableSort(receipt, ByIndex());
      var pending := Filter(ordered, Undone());
      if |pending| == 0 {
        return Returned(RestoreResult(true, ordered, KeyCount(ordered), None, None, false));
      }
      var resumed := ExecuteRestoreBatches(ResetAll(pending), Some(sourceAccountID));
      if resumed.Threw? {
        return Threw;
      }
      var merged := Overlay(ordered, resumed.value.batches);
      return Returned(RestoreResult(
        resumed.value.success, merged, KeyCount(Successes(merged)), resumed.value.failedAtBatchIndex,
        resumed.value.error, false));
    }

    method RetryFailedRestore(state: FailedState) returns (r: Outcome<RetryResult>)
      modifies this
      ensures (r, Abs()) == Retry(old(Abs()), state, world)
    {
      if |state.failedBatches| == 0 {
        return Returned(RetryResult(true, state.partialEntriesRestored));
      }
      var rebuilt := RebuildRestoreBatches(state.failedBatches);
      if rebuilt.Threw? {
        return Threw;
      }
      var retryResult := ExecuteRestoreBatches(rebuilt.value, Some(state.sourceAccountID));
      if retryResult.Threw? {
        return Threw;
      }
      if retryResult.value.success {
        lastFailedRestoreState := None;
      }
      return Returned(RetryResult(
        retryResult.value.success, state.partialEntriesRestored + retryResult.value.totalKeysRestored));
    }
  }
}
