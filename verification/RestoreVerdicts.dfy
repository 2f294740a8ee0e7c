/** What a concurrent restore reports, read off the verdicts of its submissions alone. */
module RestoreVerdicts {
  import opened Seqs
  import opened SequentialRestore
  import opened ConcurrentRestore

  /** The keys of the batches below `n` whose submission is confirmed. */
  function ConfirmedKeys(job: Job, n: nat): int
    requires n <= |job.batches|
  {
    if n == 0 then 0
    else ConfirmedKeys(job, n - 1) + if job.verdict(n - 1).Confirmed? then job.batches[n - 1].keysRestored else 0
  }

  /** How batch `i` is reported. */
  ghost predicate Reports(job: Job, reported: Option<Batch>, i: nat)
    requires i < |job.batches|
  {
    var given := job.batches[i];
    reported.Some? && reported.value.tx == given.tx && IdentityOf(reported.value) == IdentityOf(given) &&
    match job.verdict(i)
    case Confirmed(hash) =>
      reported.value.status == Success && reported.value.txHash == Some(hash) && reported.value.error == given.error
    case Rejected(message) =>
      reported.value.status == Failure && reported.value.error == Some(message) && reported.value.txHash == given.txHash
  }

  lemma {:induction false} SumIsConfirmed(job: Job, n: nat)
    requires n <= |job.batches|
    ensures Sum(Outcomes(job)[..n], Gain()) == ConfirmedKeys(job, n)
  {
    if n > 0 {
      SumIsConfirmed(job, n - 1);
      assert Outcomes(job)[..n] == Outcomes(job)[..n - 1] + [Outcomes(job)[n - 1]];
      SumAppend(Outcomes(job)[..n - 1], [Outcomes(job)[n - 1]], Gain());
      SumSingle(Outcomes(job)[n - 1], Gain());
    }
  }

  lemma {:induction false} FailingRejected(job: Job, n: nat)
    requires n <= |job.batches|
    ensures StrictlySortedBy(Failing(job, n), Id())
    ensures forall k :: k in Failing(job, n) <==> 0 <= k < n && job.verdict(k).Rejected?
  {
    if n > 0 {
      FailingRejected(job, n - 1);
      var front := Failing(job, n - 1);
      assert forall i :: 0 <= i < |front| ==> front[i] in front;
      assert Failing(job, n) == if job.verdict(n - 1).Rejected? then front + [n - 1] else front;
    }
  }

  /** However the tasks interleave, each batch stands in its own place: a confirmed one as a success with its hash, a
      rejected one as a failure with its message. The failed indices are exactly the rejected ones, in increasing
      order, the total is over the confirmed ones, and the restore succeeds exactly when none is rejected. */
  lemma ReportFollowsVerdicts(job: Job, events: seq<Event>, s: State)
    requires job.limit >= 1 && Reaches(job, events, s) && AllFinished(s)
    ensures var r, n := Report(job, s), |job.batches|;
      |r.batches| == n && (forall i :: 0 <= i < n ==> Reports(job, r.batches[i], i)) &&
      StrictlySortedBy(r.failedBatchIndices, Id()) &&
      (forall k :: k in r.failedBatchIndices <==> 0 <= k < n && job.verdict(k).Rejected?) &&
      r.failedBatchCount == |r.failedBatchIndices| &&
      r.totalKeysRestored == ConfirmedKeys(job, n) &&
      (r.success <==> forall i :: 0 <= i < n ==> job.verdict(i).Confirmed?)
  {
    var n := |job.batches|;
    ReportDetermined(job, events, s);
    FailingRejected(job, n);
    SumIsConfirmed(job, n);
    assert Outcomes(job)[..n] == Outcomes(job);
    if Failing(job, n) != [] {
      assert Failing(job, n)[0] in Failing(job, n);
    }
  }
}
