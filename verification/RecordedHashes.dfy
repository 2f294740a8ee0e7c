/** Which submission each recorded hash and error comes from. */
module RecordedHashes {
  import opened Seqs
  import opened Network
  import opened SequentialRestore

  /** `done` carries, in order, the notes of the submissions from number `n` on, each of them delivered. */
  ghost predicate Carries(done: seq<Batch>, w: World, n: nat) {
    forall i :: 0 <= i < |done| ==> Delivered(done[i], w.submit(n + i))
  }

  /** `b` is a success with the hash reported by this submission. */
  ghost predicate Delivered(b: Batch, weather: Weather) {
    weather.verdict == Deliver && b.status == Success && b.txHash == Some(weather.note)
  }

  lemma CarriesFirst(b: Batch, hash: string, done: seq<Batch>, w: World, n: nat)
    requires Carries(done, w, n + 1) && w.submit(n) == Weather(w.submit(n).moved, Deliver, hash)
    ensures Carries([Succeeded(b, hash)] + done, w, n)
  {
    var all := [Succeeded(b, hash)] + done;
    forall i | 0 <= i < |all| ensures Delivered(all[i], w.submit(n + i)) {
      if i > 0 {
        assert all[i] == done[i - 1] && Delivered(done[i - 1], w.submit(n + 1 + (i - 1)));
      }
    }
  }

  /** How many batches are confirmed before the first rejection. */
  function ConfirmedFirst(queue: seq<Batch>, l: Ledger, w: World): (k: nat)
    ensures k <= |queue|
  {
    if queue == [] then 0
    else
      var s := Submit(l, queue[0].tx, w);
      if s.reply.Confirmed? then 1 + ConfirmedFirst(queue[1..], s.ledger, w) else 0
  }

  /** A run that stops records the error of the submission it stopped at, and calls it ambiguous exactly when that one
      was sent, lost track of and recognised as lost. */
  ghost predicate StopsWith(end: End, weather: Weather) {
    end.Stopped? ==>
      end.failed.status == Failure && end.failed.error == Some(weather.note) &&
      (end.ambiguous <==> !end.failed.tx.form.Wrapped? && weather.verdict.LoseTrack? && weather.verdict.recognised)
  }

  /** Where a run's hashes come from: its first `k` from consecutive submissions, the others from those after the
      rejected one; and it makes one submission per batch and one per rejection. */
  ghost predicate Recorded(e: Execution, k: nat, w: World, n: nat) {
    k <= |e.done| && (e.refreshes == 0 ==> k == |e.done|) &&
    Carries(e.done[..k], w, n) && Carries(e.done[k..], w, n + k + 1) &&
    StopsWith(e.end, w.submit(n + |e.done| + e.refreshes)) &&
    e.ledger.submissions == n + |e.done| + e.refreshes + if e.end.Stopped? then 1 else 0
  }

  lemma RecordedFirst(e: Execution, b: Batch, hash: string, k: nat, w: World, n: nat)
    requires Recorded(e, k, w, n + 1) && w.submit(n).verdict == Deliver && w.submit(n).note == hash
    ensures Recorded(e.(done := [Succeeded(b, hash)] + e.done), k + 1, w, n)
  {
    var all := [Succeeded(b, hash)] + e.done;
    CarriesFirst(b, hash, e.done[..k], w, n);
    assert all[..k + 1] == [Succeeded(b, hash)] + e.done[..k] && all[k + 1..] == e.done[k..];
  }

  /** A run that ends with its first submission. */
  lemma RecordedAtEnd(queue: seq<Batch>, source: bool, refreshed: bool, l: Ledger, w: World)
    requires queue != [] && !Submit(l, queue[0].tx, w).reply.Confirmed?
    requires var s := Submit(l, queue[0].tx, w);
      source && !refreshed && s.reply.Stale? ==> w.read(s.ledger.accountReads).None?
    ensures Recorded(Run(queue, source, refreshed, l, w), 0, w, l.submissions)
    ensures Run(queue, source, refreshed, l, w).done == []
  {
  }

  /** A run without a refresh. */
  ghost predicate OnePhase(e: Execution, k: nat, w: World, n: nat) {
    e.refreshes == 0 && |e.done| == k && Recorded(e, k, w, n)
  }

  /** A run that may not refresh any more. */
  lemma {:induction false} LastPhaseRecorded(queue: seq<Batch>, source: bool, refreshed: bool, l: Ledger, w: World)
    requires refreshed || !source
    ensures OnePhase(Run(queue, source, refreshed, l, w), ConfirmedFirst(queue, l, w), w, l.submissions)
    decreases |queue|
  {
    if queue != [] {
      var s := Submit(l, queue[0].tx, w);
      if s.reply.Confirmed? {
        LastPhaseRecorded(queue[1..], source, refreshed, s.ledger, w);
        var e := Run(queue[1..], source, refreshed, s.ledger, w);
        RecordedFirst(e, queue[0], s.reply.hash, |e.done|, w, l.submissions);
      } else {
        RecordedAtEnd(queue, source, refreshed, l, w);
      }
    }
  }

  lemma RecordedAfterRefresh(e: Execution, later: Execution, k: nat, w: World, n: nat)
    requires OnePhase(later, k, w, n + 1) && e == later.(refreshes := 1, unseen := e.unseen)
    ensures Recorded(e, 0, w, n)
  {
    assert e.done[..k] == e.done && e.done[0..] == e.done;
  }

  lemma RefreshUnfolds(queue: seq<Batch>, l: Ledger, w: World)
    requires queue != [] && Submit(l, queue[0].tx, w).reply.Stale? && w.read(l.accountReads).Some?
    ensures var (after, sequence) := ReadAccount(Submit(l, queue[0].tx, w).ledger, w);
      var e, later := Run(queue, true, false, l, w), Run(Rebuilt(queue, sequence.value), true, true, after, w);
      after.submissions == l.submissions + 1 && e == later.(refreshes := later.refreshes + 1, unseen := e.unseen)
  {
  }

  lemma RebuiltRecorded(e: Execution, rebuilt: seq<Batch>, after: Ledger, w: World, n: nat)
    requires after.submissions == n + 1
    requires var later := Run(rebuilt, true, true, after, w); e == later.(refreshes := later.refreshes + 1, unseen := e.unseen)
    ensures Recorded(e, 0, w, n)
  {
    LastPhaseRecorded(rebuilt, true, true, after, w);
    RecordedAfterRefresh(e, Run(rebuilt, true, true, after, w), ConfirmedFirst(rebuilt, after, w), w, n);
  }

  lemma RefreshRecorded(queue: seq<Batch>, l: Ledger, w: World)
    requires queue != [] && Submit(l, queue[0].tx, w).reply.Stale? && w.read(l.accountReads).Some?
    ensures Recorded(Run(queue, true, false, l, w), 0, w, l.submissions)
  {
    var (after, sequence) := ReadAccount(Submit(l, queue[0].tx, w).ledger, w);
    RefreshUnfolds(queue, l, w);
    RebuiltRecorded(Run(queue, true, false, l, w), Rebuilt(queue, sequence.value), after, w, l.submissions);
  }

  /** Every success carries the hash of its own submission: the `i`-th that of submission `i` before the refresh, and of
      submission `i + 1` after it, the rejected submission lying in between. A run that stops carries the error of its
      last submission. */
  lemma {:induction false} RunRecords(queue: seq<Batch>, source: bool, l: Ledger, w: World)
    ensures Recorded(Run(queue, source, false, l, w), ConfirmedFirst(queue, l, w), w, l.submissions)
    decreases |queue|
  {
    if !source {
      LastPhaseRecorded(queue, source, false, l, w);
    } else if queue != [] {
      var s := Submit(l, queue[0].tx, w);
      if s.reply.Confirmed? {
        RunRecords(queue[1..], source, s.ledger, w);
        RecordedFirst(Run(queue[1..], source, false, s.ledger, w), queue[0], s.reply.hash,
          ConfirmedFirst(queue[1..], s.ledger, w), w, l.submissions);
      } else if s.reply.Stale? && w.read(l.accountReads).Some? {
        RefreshRecorded(queue, l, w);
      } else {
        RecordedAtEnd(queue, source, false, l, w);
      }
    }
  }

  /** `e` carries at `i` the hash of submission `at`. */
  ghost predicate HashFrom(e: Execution, i: int, w: World, at: nat) {
    0 <= i < |e.done| && Delivered(e.done[i], w.submit(at))
  }

  lemma CarriedHash(e: Execution, k: nat, w: World, n: nat, i: nat)
    requires Recorded(e, k, w, n) && i < |e.done|
    ensures HashFrom(e, i, w, n + i + if i < k then 0 else 1)
    ensures e.refreshes == 0 ==> i < k
  {
    if i < k {
      assert Delivered(e.done[..k][i], w.submit(n + i));
    } else {
      assert Delivered(e.done[k..][i - k], w.submit(n + k + 1 + (i - k)));
    }
  }

  /** The same, batch by batch. */
  lemma HashOf(queue: seq<Batch>, source: bool, l: Ledger, w: World, i: nat)
    requires i < |Run(queue, source, false, l, w).done|
    ensures HashFrom(Run(queue, source, false, l, w), i, w,
      l.submissions + i + if i < ConfirmedFirst(queue, l, w) then 0 else 1)
    ensures Run(queue, source, false, l, w).refreshes == 0 ==> HashFrom(Run(queue, source, false, l, w), i, w, l.submissions + i)
  {
    RunRecords(queue, source, l, w);
    CarriedHash(Run(queue, source, false, l, w), ConfirmedFirst(queue, l, w), w, l.submissions, i);
  }
}
