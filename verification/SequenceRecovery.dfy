/** When the one-time sequence refresh is enough. */
module SequenceRecovery {
  import opened Seqs
  import opened Network
  import opened SequentialRestore

  /** Every submission reaches the ledger, which alone decides by sequence number. */
  ghost predicate Prompt(w: World) {
    forall k :: w.submit(k).verdict == Deliver
  }

  /** No other submitter moves the account just before any of the `n` submissions from `from` on. */
  ghost predicate Still(w: World, from: nat, n: nat) {
    forall k :: from <= k < from + n ==> w.submit(k).moved == 0
  }

  ghost predicate AllPlain(queue: seq<Batch>) {
    forall i :: 0 <= i < |queue| ==> queue[i].tx.form.Plain?
  }

  /** Sequence numbers that follow on from `sequence` without a gap. */
  ghost predicate Consecutive(queue: seq<Batch>, sequence: int) {
    forall i :: 0 <= i < |queue| ==> queue[i].tx.sequence == sequence + 1 + i
  }

  lemma {:induction false} RebuiltConsecutive(queue: seq<Batch>, sequence: int)
    requires AllPlain(queue)
    ensures Consecutive(Rebuilt(queue, sequence), sequence) && AllPlain(Rebuilt(queue, sequence))
  {
    if queue != [] {
      RebuiltConsecutive(queue[1..], sequence + 1);
      assert Rebuilt(queue, sequence)[1..] == Rebuilt(queue[1..], sequence + 1);
    }
  }

  /** Consecutive batches that parse all go through exactly when the account is left alone. */
  lemma {:induction false} ConsecutiveRun(queue: seq<Batch>, source: bool, l: Ledger, w: World)
    requires Prompt(w) && Consecutive(queue, l.sequence) && AllPlain(queue)
    ensures Run(queue, source, true, l, w).end.Completed? <==> Still(w, l.submissions, |queue|)
    decreases |queue|
  {
    if queue != [] {
      var s := Submit(l, queue[0].tx, w);
      if s.reply.Confirmed? {
        ConsecutiveRun(queue[1..], source, s.ledger, w);
        assert Still(w, l.submissions, |queue|) <==> Still(w, s.ledger.submissions, |queue| - 1) by {
          assert w.submit(l.submissions).moved == 0;
        }
      } else {
        assert w.submit(l.submissions).moved != 0;
      }
    }
  }

  /** A batch that was not rebuilt and is behind its turn stops a run before its end. */
  lemma {:induction false} BehindItsTurn(queue: seq<Batch>, source: bool, l: Ledger, w: World, i: nat)
    requires Prompt(w) && i < |queue| && !queue[i].tx.form.Plain? && queue[i].tx.sequence <= l.sequence + i
    ensures !Run(queue, source, true, l, w).end.Completed?
    decreases i
  {
    var s := Submit(l, queue[0].tx, w);
    assert w.submit(l.submissions).verdict == Deliver;
    if s.reply.Confirmed? {
      BehindItsTurn(queue[1..], source, s.ledger, w, i - 1);
    }
  }

  lemma {:induction false} RebuiltAt(queue: seq<Batch>, sequence: int, i: nat)
    requires i < |queue|
    ensures Rebuilt(queue, sequence)[i].tx.form == queue[i].tx.form
    ensures !queue[i].tx.form.Plain? ==> Rebuilt(queue, sequence)[i].tx == queue[i].tx
  {
    if i > 0 {
      var used := if queue[0].tx.form.Unparsable? then sequence else sequence + 1;
      RebuiltAt(queue[1..], used, i - 1);
      assert Rebuilt(queue, sequence)[1..] == Rebuilt(queue[1..], used);
    }
  }

  /** On a ledger that decides alone, only a fee bump is rejected other than as stale; and a stale batch of a
      consecutive plan is behind the account. */
  lemma {:induction false} PromptRejection(queue: seq<Batch>, l: Ledger, w: World)
    requires Prompt(w) && FirstRejection(queue, l, w).Some?
    ensures var r := FirstRejection(queue, l, w).value;
      r.rest != [] && (!r.reply.Stale? ==> r.rest[0].tx.form.Wrapped?) && (AllPlain(queue) ==> AllPlain(r.rest)) &&
      (r.reply.Stale? && Consecutive(queue, l.sequence) ==> Consecutive(r.rest, r.rest[0].tx.sequence - 1)) &&
      (r.reply.Stale? && Consecutive(queue, l.sequence) ==> r.rest[0].tx.sequence <= r.ledger.sequence)
    decreases |queue|
  {
    var s := Submit(l, queue[0].tx, w);
    assert w.submit(l.submissions).verdict == Deliver;
    if s.reply.Confirmed? {
      PromptRejection(queue[1..], s.ledger, w);
      if Consecutive(queue, l.sequence) {
        assert w.submit(l.submissions).moved == 0;
        assert Consecutive(queue[1..], s.ledger.sequence);
      }
    }
  }

  /** For any mix of transactions, numbered without a gap from the account, or all of them plain: with a source
      account, the run restores everything exactly when at the first rejection, if there is one, all that
      is left can be rebuilt and no other submitter moves the account while it is resubmitted. Movement
      before that, however often and whenever, does no harm. There is a refresh exactly when a rejection
      is stale. */
  lemma RecoveryIff(queue: seq<Batch>, l: Ledger, w: World)
    requires Prompt(w) && Readable(w) && (Consecutive(queue, l.sequence) || AllPlain(queue))
    ensures var e, r := Run(queue, true, false, l, w), FirstRejection(queue, l, w);
      (e.end.Completed? <==> (r.Some? ==> AllPlain(r.value.rest) && Still(w, r.value.ledger.submissions, |r.value.rest|))) &&
      e.refreshes == (if r.Some? && r.value.reply.Stale? then 1 else 0)
  {
    RunPhases(queue, true, false, l, w);
    match FirstRejection(queue, l, w)
    case None =>
    case Some(r) =>
      PromptRejection(queue, l, w);
      if r.reply.Stale? {
        assert w.read(r.ledger.accountReads).Some?;
        var (after, sequence) := ReadAccount(r.ledger, w);
        var rebuilt := Rebuilt(r.rest, sequence.value);
        RunPhases(rebuilt, true, true, after, w);
        if AllPlain(r.rest) {
          RebuiltConsecutive(r.rest, sequence.value);
          ConsecutiveRun(rebuilt, true, after, w);
        } else {
          var i :| 0 <= i < |r.rest| && !r.rest[i].tx.form.Plain?;
          RebuiltAt(r.rest, sequence.value, i);
          BehindItsTurn(rebuilt, true, after, w, i);
        }
      }
  }

  /** Movement confined to before the first rejection, and what is left then can be rebuilt: one refresh at
      most, and every batch lands once. */
  lemma Recovery(queue: seq<Batch>, l: Ledger, w: World)
    requires Prompt(w) && Readable(w) && (Consecutive(queue, l.sequence) || AllPlain(queue))
    requires var r := FirstRejection(queue, l, w);
      r.Some? ==> AllPlain(r.value.rest) && forall k :: k >= r.value.ledger.submissions ==> w.submit(k).moved == 0
    ensures var e := Run(queue, true, false, l, w);
      e.end.Completed? && e.refreshes <= 1 && e.ledger.landed == l.landed + Footprints(queue) &&
      KeyCount(e.done) == KeyCount(queue)
  {
    var e := Run(queue, true, false, l, w);
    RecoveryIff(queue, l, w);
    PromptIsClear(w);
    ClearRunsAreRecorded(queue, true, false, l, w);
    RunPartitions(queue, true, false, l, w);
    RunLands(queue, true, false, l, w);
    assert Identities(e.done) + [] == Identities(e.done);
    IdentitiesDetermine(e.done, queue);
  }

  lemma PromptIsClear(w: World)
    requires Prompt(w)
    ensures Clear(w)
  {
    forall k ensures !w.submit(k).verdict.LoseTrack? && !w.submit(k).verdict.AnswerRepeat? {
      assert w.submit(k).verdict == Deliver;
    }
  }

  /** Batches numbered from the account's own sequence number, none of them a fee bump, are all confirmed while
      nobody else moves it. */
  lemma {:induction false} NeverStale(queue: seq<Batch>, l: Ledger, w: World)
    requires Prompt(w) && Consecutive(queue, l.sequence) && Still(w, l.submissions, |queue|)
    requires forall i :: 0 <= i < |queue| ==> !queue[i].tx.form.Wrapped?
    ensures FirstRejection(queue, l, w).None?
    decreases |queue|
  {
    if queue != [] {
      assert w.submit(l.submissions).verdict == Deliver && w.submit(l.submissions).moved == 0;
      NeverStale(queue[1..], Submit(l, queue[0].tx, w).ledger, w);
    }
  }

  /** Whatever the network does, a run with a fee-bumped batch does not succeed: the transaction is never sent,
      and never replaced by one that could be. */
  lemma {:induction false} FeeBumpNeverSent(queue: seq<Batch>, source: bool, refreshed: bool, l: Ledger, w: World, i: nat)
    requires i < |queue| && queue[i].tx.form.Wrapped?
    ensures var e := Run(queue, source, refreshed, l, w); !e.end.Completed? && |e.done| <= i
    decreases !refreshed, |queue|
  {
    var s := Submit(l, queue[0].tx, w);
    if s.reply.Confirmed? {
      FeeBumpNeverSent(queue[1..], source, refreshed, s.ledger, w, i - 1);
    } else if source && !refreshed && s.reply.Stale? {
      var (after, sequence) := ReadAccount(s.ledger, w);
      if sequence.Some? {
        RebuiltAt(queue, sequence.value, i);
        FeeBumpNeverSent(Rebuilt(queue, sequence.value), source, true, after, w, i);
      }
    }
  }
}
