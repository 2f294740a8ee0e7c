/** Restore batches run one after the other: the run itself, the one-time sequence refresh, and what
    every run accounts for. */
module SequentialRestore {
  import opened Seqs
  import opened Network

  datatype Status = Pending | Success | Failure

  datatype Batch = Batch(
    batchIndex: int,
    tx: Transaction,
    keysRestored: int,
    status: Status,
    txHash: Option<string>,
    error: Option<string>)

  /** What a batch stays through rebuilding, running and recording. */
  datatype Identity = Identity(batchIndex: int, footprint: Footprint, keysRestored: int)

  function IdentityOf(b: Batch): Identity { Identity(b.batchIndex, b.tx.footprint, b.keysRestored) }

  function Identities(batches: seq<Batch>): seq<Identity> {
    if batches == [] then [] else [IdentityOf(batches[0])] + Identities(batches[1..])
  }

  function Footprints(batches: seq<Batch>): seq<Footprint> {
    if batches == [] then [] else [batches[0].tx.footprint] + Footprints(batches[1..])
  }

  function KeyCount(batches: seq<Batch>): int {
    if batches == [] then 0 else batches[0].keysRestored + KeyCount(batches[1..])
  }

  lemma {:induction false} IdentitiesAppend(a: seq<Batch>, b: seq<Batch>)
    ensures Identities(a + b) == Identities(a) + Identities(b)
  {
    if a == [] {
      assert a + b == b;
    } else {
      var head, tail := [IdentityOf(a[0])], Identities(a[1..]);
      assert (a + b)[1..] == a[1..] + b;
      IdentitiesAppend(a[1..], b);
      ConcatAssoc(head, tail, Identities(b));
    }
  }

  lemma {:induction false} FootprintsAppend(a: seq<Batch>, b: seq<Batch>)
    ensures Footprints(a + b) == Footprints(a) + Footprints(b)
  {
    if a == [] {
      assert a + b == b;
    } else {
      var head, tail := [a[0].tx.footprint], Footprints(a[1..]);
      assert (a + b)[1..] == a[1..] + b;
      FootprintsAppend(a[1..], b);
      ConcatAssoc(head, tail, Footprints(b));
    }
  }

  lemma {:induction false} KeyCountAppend(a: seq<Batch>, b: seq<Batch>)
    ensures KeyCount(a + b) == KeyCount(a) + KeyCount(b)
  {
    if a == [] {
      assert a + b == b;
    } else {
      assert (a + b)[1..] == a[1..] + b;
      KeyCountAppend(a[1..], b);
    }
  }

  lemma AppendFacts(a: seq<Batch>, b: seq<Batch>)
    ensures Identities(a + b) == Identities(a) + Identities(b)
    ensures Footprints(a + b) == Footprints(a) + Footprints(b)
    ensures KeyCount(a + b) == KeyCount(a) + KeyCount(b)
  {
    IdentitiesAppend(a, b);
    FootprintsAppend(a, b);
    KeyCountAppend(a, b);
  }

  /** Equal identities mean equal footprints and key counts. */
  lemma {:induction false} IdentitiesDetermine(a: seq<Batch>, b: seq<Batch>)
    requires Identities(a) == Identities(b)
    ensures |a| == |b| && Footprints(a) == Footprints(b) && KeyCount(a) == KeyCount(b)
    ensures forall i :: 0 <= i < |a| ==> IdentityOf(a[i]) == IdentityOf(b[i])
  {
    if a != [] && b != [] {
      assert Identities(a)[1..] == Identities(a[1..]) && Identities(b)[1..] == Identities(b[1..]);
      IdentitiesDetermine(a[1..], b[1..]);
      forall i | 0 < i < |a| ensures IdentityOf(a[i]) == IdentityOf(b[i]) {
        assert a[i] == a[1..][i - 1] && b[i] == b[1..][i - 1];
      }
    }
  }

  function Requeued(b: Batch, tx: Transaction): Batch {
    b.(tx := tx, status := Pending, txHash := None, error := None)
  }

  /** Fresh sequence numbers after `sequence`. A fee bump uses a number up but keeps its old
      transaction; a transaction that does not parse keeps it too, without using a number. */
  function Rebuilt(batches: seq<Batch>, sequence: int): (r: seq<Batch>)
    ensures |r| == |batches|
  {
    if batches == [] then []
    else
      var b := batches[0];
      match b.tx.form
      case Plain => [Requeued(b, b.tx.(sequence := sequence + 1))] + Rebuilt(batches[1..], sequence + 1)
      case Wrapped => [Requeued(b, b.tx)] + Rebuilt(batches[1..], sequence + 1)
      case Unparsable => [Requeued(b, b.tx)] + Rebuilt(batches[1..], sequence)
  }

  lemma {:induction false} RebuiltKeepsIdentity(batches: seq<Batch>, sequence: int)
    ensures Identities(Rebuilt(batches, sequence)) == Identities(batches)
  {
    if batches != [] {
      var used := if batches[0].tx.form.Unparsable? then sequence else sequence + 1;
      RebuiltKeepsIdentity(batches[1..], used);
      assert Rebuilt(batches, sequence)[1..] == Rebuilt(batches[1..], used);
    }
  }

  /** How many batches use up a sequence number when they are rebuilt. */
  function Numbered(batches: seq<Batch>): nat {
    if batches == [] then 0 else (if batches[0].tx.form.Unparsable? then 0 else 1) + Numbered(batches[1..])
  }

  /** A rebuilt batch is pending again with no trace of an earlier attempt, and a plain one takes the number after those
      that the batches before it use up. */
  lemma {:induction false} RebuiltAt(batches: seq<Batch>, sequence: int, i: nat)
    requires i < |batches|
    ensures var b, r := batches[i], Rebuilt(batches, sequence)[i];
      r.status == Pending && r.txHash.None? && r.error.None? && IdentityOf(r) == IdentityOf(b) && r.tx.form == b.tx.form &&
      r.tx.sequence == if b.tx.form.Plain? then sequence + Numbered(batches[..i]) + 1 else b.tx.sequence
    decreases i
  {
    if i > 0 {
      var used := if batches[0].tx.form.Unparsable? then sequence else sequence + 1;
      RebuiltAt(batches[1..], used, i - 1);
      assert batches[..i][0] == batches[0] && batches[..i][1..] == batches[1..][..i - 1];
    }
  }

  datatype End =
    | Completed
    | Stopped(failed: Batch, ambiguous: bool, rest: seq<Batch>)
    | ReadFailed(rest: seq<Batch>)

  /** A finished run: the ledger it leaves, the batches that succeeded, how it ended, and how often it
      refreshed. `unseen` only records history: what took effect without a confirmation. */
  datatype Execution = Execution(ledger: Ledger, done: seq<Batch>, end: End, refreshes: nat, unseen: seq<Footprint>)

  function Succeeded(b: Batch, hash: string): Batch { b.(txHash := Some(hash), status := Success) }

  function Missed(unseen: bool, b: Batch): seq<Footprint> { if unseen then [b.tx.footprint] else [] }

  /** The run of `queue`. A stale rejection is answered once by rebuilding what is left. */
  function Run(queue: seq<Batch>, source: bool, refreshed: bool, l: Ledger, w: World): Execution
    decreases !refreshed, |queue|
  {
    if queue == [] then Execution(l, [], Completed, 0, [])
    else
      var b := queue[0];
      var s := Submit(l, b.tx, w);
      if s.reply.Confirmed? then
        var e := Run(queue[1..], source, refreshed, s.ledger, w);
        e.(done := [Succeeded(b, s.reply.hash)] + e.done)
      else if source && !refreshed && s.reply.Stale? then
        var (after, sequence) := ReadAccount(s.ledger, w);
        if sequence.None? then Execution(after, [], ReadFailed(queue), 1, Missed(s.unseen, b))
        else
          var e := Run(Rebuilt(queue, sequence.value), source, true, after, w);
          e.(refreshes := e.refreshes + 1, unseen := Missed(s.unseen, b) + e.unseen)
      else
        Execution(s.ledger, [], Stopped(b.(status := Failure, error := Some(s.reply.message)), s.reply.Ambiguous?, queue[1..]),
          0, Missed(s.unseen, b))
  }

  /** The batches a run leaves unrestored, in order. */
  function Remaining(e: Execution): seq<Batch> {
    match e.end
    case Completed => []
    case Stopped(failed, _, rest) => [failed] + rest
    case ReadFailed(rest) => rest
  }

  ghost predicate AllSucceeded(batches: seq<Batch>) {
    forall i :: 0 <= i < |batches| ==> batches[i].status == Success && batches[i].txHash.Some?
  }

  /** Accounting: the successes and what remains are the input, split in two in order. */
  lemma {:induction false} RunPartitions(queue: seq<Batch>, source: bool, refreshed: bool, l: Ledger, w: World)
    ensures var e := Run(queue, source, refreshed, l, w);
      Identities(e.done) + Identities(Remaining(e)) == Identities(queue)
    decreases !refreshed, |queue|
  {
    if queue != [] {
      var s := Submit(l, queue[0].tx, w);
      if s.reply.Confirmed? {
        var inner := Run(queue[1..], source, refreshed, s.ledger, w);
        RunPartitions(queue[1..], source, refreshed, s.ledger, w);
        assert Run(queue, source, refreshed, l, w).done[1..] == inner.done;
        var head := [IdentityOf(queue[0])];
        ConcatAssoc(head, Identities(inner.done), Identities(Remaining(inner)));
      } else if source && !refreshed && s.reply.Stale? {
        var (after, sequence) := ReadAccount(s.ledger, w);
        if sequence.Some? {
          RunPartitions(Rebuilt(queue, sequence.value), source, true, after, w);
          RebuiltKeepsIdentity(queue, sequence.value);
        }
      } else {
        assert Remaining(Run(queue, source, refreshed, l, w))[1..] == queue[1..];
      }
    }
  }

  /** Every batch counted as done carries a hash, a failed read leaves something undone, and there is at
      most one refresh. */
  lemma {:induction false} RunOutcomes(queue: seq<Batch>, source: bool, refreshed: bool, l: Ledger, w: World)
    ensures var e := Run(queue, source, refreshed, l, w);
      AllSucceeded(e.done) &&
      (e.end.ReadFailed? ==> e.end.rest != []) &&
      e.refreshes <= (if source && !refreshed then 1 else 0)
    decreases !refreshed, |queue|
  {
    if queue != [] {
      var s := Submit(l, queue[0].tx, w);
      if s.reply.Confirmed? {
        RunOutcomes(queue[1..], source, refreshed, s.ledger, w);
      } else if source && !refreshed && s.reply.Stale? {
        var (after, sequence) := ReadAccount(s.ledger, w);
        if sequence.Some? {
          RunOutcomes(Rebuilt(queue, sequence.value), source, true, after, w);
        }
      }
    }
  }

  // ---- A run in its two phases ----

  /** The first submission that is not confirmed: the ledger after it, the reply, what took effect all the
      same, and the batches from it on. */
  datatype Rejection = Rejection(ledger: Ledger, reply: Reply, missed: seq<Footprint>, rest: seq<Batch>)

  function FirstRejection(queue: seq<Batch>, l: Ledger, w: World): Option<Rejection> {
    if queue == [] then None
    else
      var s := Submit(l, queue[0].tx, w);
      if s.reply.Confirmed? then FirstRejection(queue[1..], s.ledger, w)
      else Some(Rejection(s.ledger, s.reply, Missed(s.unseen, queue[0]), queue))
  }

  /** What a first phase has landed when it is rejected. */
  ghost predicate RejectedAfter(r: Rejection, queue: seq<Batch>, l: Ledger) {
    var k := |queue| - |r.rest|;
    k >= 0 && r.rest != [] && r.rest == queue[k..] &&
    r.missed <= [r.rest[0].tx.footprint] &&
    r.ledger.landed == l.landed + (Footprints(queue[..k]) + r.missed)
  }

  lemma {:induction false} RejectionFacts(queue: seq<Batch>, l: Ledger, w: World)
    requires FirstRejection(queue, l, w).Some?
    ensures RejectedAfter(FirstRejection(queue, l, w).value, queue, l)
    decreases |queue|
  {
    var s := Submit(l, queue[0].tx, w);
    SubmitLands(l, queue[0], w);
    if s.reply.Confirmed? {
      RejectionFacts(queue[1..], s.ledger, w);
      RejectedLater(FirstRejection(queue, l, w).value, queue, l, s.ledger);
    }
  }

  lemma RejectedLater(r: Rejection, queue: seq<Batch>, l: Ledger, after: Ledger)
    requires queue != [] && RejectedAfter(r, queue[1..], after) && after.landed == l.landed + [queue[0].tx.footprint]
    ensures RejectedAfter(r, queue, l)
  {
    var k, head := |queue| - |r.rest|, [queue[0].tx.footprint];
    var before := Footprints(queue[1..][..k - 1]);
    assert queue[..k][0] == queue[0] && queue[..k][1..] == queue[1..][..k - 1] && queue[1..][k - 1..] == queue[k..];
    ConcatAssoc(l.landed, head, before + r.missed);
    ConcatAssoc(head, before, r.missed);
  }

  /** A run up to its first rejection, and what follows it. */
  ghost predicate Phased(e: Execution, queue: seq<Batch>, source: bool, refreshed: bool, l: Ledger, w: World) {
    match FirstRejection(queue, l, w)
    case None =>
      e.end.Completed? && e.unseen == [] && |e.done| == |queue| && e.refreshes == 0 &&
      e.ledger.landed == l.landed + Footprints(queue)
    case Some(r) =>
      if source && !refreshed && r.reply.Stale? then
        var (after, sequence) := ReadAccount(r.ledger, w);
        if sequence.None? then
          e.end == ReadFailed(r.rest) && |e.done| == |queue| - |r.rest| && e.unseen == r.missed && e.ledger == after &&
          e.refreshes == 1
        else
          var later := Run(Rebuilt(r.rest, sequence.value), source, true, after, w);
          e.end == later.end && |e.done| == |queue| - |r.rest| + |later.done| && e.unseen == r.missed + later.unseen &&
          e.ledger == later.ledger && e.refreshes == later.refreshes + 1
      else
        e.end.Stopped? && |e.done| == |queue| - |r.rest| && e.unseen == r.missed && e.ledger == r.ledger &&
        e.refreshes == 0
  }

  lemma {:induction false} RunPhases(queue: seq<Batch>, source: bool, refreshed: bool, l: Ledger, w: World)
    ensures Phased(Run(queue, source, refreshed, l, w), queue, source, refreshed, l, w)
    decreases |queue|
  {
    if queue == [] {
      assert l.landed + [] == l.landed;
    } else {
      var s := Submit(l, queue[0].tx, w);
      if s.reply.Confirmed? {
        RunPhases(queue[1..], source, refreshed, s.ledger, w);
        ConcatAssoc(l.landed, [queue[0].tx.footprint], Footprints(queue[1..]));
      }
    }
  }

  /** Without a refresh, a run lands the first so many footprints of its queue, in order. */
  lemma PhaseLands(queue: seq<Batch>, source: bool, l: Ledger, w: World)
    ensures var e := Run(queue, source, true, l, w);
      var n := |e.done| + |e.unseen|;
      n <= |queue| && e.ledger.landed == l.landed + Footprints(queue[..n])
  {
    RunPhases(queue, source, true, l, w);
    match FirstRejection(queue, l, w)
    case None => assert queue[..|queue|] == queue;
    case Some(r) =>
      RejectionFacts(queue, l, w);
      LandedPrefix(queue, |queue| - |r.rest|, r.missed);
  }

  lemma LandedPrefix(queue: seq<Batch>, k: nat, missed: seq<Footprint>)
    requires k < |queue| && missed <= [queue[k].tx.footprint]
    ensures Footprints(queue[..k]) + missed == Footprints(queue[..k + |missed|])
  {
    if missed == [] {
      assert Footprints(queue[..k]) + [] == Footprints(queue[..k]);
    } else {
      assert queue[..k + 1] == queue[..k] + [queue[k]] && missed == [queue[k].tx.footprint];
      FootprintsAppend(queue[..k], [queue[k]]);
      assert Footprints([queue[k]]) == [queue[k].tx.footprint] + Footprints([]);
    }
  }

  // ---- What lands ----

  lemma FootprintsCons(b: Batch, rest: seq<Batch>)
    ensures Footprints([b] + rest) == [b.tx.footprint] + Footprints(rest)
  {
    assert ([b] + rest)[1..] == rest;
  }

  /** What lands are the footprints of the successes and what took effect unseen; if nothing did, the
      footprints of the successes in order. */
  ghost predicate Lands(landed: seq<Footprint>, base: seq<Footprint>, done: seq<Footprint>, unseen: seq<Footprint>) {
    multiset(landed) == multiset(base) + multiset(done) + multiset(unseen) &&
    (unseen == [] ==> landed == base + done)
  }

  lemma LandsFirst(landed: seq<Footprint>, base: seq<Footprint>, head: Footprint, done: seq<Footprint>, unseen: seq<Footprint>)
    requires Lands(landed, base + [head], done, unseen)
    ensures Lands(landed, base, [head] + done, unseen)
  {
    ConcatAssoc(base, [head], done);
    assert multiset([head] + done) == multiset{head} + multiset(done);
    assert multiset(base + [head]) == multiset(base) + multiset{head};
  }

  lemma LandsMissed(landed: seq<Footprint>, base: seq<Footprint>, missed: seq<Footprint>, done: seq<Footprint>, unseen: seq<Footprint>)
    requires Lands(landed, base + missed, done, unseen)
    ensures Lands(landed, base, done, missed + unseen)
  {
    assert multiset(missed + unseen) == multiset(missed) + multiset(unseen);
    assert multiset(base + missed) == multiset(base) + multiset(missed);
    assert missed == [] ==> base + missed == base && missed + unseen == unseen;
  }

  ghost predicate RunLanded(e: Execution, l: Ledger) { Lands(e.ledger.landed, l.landed, Footprints(e.done), e.unseen) }

  lemma LandedAfterSuccess(e: Execution, b: Batch, hash: string, after: Ledger, l: Ledger)
    requires RunLanded(e, after) && after.landed == l.landed + [b.tx.footprint]
    ensures RunLanded(e.(done := [Succeeded(b, hash)] + e.done), l)
  {
    LandsFirst(e.ledger.landed, l.landed, b.tx.footprint, Footprints(e.done), e.unseen);
    FootprintsCons(Succeeded(b, hash), e.done);
  }

  lemma LandedAfterRejection(e: Execution, missed: seq<Footprint>, refreshes: nat, after: Ledger, l: Ledger)
    requires RunLanded(e, after) && after.landed == l.landed + missed
    ensures RunLanded(e.(unseen := missed + e.unseen, refreshes := refreshes), l)
  {
    LandsMissed(e.ledger.landed, l.landed, missed, Footprints(e.done), e.unseen);
  }

  lemma LandedAtStop(e: Execution, missed: seq<Footprint>, l: Ledger)
    requires e.done == [] && e.unseen == missed && e.ledger.landed == l.landed + missed
    ensures RunLanded(e, l)
  {
    assert e.ledger.landed + [] == e.ledger.landed && missed + [] == missed;
    LandsMissed(e.ledger.landed, l.landed, missed, [], []);
  }

  lemma SubmitLands(l: Ledger, b: Batch, w: World)
    ensures var s := Submit(l, b.tx, w);
      s.ledger.landed == l.landed + if s.reply.Confirmed? then [b.tx.footprint] else Missed(s.unseen, b)
  {
    assert l.landed + [] == l.landed;
  }

  lemma {:induction false} RunLands(queue: seq<Batch>, source: bool, refreshed: bool, l: Ledger, w: World)
    ensures RunLanded(Run(queue, source, refreshed, l, w), l)
    decreases !refreshed, |queue|
  {
    if queue == [] {
      LandedAtStop(Run(queue, source, refreshed, l, w), [], l);
    } else {
      var b := queue[0];
      var s := Submit(l, b.tx, w);
      SubmitLands(l, b, w);
      if s.reply.Confirmed? {
        RunLands(queue[1..], source, refreshed, s.ledger, w);
        LandedAfterSuccess(Run(queue[1..], source, refreshed, s.ledger, w), b, s.reply.hash, s.ledger, l);
      } else if source && !refreshed && s.reply.Stale? && w.read(s.ledger.accountReads).Some? {
        var (after, sequence) := ReadAccount(s.ledger, w);
        var later := Run(Rebuilt(queue, sequence.value), source, true, after, w);
        RunLands(Rebuilt(queue, sequence.value), source, true, after, w);
        LandedAfterRejection(later, Missed(s.unseen, b), later.refreshes + 1, after, l);
      } else {
        LandedAtStop(Run(queue, source, refreshed, l, w), Missed(s.unseen, b), l);
      }
    }
  }

  /** When no outcome is in doubt, nothing takes effect unseen. */
  lemma {:induction false} ClearRunsAreRecorded(queue: seq<Batch>, source: bool, refreshed: bool, l: Ledger, w: World)
    requires Clear(w)
    ensures var e := Run(queue, source, refreshed, l, w);
      e.unseen == [] && (e.end.Stopped? ==> !e.end.ambiguous)
    decreases !refreshed, |queue|
  {
    if queue != [] {
      var s := Submit(l, queue[0].tx, w);
      assert !w.submit(l.submissions).verdict.LoseTrack?;
      if s.reply.Confirmed? {
        ClearRunsAreRecorded(queue[1..], source, refreshed, s.ledger, w);
      } else if source && !refreshed && s.reply.Stale? {
        var (after, sequence) := ReadAccount(s.ledger, w);
        if sequence.Some? {
          ClearRunsAreRecorded(Rebuilt(queue, sequence.value), source, true, after, w);
        }
      }
    }
  }
}
