/** At most once, over any number of rounds: exactly when some footprint lands twice. */
module RestoreRepeats {
  import opened Seqs
  import opened Network
  import opened SequentialRestore
  import opened RestoreReceipts
  import opened RestoreGuards
  import opened RestoreRounds

  // ---- What is left to do after a round ----

  function Waiting(batches: seq<Batch>): seq<Batch> { Filter(batches, Undone()) }

  /** The footprints that resuming `receipt` would submit, in order. */
  function Due(receipt: seq<Batch>): seq<Footprint> { Footprints(ResumeQueue(receipt)) }

  /** Of the batches that wait, the ones dealt a success wait no longer. */
  lemma {:induction false} DealtWaiting(batches: seq<Batch>, done: seq<Batch>, tail: seq<Batch>)
    requires OutcomesOf(done + tail, batches) && |tail| <= 1
    requires (forall b :: b in done ==> Done(b)) && (forall b :: b in tail ==> !Done(b))
    ensures |done| <= |Identities(Waiting(batches))|
    ensures Identities(Waiting(Dealt(batches, done + tail))) == Identities(Waiting(batches))[|done|..]
    decreases |batches|
  {
    var results := done + tail;
    IdentitiesAt(results);
    IdentitiesAt(Waiting(batches));
    if results == [] {
      assert done == [];
    } else {
      OutcomesTail(batches, results);
      var b, rest := batches[0], batches[1..];
      if Done(b) {
        DealtWaiting(rest, done, tail);
        assert Dealt(batches, results)[1..] == Dealt(rest, results);
      } else if done != [] {
        assert results[1..] == done[1..] + tail && results[0] == done[0] && done[0] in done;
        DealtWaiting(rest, done[1..], tail);
        assert Dealt(batches, results)[1..] == Dealt(rest, results[1..]);
        WaitingCons(b, rest);
      } else {
        assert results == tail && results[1..] == [] && tail[0] in tail;
        assert Dealt(batches, results) == [tail[0]] + rest;
        WaitingCons(b, rest);
        WaitingCons(tail[0], rest);
        assert batches == [b] + rest;
      }
    }
  }

  lemma WaitingCons(b: Batch, rest: seq<Batch>)
    requires !Done(b)
    ensures Waiting([b] + rest) == [b] + Waiting(rest)
    ensures Identities(Waiting([b] + rest)) == [IdentityOf(b)] + Identities(Waiting(rest))
  {
    assert ([b] + rest)[1..] == rest && ([b] + Waiting(rest))[1..] == Waiting(rest);
  }

  lemma {:induction false} IdentitiesSuffix(x: seq<Batch>, y: seq<Batch>, d: nat)
    requires d <= |Identities(y)| && Identities(x) == Identities(y)[d..]
    ensures d <= |Footprints(y)| && Footprints(x) == Footprints(y)[d..]
  {
    IdentitiesAt(y);
    AppendFacts(y[..d], y[d..]);
    assert y == y[..d] + y[d..];
    IdentitiesAt(y[..d]);
    FootprintsLength(y[..d]);
    assert Identities(y)[d..] == Identities(y[d..]);
    IdentitiesDetermine(x, y[d..]);
  }

  /** The batches of a run's report, laid over the batches it was run for. */
  lemma {:induction false} ReportedWaiting(batches: seq<Batch>, queue: seq<Batch>, source: bool, l: Ledger, w: World)
    requires DistinctIndices(batches) && Unsent(queue) && Identities(queue) == Identities(Waiting(batches))
    ensures var e := Run(queue, source, false, l, w);
      |e.done| <= |Footprints(queue)| &&
      Footprints(Waiting(Overlay(batches, Reported(e)))) == Footprints(queue)[|e.done|..]
  {
    var e := Run(queue, source, false, l, w);
    var tail := if e.end.Stopped? then [e.end.failed] else [];
    RunReports(queue, source, l, w);
    RunOutcomes(queue, source, false, l, w);
    RunStopsUnsent(queue, source, false, l, w);
    FilterKeepsDistinct(batches);
    ReportedDistinct(e.done + tail, Waiting(batches));
    OverlayIsDealt(batches, e.done + tail);
    DealtWaiting(batches, e.done, tail);
    IdentitiesSuffix(Waiting(Overlay(batches, Reported(e))), Waiting(batches), |e.done|);
    IdentitiesDetermine(queue, Waiting(batches));
  }

  lemma DueOfSorted(receipt: seq<Batch>, sorted: seq<Batch>)
    requires StableSort(receipt, ByIndex()) == sorted
    ensures Due(receipt) == Footprints(Waiting(sorted))
  {
    ResetFacts(Waiting(sorted));
    IdentitiesDetermine(ResetAll(Waiting(sorted)), Waiting(sorted));
  }

  /** What is due after a resumed round is what its run leaves over. */
  lemma {:induction false} NextDue(p: Progress, planned: seq<Batch>, source: bool, base: seq<Footprint>, w: World)
    requires DistinctIndices(planned) && Faithful(p, planned, base)
    ensures Due(NextRound(p, planned, source, w).receipt) ==
      LeftOver(ResumeQueue(p.receipt), ResumedRun(p.receipt, source, p.ledger, w))
  {
    var sorted := StableSort(p.receipt, ByIndex());
    SameIdentities(p.receipt, planned);
    SortKeepsDistinct(p.receipt);
    SortedSuccess(p.receipt);
    if Waiting(sorted) == [] {
      NothingPending(p.receipt, source, p.ledger, w);
      ReceiptOfRound(planned, p.receipt, sorted);
      DueOfSorted(CreateReceipt(sorted, planned), sorted);
    } else {
      ResumeRuns(p.receipt, source, p.ledger, w);
      if !Resume(p.receipt, source, p.ledger, w).0.Threw? {
        NextDueReturned(p.receipt, planned, source, p.ledger, w);
      }
    }
  }

  lemma {:induction false} NextDueReturned(receipt: seq<Batch>, planned: seq<Batch>, source: bool, l: Ledger, w: World)
    requires DistinctIndices(planned) && Identities(receipt) == Identities(planned) && DistinctIndices(receipt)
    requires DistinctIndices(StableSort(receipt, ByIndex())) && Consistent(StableSort(receipt, ByIndex()))
    requires Waiting(StableSort(receipt, ByIndex())) != [] && Resume(receipt, source, l, w).0.Returned?
    ensures Due(CreateReceipt(Resume(receipt, source, l, w).0.value.batches, planned)) ==
      LeftOver(ResumeQueue(receipt), ResumedRun(receipt, source, l, w))
  {
    var sorted := StableSort(receipt, ByIndex());
    var merged := Resume(receipt, source, l, w).0.value.batches;
    PendingFacts(sorted);
    ResumeRuns(receipt, source, l, w);
    ResumeRound(receipt, source, l, w);
    ReceiptOfRound(planned, receipt, merged);
    DueOfSorted(CreateReceipt(merged, planned), merged);
    ReportedWaiting(sorted, ResumeQueue(receipt), source, l, w);
  }

  /** What is due after the first call, for a plan in index order. */
  lemma {:induction false} FirstDue(planned: seq<Batch>, source: bool, l: Ledger, w: World)
    requires DistinctIndices(planned) && Unsent(planned) && SortedBy(planned, ByIndex())
    ensures Due(FirstRound(planned, source, l, w).receipt) == LeftOver(planned, Run(planned, source, false, l, w))
  {
    var e := Run(planned, source, false, l, w);
    FilterAll(planned, Undone());
    if e.end.ReadFailed? {
      StableSortIdempotent(planned, ByIndex());
      DueOfSorted(planned, planned);
    } else {
      var receipt := CreateReceipt(Reported(e), planned);
      ReportedIsResult(e);
      FirstReceipt(planned, source, l, w);
      SameIdentities(receipt, planned);
      StableSortIdempotent(receipt, ByIndex());
      DueOfSorted(receipt, receipt);
      ReportedWaiting(planned, planned, source, l, w);
    }
  }

  // ---- What is due has not been restored ----

  /** The footprints, with multiplicity. */
  function Bag(batches: seq<Batch>): multiset<Footprint> {
    if batches == [] then multiset{} else multiset{batches[0].tx.footprint} + Bag(batches[1..])
  }

  lemma {:induction false} BagOfFootprints(batches: seq<Batch>)
    ensures Bag(batches) == multiset(Footprints(batches))
  {
    if batches != [] {
      BagOfFootprints(batches[1..]);
      var head, tail := [batches[0].tx.footprint], Footprints(batches[1..]);
      assert multiset(head + tail) == multiset(head) + multiset(tail);
    }
  }

  lemma BagCons(b: Batch, rest: seq<Batch>)
    ensures Bag([b] + rest) == multiset{b.tx.footprint} + Bag(rest)
  {
    assert ([b] + rest)[1..] == rest;
  }

  lemma {:induction false} BagSnoc(front: seq<Batch>, last: Batch)
    ensures Bag(front + [last]) == multiset{last.tx.footprint} + Bag(front)
  {
    if front == [] {
      assert front + [last] == [last];
    } else {
      BagSnoc(front[1..], last);
      assert (front + [last])[1..] == front[1..] + [last];
    }
  }

  lemma {:induction false} RestoredOrWaiting(batches: seq<Batch>)
    requires Consistent(batches)
    ensures Restored(batches) + Bag(Waiting(batches)) == Bag(batches)
  {
    if batches != [] {
      var b, rest := batches[0], batches[1..];
      RestoredOrWaiting(rest);
      assert Restored(batches) == RestoredBy(b) + Restored(rest) && Bag(batches) == multiset{b.tx.footprint} + Bag(rest);
      if Done(b) {
        assert Waiting(batches) == Waiting(rest);
      } else {
        assert Waiting(batches) == [b] + Waiting(rest);
        BagCons(b, Waiting(rest));
      }
    }
  }

  lemma {:induction false} InsertBag(b: Batch, s: seq<Batch>)
    ensures Bag(Insert(b, s, ByIndex())) == multiset{b.tx.footprint} + Bag(s)
  {
    if s == [] || b.batchIndex < s[0].batchIndex {
      BagCons(b, s);
    } else {
      InsertBag(b, s[1..]);
      assert Insert(b, s, ByIndex()) == [s[0]] + Insert(b, s[1..], ByIndex());
      BagCons(s[0], Insert(b, s[1..], ByIndex()));
    }
  }

  lemma InsertKeepsBag(front: seq<Batch>, last: Batch, sorted: seq<Batch>)
    requires Bag(sorted) == Bag(front)
    ensures Bag(Insert(last, sorted, ByIndex())) == Bag(front + [last])
  {
    InsertBag(last, sorted);
    BagSnoc(front, last);
  }

  lemma {:induction false} SortKeepsBag(batches: seq<Batch>)
    ensures Bag(StableSort(batches, ByIndex())) == Bag(batches)
  {
    if batches != [] {
      var front, last := batches[..|batches| - 1], batches[|batches| - 1];
      SortKeepsBag(front);
      InsertKeepsBag(front, last, StableSort(front, ByIndex()));
      assert batches == front + [last];
    }
  }

  /** Every planned footprint is either recorded as restored or due. */
  lemma RestoredOrDue(p: Progress, planned: seq<Batch>, base: seq<Footprint>)
    requires Faithful(p, planned, base)
    ensures Restored(p.receipt) + multiset(Due(p.receipt)) == multiset(Footprints(planned))
  {
    var sorted := StableSort(p.receipt, ByIndex());
    SortedSuccess(p.receipt);
    RestoredOrWaiting(sorted);
    SortKeepsRestored(p.receipt);
    SortKeepsBag(p.receipt);
    BagOfFootprints(p.receipt);
    BagOfFootprints(Waiting(sorted));
    DueOfSorted(p.receipt, sorted);
    IdentitiesDetermine(p.receipt, planned);
  }

  lemma {:induction false} DueDistinct(p: Progress, planned: seq<Batch>, base: seq<Footprint>)
    requires Faithful(p, planned, base) && DistinctFootprints(planned)
    ensures DistinctFootprints(ResumeQueue(p.receipt))
  {
    RestoredOrDue(p, planned, base);
    var due := Due(p.receipt);
    forall f ensures multiset(due)[f] <= 1 {
      DistinctOnce(Footprints(planned), f);
      assert (Restored(p.receipt) + multiset(due))[f] == multiset(Footprints(planned))[f];
    }
    OnceDistinct(due);
  }

  // ---- The invariant of a chain of rounds ----

  /** While nothing has landed twice, what has been lost is what is due next, in order; from then on, something
      has landed twice. */
  ghost predicate Tracked(p: Progress, once: bool, planned: seq<Batch>, base: seq<Footprint>) {
    Faithful(p, planned, base) &&
    if once then p.lost <= Due(p.receipt) else LandsTwice(p.ledger.landed, base)
  }

  lemma {:induction false} OnceMeansOnce(p: Progress, planned: seq<Batch>, base: seq<Footprint>)
    requires Faithful(p, planned, base) && p.lost <= Due(p.receipt) && DistinctFootprints(planned)
    ensures !LandsTwice(p.ledger.landed, base)
  {
    RestoredOrDue(p, planned, base);
    forall f ensures multiset(p.ledger.landed)[f] <= multiset(base)[f] + 1 {
      DistinctOnce(Footprints(planned), f);
      PrefixCount(p.lost, Due(p.receipt), f);
    }
  }

  lemma PrefixCount(a: seq<Footprint>, b: seq<Footprint>, f: Footprint)
    requires a <= b
    ensures multiset(a)[f] <= multiset(b)[f]
  {
    assert b == a + b[|a|..];
  }

  /** A round in which something lands a second time: within its run, or because an earlier round forgot what is
      due first. */
  predicate Repeats(p: Progress, source: bool, w: World) {
    Relands(ResumeQueue(p.receipt), source, p.ledger, w) ||
    (p.lost != [] && LandsSomething(ResumeQueue(p.receipt), source, p.ledger, w))
  }

  lemma NextLedger(p: Progress, planned: seq<Batch>, source: bool, w: World)
    ensures NextRound(p, planned, source, w).ledger == ResumedRun(p.receipt, source, p.ledger, w).ledger
    ensures NextRound(p, planned, source, w).lost == p.lost + Lost(ResumedRun(p.receipt, source, p.ledger, w))
  {
    if Waiting(StableSort(p.receipt, ByIndex())) != [] {
      ResumeRuns(p.receipt, source, p.ledger, w);
    }
  }

  /** A round that repeats something lands something twice. */
  lemma {:induction false} RepeatTwice(p: Progress, planned: seq<Batch>, source: bool, base: seq<Footprint>, w: World)
    requires Faithful(p, planned, base) && DistinctFootprints(planned)
    requires p.lost <= Due(p.receipt) && Repeats(p, source, w)
    ensures LandsTwice(NextRound(p, planned, source, w).ledger.landed, base)
  {
    var queue := ResumeQueue(p.receipt);
    var landed := ResumedRun(p.receipt, source, p.ledger, w).ledger.landed;
    NextLedger(p, planned, source, w);
    DueDistinct(p, planned, base);
    if Relands(queue, source, p.ledger, w) {
      LandsTwiceIff(queue, source, p.ledger, w);
      TwiceSince(landed, p.ledger.landed, base);
    } else {
      LandsSomethingIff(queue, source, p.ledger, w);
      FootprintAt(queue, 0);
      assert p.lost[0] == queue[0].tx.footprint && p.lost[0] in multiset(p.lost);
      GainsTwice(landed, p.ledger.landed, base, queue[0].tx.footprint);
    }
  }

  /** A round that repeats nothing keeps what is lost in front of what is due. */
  lemma {:induction false} NoRepeatTracks(p: Progress, planned: seq<Batch>, source: bool, base: seq<Footprint>, w: World)
    requires DistinctIndices(planned) && Faithful(p, planned, base)
    requires p.lost <= Due(p.receipt) && !Repeats(p, source, w)
    ensures var next := NextRound(p, planned, source, w); next.lost <= Due(next.receipt)
  {
    var queue := ResumeQueue(p.receipt);
    var e := ResumedRun(p.receipt, source, p.ledger, w);
    NextLedger(p, planned, source, w);
    NextDue(p, planned, source, base, w);
    if p.lost == [] {
      LosesFirst(queue, source, p.ledger, w);
      assert [] + Lost(e) == Lost(e);
    } else {
      LandsSomethingIff(queue, source, p.ledger, w);
      assert Footprints(queue)[0..] == Footprints(queue) && Footprints(e.done) == [];
      assert p.lost + [] == p.lost;
    }
  }

  lemma {:induction false} NextTracked(p: Progress, once: bool, planned: seq<Batch>, source: bool, base: seq<Footprint>, w: World)
    requires DistinctIndices(planned) && DistinctFootprints(planned) && Tracked(p, once, planned, base)
    ensures Tracked(NextRound(p, planned, source, w), once && !Repeats(p, source, w), planned, base)
  {
    NextRoundFaithful(p, planned, source, base, w);
    if !once {
      NextLedger(p, planned, source, w);
      RunLandsMore(ResumeQueue(p.receipt), source, false, p.ledger, w);
      TwiceStays(p.ledger.landed, NextRound(p, planned, source, w).ledger.landed, base);
    } else if Repeats(p, source, w) {
      RepeatTwice(p, planned, source, base, w);
    } else {
      NoRepeatTracks(p, planned, source, base, w);
    }
  }

  lemma {:induction false} FirstTracked(planned: seq<Batch>, source: bool, l: Ledger, w: World)
    requires DistinctIndices(planned) && Unsent(planned) && SortedBy(planned, ByIndex()) && DistinctFootprints(planned)
    ensures Tracked(FirstRound(planned, source, l, w), !Relands(planned, source, l, w), planned, l.landed)
  {
    FirstRoundFaithful(planned, source, l, w);
    if Relands(planned, source, l, w) {
      LandsTwiceIff(planned, source, l, w);
    } else {
      LosesFirst(planned, source, l, w);
      FirstDue(planned, source, l, w);
    }
  }

  // ---- The exact condition ----

  /** In the round after the `k`-th, something lands a second time: the run answers an applied submission's stale
      reply by landing it again, or lands anything at all after a round that forgot something. All of it is
      said of the queues, ledgers and network that the rounds find. */
  ghost predicate RoundRepeats(k: nat, planned: seq<Batch>, sourceFirst: bool, source: bool, l: Ledger, w: World) {
    var p := Rounds(k, planned, sourceFirst, source, l, w);
    Relands(ResumeQueue(p.receipt), source, p.ledger, w) ||
    (!ToldThroughout(k, planned, sourceFirst, source, l, w) && LandsSomething(ResumeQueue(p.receipt), source, p.ledger, w))
  }

  lemma RoundRepeatsIff(k: nat, planned: seq<Batch>, sourceFirst: bool, source: bool, l: Ledger, w: World)
    ensures RoundRepeats(k, planned, sourceFirst, source, l, w) <==>
      Repeats(Rounds(k, planned, sourceFirst, source, l, w), source, w)
  {
    LostNeverIff(k, planned, sourceFirst, source, l, w);
  }

  function NoRepeat(source: bool, w: World): Progress -> bool { (p: Progress) => !Repeats(p, source, w) }

  /** For a plan in index order with different footprints: after any number of rounds some footprint has landed
      twice if and only if the first call or a later round landed one again after a wrong stale reply, or
      some round landed anything after one that had forgotten something. */
  lemma LandedTwiceIff(n: nat, planned: seq<Batch>, sourceFirst: bool, source: bool, l: Ledger, w: World)
    requires DistinctIndices(planned) && Unsent(planned) && SortedBy(planned, ByIndex()) && DistinctFootprints(planned)
    ensures LandsTwice(Rounds(n, planned, sourceFirst, source, l, w).ledger.landed, l.landed) <==>
      Relands(planned, sourceFirst, l, w) || exists k: nat :: k < n && RoundRepeats(k, planned, sourceFirst, source, l, w)
  {
    var first, round := FirstRound(planned, sourceFirst, l, w), Resuming(planned, source, w);
    var holds := (p: Progress, once: bool) => Tracked(p, once, planned, l.landed);
    FirstTracked(planned, sourceFirst, l, w);
    forall p, once | holds(p, once) ensures holds(round(p), once && NoRepeat(source, w)(p)) {
      NextTracked(p, once, planned, source, l.landed, w);
    }
    RepeatedKeepsFlag(n, first, round, !Relands(planned, sourceFirst, l, w), NoRepeat(source, w), holds);
    var p := Rounds(n, planned, sourceFirst, source, l, w);
    if p.lost <= Due(p.receipt) && Faithful(p, planned, l.landed) {
      OnceMeansOnce(p, planned, l.landed);
    }
    forall k: nat ensures RoundRepeats(k, planned, sourceFirst, source, l, w) <==>
      !NoRepeat(source, w)(Repeated(k, first, round))
    {
      RoundRepeatsIff(k, planned, sourceFirst, source, l, w);
    }
  }
}
