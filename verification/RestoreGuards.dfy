/** When a run goes wrong, said of its queue, its ledger and the network alone. */
module RestoreGuards {
  import opened Seqs
  import opened Network
  import opened SequentialRestore

  /** What a stale rejection is answered with, if the account can be read. */
  function Refreshed(r: Rejection, w: World): Option<(seq<Batch>, Ledger)> {
    var (after, sequence) := ReadAccount(r.ledger, w);
    if sequence.None? then None else Some((Rebuilt(r.rest, sequence.value), after))
  }

  /** The call rejects: a stale rejection, with a source account that cannot be read. */
  predicate Rejects(queue: seq<Batch>, source: bool, l: Ledger, w: World) {
    match FirstRejection(queue, l, w)
    case None => false
    case Some(r) => source && r.reply.Stale? && w.read(r.ledger.accountReads).None?
  }

  /** The first rejection after the refresh, if there is a refresh. */
  function SecondRejection(queue: seq<Batch>, source: bool, l: Ledger, w: World): Option<Rejection> {
    match FirstRejection(queue, l, w)
    case None => None
    case Some(r) =>
      if !source || !r.reply.Stale? then None
      else
        match Refreshed(r, w)
        case None => None
        case Some((rebuilt, after)) => FirstRejection(rebuilt, after, w)
  }

  predicate Misses(r: Option<Rejection>) { r.Some? && r.value.missed != [] }

  /** A submission that is not confirmed takes effect: the one before the refresh, or the one after it. */
  predicate TakesEffectUnseen(queue: seq<Batch>, source: bool, l: Ledger, w: World) {
    Misses(FirstRejection(queue, l, w)) || Misses(SecondRejection(queue, source, l, w))
  }

  /** The caller is not told of everything that lands: a submission takes effect unseen, or the call rejects
      when batches before the rejected one have been confirmed. */
  predicate Forgets(queue: seq<Batch>, source: bool, l: Ledger, w: World) {
    TakesEffectUnseen(queue, source, l, w) ||
    (Rejects(queue, source, l, w) && |FirstRejection(queue, l, w).value.rest| < |queue|)
  }

  /** What landed without the caller being told: what took effect unseen, and, when the call rejects, its
      successes. */
  function Lost(e: Execution): seq<Footprint> {
    (if e.end.ReadFailed? then Footprints(e.done) else []) + e.unseen
  }

  /** What a run's caller is told has landed. */
  function Told(e: Execution): multiset<Footprint> {
    if e.end.ReadFailed? then multiset{} else multiset(Footprints(e.done))
  }

  lemma RunLandsToldOrLost(queue: seq<Batch>, source: bool, l: Ledger, w: World)
    ensures var e := Run(queue, source, false, l, w);
      multiset(e.ledger.landed) == multiset(l.landed) + Told(e) + multiset(Lost(e))
  {
    RunLands(queue, source, false, l, w);
  }

  /** A run ends in a rejected call, and has something take effect unseen, exactly under the guards. */
  lemma RunEndsIff(queue: seq<Batch>, source: bool, l: Ledger, w: World)
    ensures Run(queue, source, false, l, w).end.ReadFailed? <==> Rejects(queue, source, l, w)
    ensures Run(queue, source, false, l, w).unseen != [] <==> TakesEffectUnseen(queue, source, l, w)
    ensures Rejects(queue, source, l, w) ==>
      |Run(queue, source, false, l, w).done| == |queue| - |FirstRejection(queue, l, w).value.rest|
  {
    RunPhases(queue, source, false, l, w);
    match FirstRejection(queue, l, w)
    case None =>
    case Some(r) =>
      match Refreshed(r, w)
      case None =>
      case Some((rebuilt, after)) => RunPhases(rebuilt, source, true, after, w);
  }

  /** The caller is told of everything that lands exactly when the guard is false. */
  lemma LostIff(queue: seq<Batch>, source: bool, l: Ledger, w: World)
    ensures Lost(Run(queue, source, false, l, w)) == [] <==> !Forgets(queue, source, l, w)
  {
    var e := Run(queue, source, false, l, w);
    RunEndsIff(queue, source, l, w);
    FootprintsLength(e.done);
    if Rejects(queue, source, l, w) {
      RejectionFacts(queue, l, w);
    }
  }

  lemma {:induction false} FootprintsLength(batches: seq<Batch>)
    ensures |Footprints(batches)| == |batches|
  {
    if batches != [] {
      FootprintsLength(batches[1..]);
    }
  }

  /** With no outcome in doubt and no failed account read the guard is false. */
  lemma ClearForgetsNothing(queue: seq<Batch>, source: bool, l: Ledger, w: World)
    requires Clear(w) && Readable(w)
    ensures !Forgets(queue, source, l, w) && !Rejects(queue, source, l, w)
  {
    RunEndsIff(queue, source, l, w);
    ClearRunsAreRecorded(queue, source, false, l, w);
  }

  // ---- Whether anything lands, and where ----

  /** The head of the queue lands: at once, or rebuilt after a stale rejection. */
  predicate LandsSomething(queue: seq<Batch>, source: bool, l: Ledger, w: World) {
    queue != [] &&
    var s := Submit(l, queue[0].tx, w);
    s.ledger.landed != l.landed ||
    (source && s.reply.Stale? &&
     match Refreshed(Rejection(s.ledger, s.reply, [], queue), w)
     case None => false
     case Some((rebuilt, after)) => rebuilt != [] && Submit(after, rebuilt[0].tx, w).ledger.landed != after.landed)
  }

  lemma RunLandsMore(queue: seq<Batch>, source: bool, refreshed: bool, l: Ledger, w: World)
    ensures multiset(l.landed) <= multiset(Run(queue, source, refreshed, l, w).ledger.landed)
  {
    RunLands(queue, source, refreshed, l, w);
  }

  ghost predicate Gains(landed: seq<Footprint>, base: seq<Footprint>, f: Footprint) {
    multiset(landed)[f] > multiset(base)[f]
  }

  /** A run whose head lands gains the head's footprint, with or without a refresh. */
  lemma {:induction false} HeadLands(queue: seq<Batch>, source: bool, refreshed: bool, l: Ledger, w: World)
    requires queue != [] && Submit(l, queue[0].tx, w).ledger.landed != l.landed
    ensures Gains(Run(queue, source, refreshed, l, w).ledger.landed, l.landed, queue[0].tx.footprint)
  {
    var s := Submit(l, queue[0].tx, w);
    SubmitLands(l, queue[0], w);
    assert l.landed + [] == l.landed;
    assert s.ledger.landed == l.landed + [queue[0].tx.footprint];
    if s.reply.Confirmed? {
      RunLandsMore(queue[1..], source, refreshed, s.ledger, w);
    } else if source && !refreshed && s.reply.Stale? && w.read(s.ledger.accountReads).Some? {
      var (after, sequence) := ReadAccount(s.ledger, w);
      RunLandsMore(Rebuilt(queue, sequence.value), source, true, after, w);
    }
  }

  /** A run that lands anything lands its head; otherwise it does nothing to the ledger's footprints. */
  lemma {:induction false} LandsSomethingIff(queue: seq<Batch>, source: bool, l: Ledger, w: World)
    ensures var e := Run(queue, source, false, l, w);
      if LandsSomething(queue, source, l, w) then Gains(e.ledger.landed, l.landed, queue[0].tx.footprint)
      else e.ledger.landed == l.landed && e.done == [] && e.unseen == []
  {
    if queue != [] {
      var s := Submit(l, queue[0].tx, w);
      SubmitLands(l, queue[0], w);
      assert l.landed + [] == l.landed;
      if s.ledger.landed != l.landed {
        HeadLands(queue, source, false, l, w);
      } else {
        assert !s.reply.Confirmed? && !s.unseen by { NotGrown(l.landed, queue[0].tx.footprint); }
        if source && s.reply.Stale? && w.read(s.ledger.accountReads).Some? {
          var (after, sequence) := ReadAccount(s.ledger, w);
          RefreshedHead(queue, sequence.value, source, after, w);
        }
      }
    }
  }

  lemma NotGrown(landed: seq<Footprint>, f: Footprint)
    ensures landed + [f] != landed
  {
    assert |landed + [f]| > |landed|;
  }

  lemma {:induction false} RefreshedHead(queue: seq<Batch>, sequence: int, source: bool, after: Ledger, w: World)
    requires queue != []
    ensures var rebuilt := Rebuilt(queue, sequence);
      var e := Run(rebuilt, source, true, after, w);
      rebuilt != [] && rebuilt[0].tx.footprint == queue[0].tx.footprint &&
      if Submit(after, rebuilt[0].tx, w).ledger.landed != after.landed
      then Gains(e.ledger.landed, after.landed, queue[0].tx.footprint)
      else e.ledger.landed == after.landed && e.done == [] && e.unseen == []
  {
    var rebuilt := Rebuilt(queue, sequence);
    var s := Submit(after, rebuilt[0].tx, w);
    SubmitLands(after, rebuilt[0], w);
    assert after.landed + [] == after.landed;
    if s.ledger.landed != after.landed {
      HeadLands(rebuilt, source, true, after, w);
    } else {
      assert !s.reply.Confirmed? && !s.unseen by { NotGrown(after.landed, rebuilt[0].tx.footprint); }
    }
  }

  /** What took effect unseen, if anything, is the first batch that is not done. */
  ghost predicate UnseenIsNext(e: Execution, queue: seq<Batch>) {
    |e.done| <= |queue| &&
    (e.unseen == [] || (|e.done| < |queue| && e.unseen == [queue[|e.done|].tx.footprint]))
  }

  lemma {:induction false} PhaseUnseenIsNext(queue: seq<Batch>, source: bool, l: Ledger, w: World)
    ensures UnseenIsNext(Run(queue, source, true, l, w), queue)
  {
    RunPhases(queue, source, true, l, w);
    if FirstRejection(queue, l, w).Some? {
      RejectionFacts(queue, l, w);
    }
  }

  lemma {:induction false} RunUnseenIsNext(queue: seq<Batch>, source: bool, l: Ledger, w: World)
    requires !Relands(queue, source, l, w)
    ensures UnseenIsNext(Run(queue, source, false, l, w), queue)
  {
    RunPhases(queue, source, false, l, w);
    PhasedUnseenIsNext(Run(queue, source, false, l, w), queue, source, l, w);
  }

  lemma {:induction false} PhasedUnseenIsNext(e: Execution, queue: seq<Batch>, source: bool, l: Ledger, w: World)
    requires Phased(e, queue, source, false, l, w) && !Relands(queue, source, l, w)
    ensures UnseenIsNext(e, queue)
  {
    match FirstRejection(queue, l, w)
    case None =>
    case Some(r) =>
      RejectionFacts(queue, l, w);
      if source && r.reply.Stale? && Refreshed(r, w).Some? {
        var (rebuilt, after) := Refreshed(r, w).value;
        if r.missed == [] {
          RefreshedUnseen(queue, source, r, rebuilt, after, l, w);
        } else {
          RefreshedHead(r.rest, ReadAccount(r.ledger, w).1.value, source, after, w);
          assert r.missed + [] == r.missed;
        }
      }
  }

  /** When the rejected batch did not take effect, the unseen one of the second phase is the next of all. */
  lemma {:induction false} RefreshedUnseen(queue: seq<Batch>, source: bool, r: Rejection, rebuilt: seq<Batch>, after: Ledger,
                                           l: Ledger, w: World)
    requires RejectedAfter(r, queue, l) && Refreshed(r, w) == Some((rebuilt, after)) && r.missed == []
    ensures var later := Run(rebuilt, source, true, after, w);
      var d := |queue| - |r.rest| + |later.done|;
      d <= |queue| && r.missed + later.unseen == later.unseen &&
      (later.unseen == [] || (d < |queue| && later.unseen == [queue[d].tx.footprint]))
  {
    var later := Run(rebuilt, source, true, after, w);
    var j := |later.done|;
    PhaseUnseenIsNext(rebuilt, source, after, w);
    RebuiltKeepsIdentity(r.rest, ReadAccount(r.ledger, w).1.value);
    IdentitiesDetermine(rebuilt, r.rest);
    if later.unseen != [] {
      assert IdentityOf(rebuilt[j]) == IdentityOf(r.rest[j]) && r.rest[j] == queue[|queue| - |r.rest| + j];
    }
    assert [] + later.unseen == later.unseen;
  }

  lemma {:induction false} DoneAreFirst(queue: seq<Batch>, source: bool, l: Ledger, w: World)
    ensures var e := Run(queue, source, false, l, w);
      |e.done| <= |queue| == |Footprints(queue)| && Footprints(e.done) == Footprints(queue)[..|e.done|]
  {
    var e := Run(queue, source, false, l, w);
    RunPartitions(queue, source, false, l, w);
    AppendFacts(e.done, Remaining(e));
    IdentitiesDetermine(e.done + Remaining(e), queue);
    FootprintsLength(queue);
    FootprintsLength(e.done);
    assert Footprints(queue) == Footprints(e.done) + Footprints(Remaining(e));
  }

  /** What a run leaves for the next: all of its queue if it rejects, else what is not done. */
  function LeftOver(queue: seq<Batch>, e: Execution): seq<Footprint> {
    if e.end.ReadFailed? || |e.done| > |Footprints(queue)| then Footprints(queue) else Footprints(queue)[|e.done|..]
  }

  /** A run that lands nothing twice loses the first footprints of what it leaves. */
  lemma {:induction false} LosesFirst(queue: seq<Batch>, source: bool, l: Ledger, w: World)
    requires !Relands(queue, source, l, w)
    ensures var e := Run(queue, source, false, l, w); Lost(e) <= LeftOver(queue, e)
  {
    var e := Run(queue, source, false, l, w);
    RunUnseenIsNext(queue, source, l, w);
    DoneAreFirst(queue, source, l, w);
    if e.unseen != [] {
      FootprintAt(queue, |e.done|);
    }
    PrefixAndNext(Footprints(queue), |e.done|, e.unseen);
    assert [] + e.unseen == e.unseen;
  }

  lemma PrefixAndNext(all: seq<Footprint>, d: nat, next: seq<Footprint>)
    requires d <= |all| && (next == [] || (d < |all| && next == [all[d]]))
    ensures all[..d] + next <= all && next <= all[d..]
  {
  }

  lemma {:induction false} FootprintAt(queue: seq<Batch>, i: nat)
    requires i < |queue|
    ensures i < |Footprints(queue)| && Footprints(queue)[i] == queue[i].tx.footprint
  {
    if i > 0 {
      FootprintAt(queue[1..], i - 1);
    }
  }

  // ---- Landing twice in one run ----

  /** The stale rejection was wrong, the batch had landed, and its rebuilt transaction lands as well. */
  predicate Relands(queue: seq<Batch>, source: bool, l: Ledger, w: World) {
    match FirstRejection(queue, l, w)
    case None => false
    case Some(r) =>
      source && r.reply.Stale? && r.missed != [] &&
      match Refreshed(r, w)
      case None => false
      case Some((rebuilt, after)) => rebuilt != [] && Submit(after, rebuilt[0].tx, w).ledger.landed != after.landed
  }

  ghost predicate LandsTwice(landed: seq<Footprint>, base: seq<Footprint>) {
    exists f :: multiset(landed)[f] > multiset(base)[f] + 1
  }

  ghost predicate DistinctFootprints(queue: seq<Batch>) { Distinct(Footprints(queue)) }

  /** Of batches with different footprints, a run lands one twice if and only if it reads an applied
      submission's answer as stale and the rebuilt transaction lands too. */
  lemma {:induction false} LandsTwiceIff(queue: seq<Batch>, source: bool, l: Ledger, w: World)
    requires DistinctFootprints(queue)
    ensures LandsTwice(Run(queue, source, false, l, w).ledger.landed, l.landed) <==> Relands(queue, source, l, w)
  {
    RunPhases(queue, source, false, l, w);
    PhasedTwice(Run(queue, source, false, l, w), queue, source, l, w);
  }

  lemma {:induction false} PhasedTwice(e: Execution, queue: seq<Batch>, source: bool, l: Ledger, w: World)
    requires DistinctFootprints(queue) && Phased(e, queue, source, false, l, w)
    ensures LandsTwice(e.ledger.landed, l.landed) <==> Relands(queue, source, l, w)
  {
    match FirstRejection(queue, l, w)
    case None =>
      assert queue[..|queue|] == queue;
      PrefixOnce(e.ledger.landed, l.landed, queue, |queue|);
    case Some(r) =>
      RejectionFacts(queue, l, w);
      if source && r.reply.Stale? && Refreshed(r, w).Some? {
        var (rebuilt, after) := Refreshed(r, w).value;
        RefreshedTwice(e.ledger.landed, queue, source, r, rebuilt, after, l, w);
      } else {
        StoppedOnce(e.ledger.landed, queue, r, l);
      }
  }

  lemma {:induction false} StoppedOnce(landed: seq<Footprint>, queue: seq<Batch>, r: Rejection, l: Ledger)
    requires DistinctFootprints(queue) && RejectedAfter(r, queue, l) && landed == r.ledger.landed
    ensures !LandsTwice(landed, l.landed)
  {
    LandedPrefix(queue, |queue| - |r.rest|, r.missed);
    PrefixOnce(landed, l.landed, queue, |queue| - |r.rest| + |r.missed|);
  }

  lemma {:induction false} FootprintsPrefix(queue: seq<Batch>, n: nat)
    requires n <= |queue|
    ensures n <= |Footprints(queue)| && Footprints(queue[..n]) == Footprints(queue)[..n]
  {
    FootprintsLength(queue);
    if n > 0 {
      FootprintsPrefix(queue[1..], n - 1);
      assert queue[..n][1..] == queue[1..][..n - 1];
    }
  }

  lemma {:induction false} PrefixOnce(landed: seq<Footprint>, base: seq<Footprint>, queue: seq<Batch>, n: nat)
    requires DistinctFootprints(queue) && n <= |queue| && landed == base + Footprints(queue[..n])
    ensures !LandsTwice(landed, base)
  {
    FootprintsPrefix(queue, n);
    forall f ensures multiset(landed)[f] <= multiset(base)[f] + 1 {
      DistinctOnce(Footprints(queue[..n]), f);
      assert multiset(landed) == multiset(base) + multiset(Footprints(queue[..n]));
    }
  }

  lemma {:induction false} SamePrefix(a: seq<Batch>, b: seq<Batch>, n: nat)
    requires Identities(a) == Identities(b) && n <= |a|
    ensures |a| == |b| && Footprints(a[..n]) == Footprints(b[..n])
  {
    IdentitiesDetermine(a, b);
    FootprintsPrefix(a, n);
    FootprintsPrefix(b, n);
  }

  /** After the refresh: the rebuilt batches land from the first on, and the first does unless none does. */
  lemma {:induction false} RefreshedLands(source: bool, r: Rejection, rebuilt: seq<Batch>, after: Ledger, w: World) returns (n: nat)
    requires r.rest != [] && Refreshed(r, w) == Some((rebuilt, after))
    ensures n <= |r.rest| && rebuilt != []
    ensures Run(rebuilt, source, true, after, w).ledger.landed == r.ledger.landed + Footprints(r.rest[..n])
    ensures n == 0 <==> Submit(after, rebuilt[0].tx, w).ledger.landed == after.landed
    ensures n == |Run(rebuilt, source, true, after, w).done| + |Run(rebuilt, source, true, after, w).unseen|
  {
    var later := Run(rebuilt, source, true, after, w);
    n := |later.done| + |later.unseen|;
    PhaseLands(rebuilt, source, after, w);
    RebuiltKeepsIdentity(r.rest, ReadAccount(r.ledger, w).1.value);
    SamePrefix(rebuilt, r.rest, n);
    SubmitLands(after, rebuilt[0], w);
  }

  /** What a refreshed run lands: the batches before the rejected one, it if it took effect, and then so many
      from it on. */
  lemma {:induction false} RefreshedTwice(landed: seq<Footprint>, queue: seq<Batch>, source: bool, r: Rejection,
                                          rebuilt: seq<Batch>, after: Ledger, l: Ledger, w: World)
    requires DistinctFootprints(queue) && RejectedAfter(r, queue, l)
    requires Refreshed(r, w) == Some((rebuilt, after)) && landed == Run(rebuilt, source, true, after, w).ledger.landed
    ensures LandsTwice(landed, l.landed) <==>
      r.missed != [] && rebuilt != [] && Submit(after, rebuilt[0].tx, w).ledger.landed != after.landed
  {
    var k := |queue| - |r.rest|;
    var n := RefreshedLands(source, r, rebuilt, after, w);
    if r.missed == [] {
      NotMissedOnce(landed, l.landed, queue, k, n);
    } else if n == 0 {
      LandedPrefix(queue, k, r.missed);
      assert landed == r.ledger.landed + [] == r.ledger.landed;
      PrefixOnce(landed, l.landed, queue, k + 1);
    } else {
      var f := r.rest[0].tx.footprint;
      FootprintsCons(r.rest[0], r.rest[..n][1..]);
      assert r.rest[..n] == [r.rest[0]] + r.rest[..n][1..] && r.missed == [f];
      TwiceIn(landed, l.landed, Footprints(queue[..k]), Footprints(r.rest[..n]), f);
    }
  }

  lemma {:induction false} JoinPrefixes(base: seq<Footprint>, queue: seq<Batch>, k: nat, n: nat)
    requires k + n <= |queue|
    ensures base + (Footprints(queue[..k]) + []) + Footprints(queue[k..][..n]) == base + Footprints(queue[..k + n])
  {
    var first, second := Footprints(queue[..k]), Footprints(queue[k..][..n]);
    assert queue[..k] + queue[k..][..n] == queue[..k + n];
    FootprintsAppend(queue[..k], queue[k..][..n]);
    ConcatAssoc(base, first, second);
    assert first + [] == first;
  }

  lemma {:induction false} NotMissedOnce(landed: seq<Footprint>, base: seq<Footprint>, queue: seq<Batch>, k: nat, n: nat)
    requires DistinctFootprints(queue) && k + n <= |queue|
    requires landed == base + (Footprints(queue[..k]) + []) + Footprints(queue[k..][..n])
    ensures !LandsTwice(landed, base)
  {
    JoinPrefixes(base, queue, k, n);
    PrefixOnce(landed, base, queue, k + n);
  }

  lemma TwiceIn(landed: seq<Footprint>, base: seq<Footprint>, first: seq<Footprint>, second: seq<Footprint>, f: Footprint)
    requires landed == base + (first + [f]) + second && second != [] && second[0] == f
    ensures LandsTwice(landed, base)
  {
    assert multiset(landed) == multiset(base) + (multiset(first) + multiset{f}) + multiset(second);
    assert multiset(second)[f] >= 1;
    assert multiset(landed)[f] > multiset(base)[f] + 1;
  }

  lemma TwiceStays(landed: seq<Footprint>, later: seq<Footprint>, base: seq<Footprint>)
    requires LandsTwice(landed, base) && multiset(landed) <= multiset(later)
    ensures LandsTwice(later, base)
  {
    var f :| multiset(landed)[f] > multiset(base)[f] + 1;
    assert multiset(later)[f] > multiset(base)[f] + 1;
  }

  lemma TwiceSince(landed: seq<Footprint>, earlier: seq<Footprint>, base: seq<Footprint>)
    requires LandsTwice(landed, earlier) && multiset(base) <= multiset(earlier)
    ensures LandsTwice(landed, base)
  {
    var f :| multiset(landed)[f] > multiset(earlier)[f] + 1;
    assert multiset(landed)[f] > multiset(base)[f] + 1;
  }

  lemma GainsTwice(landed: seq<Footprint>, earlier: seq<Footprint>, base: seq<Footprint>, f: Footprint)
    requires Gains(landed, earlier, f) && multiset(earlier)[f] > multiset(base)[f]
    ensures LandsTwice(landed, base)
  {
    assert multiset(landed)[f] > multiset(base)[f] + 1;
  }

  /** A run that lands nothing twice lands the first so many footprints of its queue, in order. */
  lemma {:induction false} LandsInOrder(queue: seq<Batch>, source: bool, l: Ledger, w: World)
    requires !Relands(queue, source, l, w)
    ensures var e := Run(queue, source, false, l, w);
      FirstLanded(e.ledger.landed, l.landed, queue, |e.done| + |e.unseen|)
  {
    RunPhases(queue, source, false, l, w);
    PhasedInOrder(Run(queue, source, false, l, w), queue, source, l, w);
  }

  ghost predicate FirstLanded(landed: seq<Footprint>, base: seq<Footprint>, queue: seq<Batch>, n: nat) {
    n <= |queue| && landed == base + Footprints(queue[..n])
  }

  lemma {:induction false} PhasedInOrder(e: Execution, queue: seq<Batch>, source: bool, l: Ledger, w: World)
    requires Phased(e, queue, source, false, l, w) && !Relands(queue, source, l, w)
    ensures FirstLanded(e.ledger.landed, l.landed, queue, |e.done| + |e.unseen|)
  {
    match FirstRejection(queue, l, w)
    case None => AllInOrder(e.ledger.landed, l.landed, queue);
    case Some(r) =>
      RejectionFacts(queue, l, w);
      if source && r.reply.Stale? && Refreshed(r, w).Some? {
        var (rebuilt, after) := Refreshed(r, w).value;
        PhasedRefresh(e, queue, source, r, rebuilt, after, l, w);
        RefreshInOrder(e, queue, source, r, rebuilt, after, l, w);
      } else {
        PhasedStop(e, queue, source, r, l, w);
        StoppedInOrder(queue, r, l);
      }
  }

  lemma {:induction false} RefreshInOrder(e: Execution, queue: seq<Batch>, source: bool, r: Rejection, rebuilt: seq<Batch>,
                                          after: Ledger, l: Ledger, w: World)
    requires RejectedAfter(r, queue, l) && Refreshed(r, w) == Some((rebuilt, after))
    requires r.missed != [] && rebuilt != [] ==> Submit(after, rebuilt[0].tx, w).ledger.landed == after.landed
    requires var later := Run(rebuilt, source, true, after, w);
      e.ledger == later.ledger && e.unseen == r.missed + later.unseen && |e.done| == |queue| - |r.rest| + |later.done|
    ensures FirstLanded(e.ledger.landed, l.landed, queue, |e.done| + |e.unseen|)
  {
    RefreshedInOrder(queue, source, r, rebuilt, after, l, w);
  }

  lemma {:induction false} PhasedRefresh(e: Execution, queue: seq<Batch>, source: bool, r: Rejection, rebuilt: seq<Batch>,
                                         after: Ledger, l: Ledger, w: World)
    requires Phased(e, queue, source, false, l, w) && FirstRejection(queue, l, w) == Some(r)
    requires source && r.reply.Stale? && Refreshed(r, w) == Some((rebuilt, after))
    ensures var later := Run(rebuilt, source, true, after, w);
      e.ledger == later.ledger && e.unseen == r.missed + later.unseen &&
      |e.done| == |queue| - |r.rest| + |later.done|
  {
  }

  lemma {:induction false} PhasedStop(e: Execution, queue: seq<Batch>, source: bool, r: Rejection, l: Ledger, w: World)
    requires Phased(e, queue, source, false, l, w) && FirstRejection(queue, l, w) == Some(r)
    requires !(source && r.reply.Stale? && Refreshed(r, w).Some?)
    ensures e.ledger.landed == r.ledger.landed && |e.done| == |queue| - |r.rest| && e.unseen == r.missed
  {
  }

  lemma {:induction false} AllInOrder(landed: seq<Footprint>, base: seq<Footprint>, queue: seq<Batch>)
    requires landed == base + Footprints(queue)
    ensures FirstLanded(landed, base, queue, |queue|)
  {
    assert queue[..|queue|] == queue;
  }

  lemma {:induction false} StoppedInOrder(queue: seq<Batch>, r: Rejection, l: Ledger)
    requires RejectedAfter(r, queue, l)
    ensures FirstLanded(r.ledger.landed, l.landed, queue, |queue| - |r.rest| + |r.missed|)
  {
    LandedPrefix(queue, |queue| - |r.rest|, r.missed);
  }

  lemma {:induction false} RefreshedInOrder(queue: seq<Batch>, source: bool, r: Rejection, rebuilt: seq<Batch>, after: Ledger,
                                            l: Ledger, w: World)
    requires RejectedAfter(r, queue, l) && Refreshed(r, w) == Some((rebuilt, after))
    requires r.missed != [] && rebuilt != [] ==> Submit(after, rebuilt[0].tx, w).ledger.landed == after.landed
    ensures var later := Run(rebuilt, source, true, after, w);
      FirstLanded(later.ledger.landed, l.landed, queue, |queue| - |r.rest| + |later.done| + |r.missed + later.unseen|)
  {
    var k := |queue| - |r.rest|;
    var n := RefreshedLands(source, r, rebuilt, after, w);
    if r.missed == [] {
      JoinPrefixes(l.landed, queue, k, n);
    } else {
      LandedPrefix(queue, k, r.missed);
      assert r.ledger.landed + [] == r.ledger.landed;
    }
  }

  /** The wrong rejection at work: the only send that is answered finds the sequence number used, by the
      transaction itself. The batch lands twice in one run that reports success. */
  lemma StaleReplyLandsTwice(b: Footprint)
    ensures var planned := [Batch(0, Transaction(b, 1, Plain), 1, Pending, None, None)];
      var w := World(k => Weather(0, if k == 0 then AnswerRepeat(true) else Deliver, "h"), k => Some(0));
      var e := Run(planned, true, false, Ledger(0, [], 0, 0), w);
      e.end.Completed? && |e.done| == 1 && e.unseen == [b] && e.ledger.landed == [b, b]
  {
    var b0 := Batch(0, Transaction(b, 1, Plain), 1, Pending, None, None);
    var w := World(k => Weather(0, if k == 0 then AnswerRepeat(true) else Deliver, "h"), k => Some(0));
    var b1 := b0.(tx := Transaction(b, 2, Plain));
    var l1 := Ledger(1, [b], 1, 1);
    assert Submit(Ledger(0, [], 0, 0), b0.tx, w) == Submission(Ledger(1, [b], 1, 0), Stale("h"), true) by {
      assert [] + [b] == [b];
    }
    assert Rebuilt([b0], 1) == [b1] + Rebuilt([b0][1..], 2) && Rebuilt([b0][1..], 2) == [];
    assert [b] + [b] == [b, b] && [b1][1..] == [] && [b] + [] == [b];
    assert Submit(l1, b1.tx, w) == Submission(Ledger(2, [b, b], 2, 1), Confirmed("h"), false);
    assert Run([b1], true, true, l1, w).done == [Succeeded(b1, "h")] + [];
  }
}
