/** At most once, over any number of retries: exactly when some footprint lands twice. */
module RetryRepeats {
  import opened Seqs
  import opened Network
  import opened SequentialRestore
  import opened RestoreReceipts
  import opened RestoreGuards
  import opened RestoreRetries

  /** What the client has landed since `base` are the first footprints of the plan, in order, and what it has left
      to retry are the last ones, perhaps from before the end of what has landed. */
  ghost predicate InOrder(c: Client, planned: seq<Batch>, base: seq<Footprint>) {
    var all, t, left := Footprints(planned), |c.ledger.landed| - |base|, |Left(c)|;
    0 <= t <= |all| && c.ledger.landed == base + all[..t] &&
    (c.state.Some? ==> 0 < left <= |all| && Footprints(Left(c)) == all[|all| - left..] && |all| - left <= t)
  }

  /** What has landed ends where what is left begins. */
  predicate Settled(c: Client, planned: seq<Batch>, base: seq<Footprint>) {
    |c.ledger.landed| + |Left(c)| <= |base| + |planned|
  }

  /** The batches that a retry of the captured state runs, and the ledger it finds, if it gets that far. */
  function Resubmitted(c: Client, w: World): Option<(seq<Batch>, Ledger)> {
    if c.state.None? then None
    else
      var (after, sequence) := ReadAccount(c.ledger, w);
      if sequence.None? then None else Some((Rebuilt(c.state.value.failedBatches, sequence.value), after))
  }

  function SourceOf(c: Client): bool { c.state.Some? && c.state.value.sourceAccountID != "" }

  predicate RetryRelands(c: Client, w: World) {
    match Resubmitted(c, w)
    case None => false
    case Some((queue, after)) => Relands(queue, SourceOf(c), after, w)
  }

  predicate RetryLandsSomething(c: Client, w: World) {
    match Resubmitted(c, w)
    case None => false
    case Some((queue, after)) => LandsSomething(queue, SourceOf(c), after, w)
  }

  predicate Repeats(c: Client, planned: seq<Batch>, base: seq<Footprint>, w: World) {
    RetryRelands(c, w) || (!Settled(c, planned, base) && RetryLandsSomething(c, w))
  }

  ghost predicate Tracked(c: Client, once: bool, planned: seq<Batch>, base: seq<Footprint>) {
    multiset(base) <= multiset(c.ledger.landed) &&
    if once then InOrder(c, planned, base) else LandsTwice(c.ledger.landed, base)
  }

  // ---- One run ----

  lemma {:induction false} RemainingAreLast(queue: seq<Batch>, source: bool, l: Ledger, w: World)
    ensures var e := Run(queue, source, false, l, w);
      var all := Footprints(queue);
      |e.done| + |Remaining(e)| == |queue| == |all| && Footprints(Remaining(e)) == all[|e.done|..]
  {
    var e := Run(queue, source, false, l, w);
    RunPartitions(queue, source, false, l, w);
    AppendFacts(e.done, Remaining(e));
    IdentitiesDetermine(e.done + Remaining(e), queue);
    FootprintsLength(e.done);
    FootprintsLength(queue);
  }

  /** A run of the end of the plan, from what has landed on. */
  lemma {:induction false} RunOnwards(queue: seq<Batch>, source: bool, l: Ledger, w: World,
                                      all: seq<Footprint>, a: nat, base: seq<Footprint>)
    requires !Relands(queue, source, l, w)
    requires a <= |all| && Footprints(queue) == all[a..] && l.landed == base + all[..a]
    ensures var e := Run(queue, source, false, l, w);
      var t := a + |e.done| + |e.unseen|;
      t <= |all| && e.ledger.landed == base + all[..t] &&
      |Remaining(e)| == |all| - a - |e.done| && Footprints(Remaining(e)) == all[a + |e.done|..]
  {
    var e := Run(queue, source, false, l, w);
    var n := |e.done| + |e.unseen|;
    LandsInOrder(queue, source, l, w);
    RemainingAreLast(queue, source, l, w);
    FootprintsPrefix(queue, n);
    assert all[..a] + all[a..][..n] == all[..a + n];
    ConcatAssoc(base, all[..a], all[a..][..n]);
  }

  lemma {:induction false} FirstTracked(c: Client, planned: seq<Batch>, source: Option<string>, w: World)
    requires c.state.None? && DistinctFootprints(planned)
    ensures Tracked(Execute(c, planned, source, w).1, !Relands(planned, Truthy(source), c.ledger, w), planned, c.ledger.landed)
  {
    var e := Run(planned, Truthy(source), false, c.ledger, w);
    var all := Footprints(planned);
    RunLandsMore(planned, Truthy(source), false, c.ledger, w);
    if Relands(planned, Truthy(source), c.ledger, w) {
      LandsTwiceIff(planned, Truthy(source), c.ledger, w);
    } else {
      assert all[0..] == all && c.ledger.landed + all[..0] == c.ledger.landed;
      RunOnwards(planned, Truthy(source), c.ledger, w, all, 0, c.ledger.landed);
      OrderAfter(c, e, source, planned, c.ledger.landed, 0, |e.done| + |e.unseen|);
    }
  }

  /** Whatever a retry runs, it is what is left, with the same footprints. */
  lemma {:induction false} ResubmittedFacts(c: Client, w: World)
    requires Resubmitted(c, w).Some?
    ensures var (queue, after) := Resubmitted(c, w).value;
      after.landed == c.ledger.landed && |queue| == |Left(c)| && Footprints(queue) == Footprints(Left(c))
  {
    var (after, sequence) := ReadAccount(c.ledger, w);
    RebuiltKeepsIdentity(Left(c), sequence.value);
    IdentitiesDetermine(Rebuilt(Left(c), sequence.value), Left(c));
  }

  lemma {:induction false} RetryRuns(c: Client, w: World)
    requires Left(c) != [] && Resubmitted(c, w).Some?
    ensures var (queue, after) := Resubmitted(c, w).value;
      var e := Run(queue, SourceOf(c), false, after, w);
      var c' := Retrying(w)(c);
      c'.ledger == e.ledger &&
      c'.state == StateAfter(e, Some(c.state.value.sourceAccountID), c.state)
  {
  }

  /** A retry that repeats something lands something twice. */
  lemma {:induction false} RepeatTwice(c: Client, planned: seq<Batch>, base: seq<Footprint>, w: World)
    requires DistinctFootprints(planned) && InOrder(c, planned, base) && multiset(base) <= multiset(c.ledger.landed)
    requires Repeats(c, planned, base, w)
    ensures LandsTwice(Retrying(w)(c).ledger.landed, base)
  {
    var (queue, after) := Resubmitted(c, w).value;
    var all, a := Footprints(planned), |planned| - |Left(c)|;
    var landed := Run(queue, SourceOf(c), false, after, w).ledger.landed;
    ResubmittedFacts(c, w);
    RetryRuns(c, w);
    FootprintsLength(planned);
    if Relands(queue, SourceOf(c), after, w) {
      SuffixDistinct(queue, planned, a);
      LandsTwiceIff(queue, SourceOf(c), after, w);
      TwiceSince(landed, after.landed, base);
    } else {
      var f := queue[0].tx.footprint;
      LandsSomethingIff(queue, SourceOf(c), after, w);
      FootprintAt(queue, 0);
      AlreadyLanded(c.ledger.landed, base, all, a, f);
      GainsTwice(landed, after.landed, base, f);
    }
  }

  lemma {:induction false} SuffixDistinct(queue: seq<Batch>, planned: seq<Batch>, a: nat)
    requires DistinctFootprints(planned) && a <= |Footprints(planned)| && Footprints(queue) == Footprints(planned)[a..]
    ensures DistinctFootprints(queue)
  {
    var all := Footprints(planned);
    assert forall i :: 0 <= i < |all| - a ==> all[a..][i] == all[a + i];
  }

  lemma AlreadyLanded(landed: seq<Footprint>, base: seq<Footprint>, all: seq<Footprint>, a: nat, f: Footprint)
    requires a < |all| && all[a] == f && a < |landed| - |base| <= |all| && landed == base + all[..|landed| - |base|]
    ensures multiset(landed)[f] > multiset(base)[f]
  {
    var more := all[..|landed| - |base|];
    assert more[a] == f && f in multiset(more);
    assert multiset(landed) == multiset(base) + multiset(more);
  }

  /** A retry that repeats nothing keeps the order. */
  lemma {:induction false} NoRepeatTracks(c: Client, planned: seq<Batch>, base: seq<Footprint>, w: World)
    requires InOrder(c, planned, base) && !Repeats(c, planned, base, w)
    ensures InOrder(Retrying(w)(c), planned, base)
  {
    if Resubmitted(c, w).Some? {
      if Settled(c, planned, base) {
        SettledTracks(c, planned, base, w);
      } else {
        NothingLandsTracks(c, planned, base, w);
      }
    }
  }

  /** Where a run from place `a` of the plan leaves its client, if it has landed the plan up to place `t`. */
  lemma {:induction false} OrderAfter(c: Client, e: Execution, source: Option<string>, planned: seq<Batch>, base: seq<Footprint>, a: nat, t: nat)
    requires var all := Footprints(planned);
      a + |e.done| <= t <= |all| && e.ledger.landed == base + all[..t] &&
      |Remaining(e)| == |all| - a - |e.done| && Footprints(Remaining(e)) == all[a + |e.done|..]
    requires c.state.Some? ==> Left(c) != [] && Footprints(Left(c)) == Footprints(planned)[a..] && |Left(c)| == |Footprints(planned)| - a
    ensures InOrder(Client(StateAfter(e, source, c.state), e.ledger), planned, base)
  {
  }

  /** Where a settled client stands in the plan. */
  lemma {:induction false} SettledPlace(c: Client, planned: seq<Batch>, base: seq<Footprint>) returns (a: nat)
    requires InOrder(c, planned, base) && c.state.Some? && Settled(c, planned, base)
    ensures var all := Footprints(planned);
      a <= |all| && |Left(c)| == |all| - a && Left(c) != [] && Footprints(Left(c)) == all[a..] && c.ledger.landed == base + all[..a]
  {
    FootprintsLength(planned);
    a := |planned| - |Left(c)|;
  }

  lemma {:induction false} SettledTracks(c: Client, planned: seq<Batch>, base: seq<Footprint>, w: World)
    requires InOrder(c, planned, base) && Resubmitted(c, w).Some? && Settled(c, planned, base) && !RetryRelands(c, w)
    ensures InOrder(Retrying(w)(c), planned, base)
  {
    var (queue, after) := Resubmitted(c, w).value;
    var a := SettledPlace(c, planned, base);
    ResubmittedFacts(c, w);
    RetryRuns(c, w);
    OnwardsTracks(c, queue, Some(c.state.value.sourceAccountID), SourceOf(c), after, planned, base, a, w);
  }

  lemma {:induction false} OnwardsTracks(c: Client, queue: seq<Batch>, source: Option<string>, truthy: bool, after: Ledger,
                                         planned: seq<Batch>, base: seq<Footprint>, a: nat, w: World)
    requires !Relands(queue, truthy, after, w)
    requires var all := Footprints(planned);
      a <= |all| && Footprints(queue) == all[a..] && after.landed == base + all[..a] &&
      |Left(c)| == |all| - a && Left(c) != [] && Footprints(Left(c)) == all[a..]
    ensures var e := Run(queue, truthy, false, after, w); InOrder(Client(StateAfter(e, source, c.state), e.ledger), planned, base)
  {
    var e := Run(queue, truthy, false, after, w);
    RunOnwards(queue, truthy, after, w, Footprints(planned), a, base);
    OrderAfter(c, e, source, planned, base, a, a + |e.done| + |e.unseen|);
  }

  lemma {:induction false} NothingLandsRun(queue: seq<Batch>, source: bool, l: Ledger, w: World)
    requires !LandsSomething(queue, source, l, w)
    ensures var e := Run(queue, source, false, l, w);
      e.done == [] && e.ledger.landed == l.landed &&
      |Remaining(e)| == |queue| && Footprints(Remaining(e)) == Footprints(queue)
  {
    LandsSomethingIff(queue, source, l, w);
    RemainingAreLast(queue, source, l, w);
    assert Footprints(queue)[0..] == Footprints(queue);
  }

  lemma {:induction false} NothingLandsTracks(c: Client, planned: seq<Batch>, base: seq<Footprint>, w: World)
    requires InOrder(c, planned, base) && Resubmitted(c, w).Some? && !RetryLandsSomething(c, w)
    ensures InOrder(Retrying(w)(c), planned, base)
  {
    var (queue, after) := Resubmitted(c, w).value;
    var a := |planned| - |Left(c)|;
    var e := Run(queue, SourceOf(c), false, after, w);
    ResubmittedFacts(c, w);
    RetryRuns(c, w);
    FootprintsLength(planned);
    NothingLandsRun(queue, SourceOf(c), after, w);
    OrderAfter(c, e, Some(c.state.value.sourceAccountID), planned, base, a, |c.ledger.landed| - |base|);
  }

  lemma {:induction false} NextTracked(c: Client, once: bool, planned: seq<Batch>, base: seq<Footprint>, w: World)
    requires DistinctFootprints(planned) && Tracked(c, once, planned, base)
    ensures Tracked(Retrying(w)(c), once && !Repeats(c, planned, base, w), planned, base)
  {
    RetryLandsMore(c, w);
    if !once {
      TwiceStays(c.ledger.landed, Retrying(w)(c).ledger.landed, base);
    } else if Repeats(c, planned, base, w) {
      RepeatTwice(c, planned, base, w);
    } else {
      NoRepeatTracks(c, planned, base, w);
    }
  }

  lemma {:induction false} RetryLandsMore(c: Client, w: World)
    ensures multiset(c.ledger.landed) <= multiset(Retrying(w)(c).ledger.landed)
  {
    if Left(c) != [] && Resubmitted(c, w).Some? {
      var (queue, after) := Resubmitted(c, w).value;
      RetryRuns(c, w);
      RunLandsMore(queue, SourceOf(c), false, after, w);
    }
  }

  // ---- The exact condition ----

  /** In the retry after the `k`-th attempt something lands a second time: its run answers a wrong stale reply, or
      lands anything at all after a call that did not tell of all it landed. */
  ghost predicate AttemptRepeats(k: nat, c: Client, planned: seq<Batch>, source: Option<string>, w: World) {
    var before := Attempts(k, c, planned, source, w);
    RetryRelands(before, w) || (!AttemptsTell(k, c, planned, source, w) && RetryLandsSomething(before, w))
  }

  lemma AttemptRepeatsIff(k: nat, c: Client, planned: seq<Batch>, source: Option<string>, w: World)
    requires c.state.None?
    ensures AttemptRepeats(k, c, planned, source, w) <==>
      Repeats(Attempts(k, c, planned, source, w), planned, c.ledger.landed, w)
  {
    var before := Attempts(k, c, planned, source, w);
    AttemptsAccounted(k, c, planned, source, w);
    FootprintsLength(planned);
    FootprintsLength(Left(before));
    assert AttemptsTell(k, c, planned, source, w) ==>
      |before.ledger.landed + Footprints(Left(before))| == |c.ledger.landed + Footprints(planned)|;
  }

  function NoRepeat(planned: seq<Batch>, base: seq<Footprint>, w: World): Client -> bool {
    (c: Client) => !Repeats(c, planned, base, w)
  }

  /** For batches with different footprints, and a client without an older failed state: after any number of retries
      some footprint has landed twice if and only if the first call or a retry landed one again after a wrong
      stale reply, or some retry landed anything after a call that did not tell of all it had landed. */
  lemma RetriedTwiceIff(n: nat, c: Client, planned: seq<Batch>, source: Option<string>, w: World)
    requires c.state.None? && DistinctFootprints(planned)
    ensures LandsTwice(Attempts(n, c, planned, source, w).ledger.landed, c.ledger.landed) <==>
      Relands(planned, Truthy(source), c.ledger, w) || exists k: nat :: k < n && AttemptRepeats(k, c, planned, source, w)
  {
    var base := c.ledger.landed;
    var first, retry := Execute(c, planned, source, w).1, Retrying(w);
    var holds := (x: Client, once: bool) => Tracked(x, once, planned, base);
    FirstTracked(c, planned, source, w);
    forall x, once | holds(x, once) ensures holds(retry(x), once && NoRepeat(planned, base, w)(x)) {
      NextTracked(x, once, planned, base, w);
    }
    RepeatedKeepsFlag(n, first, retry, !Relands(planned, Truthy(source), c.ledger, w), NoRepeat(planned, base, w), holds);
    var last := Attempts(n, c, planned, source, w);
    if InOrder(last, planned, base) {
      InOrderOnce(last, planned, base);
    }
    forall k: nat ensures AttemptRepeats(k, c, planned, source, w) <==> !NoRepeat(planned, base, w)(Repeated(k, first, retry)) {
      AttemptRepeatsIff(k, c, planned, source, w);
    }
  }

  lemma {:induction false} InOrderOnce(c: Client, planned: seq<Batch>, base: seq<Footprint>)
    requires InOrder(c, planned, base) && DistinctFootprints(planned)
    ensures !LandsTwice(c.ledger.landed, base)
  {
    var t := |c.ledger.landed| - |base|;
    FootprintsLength(planned);
    FootprintsPrefix(planned, t);
    PrefixOnce(c.ledger.landed, base, planned, t);
  }
}
