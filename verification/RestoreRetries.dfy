/** The other way to recover: the captured failed state, retried until nothing is left. */
module RestoreRetries {
  import opened Seqs
  import opened Network
  import opened SequentialRestore
  import opened RestoreReceipts
  import opened RestoreGuards

  datatype FailedState = FailedState(
    sourceAccountID: string,
    failedBatches: seq<Batch>,
    failedBatchIndex: nat,
    partialEntriesRestored: int)

  datatype RetryResult = RetryResult(success: bool, entriesRestored: int)

  /** What a run leaves in `_lastFailedRestoreState`. A run that rejects leaves it as it was. */
  function StateAfter(e: Execution, source: Option<string>, before: Option<FailedState>): Option<FailedState> {
    match e.end
    case Completed => None
    case Stopped(failed, _, rest) =>
      Some(FailedState(if source.Some? then source.value else "", [failed] + rest, |e.done|, KeyCount(e.done)))
    case ReadFailed(_) => before
  }

  /** The client between calls: the captured state and the ledger. */
  datatype Client = Client(state: Option<FailedState>, ledger: Ledger)

  function Truthy(source: Option<string>): bool { source.Some? && source.value != "" }

  function Execute(c: Client, batches: seq<Batch>, source: Option<string>, w: World): (Outcome<RestoreResult>, Client) {
    var e := Run(batches, Truthy(source), false, c.ledger, w);
    (ResultOf(e), Client(StateAfter(e, source, c.state), e.ledger))
  }

  /** `retryFailedRestore(state)`. */
  function Retry(c: Client, state: FailedState, w: World): (Outcome<RetryResult>, Client) {
    if state.failedBatches == [] then (Returned(RetryResult(true, state.partialEntriesRestored)), c)
    else
      var (after, sequence) := ReadAccount(c.ledger, w);
      if sequence.None? then (Threw, c.(ledger := after))
      else
        var (o, c') := Execute(c.(ledger := after), Rebuilt(state.failedBatches, sequence.value), Some(state.sourceAccountID), w);
        match o
        case Threw => (Threw, c')
        case Returned(r) =>
          (Returned(RetryResult(r.success, state.partialEntriesRestored + r.totalKeysRestored)), c')
  }

  /** Retry the captured state, if there is one. */
  function Retrying(w: World): Client -> Client {
    (c: Client) => if c.state.None? then c else Retry(c, c.state.value, w).1
  }

  /** Execute the plan, then retry the captured state `n` times, or until none is left. */
  function Attempts(n: nat, c: Client, planned: seq<Batch>, source: Option<string>, w: World): Client {
    Repeated(n, Execute(c, planned, source, w).1, Retrying(w))
  }

  /** A retry of the captured state would leave its client ignorant of something it lands: the guard is on
      the batches it rebuilds, the ledger it finds and the network. */
  predicate RetryForgets(c: Client, w: World) {
    c.state.Some? &&
    var (after, sequence) := ReadAccount(c.ledger, w);
    sequence.Some? &&
    Forgets(Rebuilt(c.state.value.failedBatches, sequence.value), c.state.value.sourceAccountID != "", after, w)
  }

  function RetryTells(w: World): Client -> bool { (c: Client) => !RetryForgets(c, w) }

  /** The first call returns and nothing takes effect unseen; or it rejects, its last batch alone is left and has
      taken effect, and there is no older failed state. */
  predicate FirstTells(c: Client, planned: seq<Batch>, source: Option<string>, w: World) {
    var r := FirstRejection(planned, c.ledger, w);
    if Rejects(planned, Truthy(source), c.ledger, w) then c.state.None? && r.value.missed != [] && |r.value.rest| == 1
    else !TakesEffectUnseen(planned, Truthy(source), c.ledger, w)
  }

  /** Every call told the client of all it landed. The guards are on the batches, the ledger and the network
      that each call finds. */
  ghost predicate AttemptsTell(n: nat, c: Client, planned: seq<Batch>, source: Option<string>, w: World) {
    FirstTells(c, planned, source, w) && GoodSoFar(n, Execute(c, planned, source, w).1, Retrying(w), RetryTells(w))
  }

  function Left(c: Client): seq<Batch> {
    if c.state.None? then [] else c.state.value.failedBatches
  }

  /** What a run lands and what it leaves, counting what takes effect unseen. */
  lemma RunAccounts(queue: seq<Batch>, source: bool, l: Ledger, w: World)
    ensures var e := Run(queue, source, false, l, w);
      |e.ledger.landed| == |l.landed| + |e.done| + |e.unseen| &&
      |e.done| + |Remaining(e)| == |queue| &&
      (e.unseen == [] ==> e.ledger.landed + Footprints(Remaining(e)) == l.landed + Footprints(queue))
  {
    var e := Run(queue, source, false, l, w);
    RunPartitions(queue, source, false, l, w);
    RunLands(queue, source, false, l, w);
    AppendFacts(e.done, Remaining(e));
    IdentitiesDetermine(e.done + Remaining(e), queue);
    FootprintsLength(e.done);
    LengthOfSum(e.ledger.landed, l.landed, Footprints(e.done), e.unseen);
    ConcatAssoc(l.landed, Footprints(e.done), Footprints(Remaining(e)));
  }

  lemma LengthOfSum(all: seq<Footprint>, a: seq<Footprint>, b: seq<Footprint>, c: seq<Footprint>)
    requires multiset(all) == multiset(a) + multiset(b) + multiset(c)
    ensures |all| == |a| + |b| + |c|
  {
    assert |multiset(all)| == |multiset(a)| + |multiset(b)| + |multiset(c)|;
  }

  /** A run whose caller keeps the whole queue when it rejects. */
  lemma RerunAccounts(queue: seq<Batch>, source: bool, l: Ledger, w: World)
    ensures var e := Run(queue, source, false, l, w);
      var left := if e.end.ReadFailed? then queue else Remaining(e);
      var total, total' := |l.landed| + |queue|, |e.ledger.landed| + |left|;
      if Forgets(queue, source, l, w) then total' > total
      else total' == total && e.ledger.landed + Footprints(left) == l.landed + Footprints(queue)
  {
    var e := Run(queue, source, false, l, w);
    RunAccounts(queue, source, l, w);
    LostIff(queue, source, l, w);
    FootprintsLength(e.done);
    if e.end.ReadFailed? && Lost(e) == [] {
      RunLands(queue, source, false, l, w);
      assert e.ledger.landed == l.landed + [] == l.landed;
    }
  }

  /** One retry: it leaves one too many exactly under the guard, and otherwise moves batches from what is left
      to what has landed. */
  lemma RetryAccounts(c: Client, w: World)
    requires c.state.Some? && Left(c) != []
    ensures var c' := Retry(c, c.state.value, w).1;
      var total, total' := |c.ledger.landed| + |Left(c)|, |c'.ledger.landed| + |Left(c')|;
      (if RetryForgets(c, w) then total' > total
       else total' == total && c'.ledger.landed + Footprints(Left(c')) == c.ledger.landed + Footprints(Left(c))) &&
      (c'.state.Some? ==> Left(c') != [])
  {
    var state := c.state.value;
    var (after, sequence) := ReadAccount(c.ledger, w);
    if sequence.Some? {
      var rebuilt := Rebuilt(state.failedBatches, sequence.value);
      RebuiltKeepsIdentity(state.failedBatches, sequence.value);
      IdentitiesDetermine(rebuilt, state.failedBatches);
      RerunAccounts(rebuilt, Truthy(Some(state.sourceAccountID)), after, w);
    }
  }

  /** While every attempt told its client all, what has landed followed by what is left is unchanged;
      otherwise there is one too many for good, or batches are forgotten for good. */
  ghost predicate Accounted(c: Client, told: bool, blank: bool, planned: seq<Batch>, base: seq<Footprint>) {
    var total := |c.ledger.landed| + |Left(c)|;
    (told ==> c.ledger.landed + Footprints(Left(c)) == base + Footprints(planned)) &&
    (blank && !told ==> total > |base| + |planned| || (c.state.None? && total < |base| + |planned|)) &&
    (c.state.Some? && (told || blank) ==> Left(c) != [])
  }

  lemma FirstAccounted(c: Client, planned: seq<Batch>, source: Option<string>, w: World)
    ensures Accounted(Execute(c, planned, source, w).1, FirstTells(c, planned, source, w), c.state.None?,
                      planned, c.ledger.landed)
  {
    RunAccounts(planned, Truthy(source), c.ledger, w);
    RunEndsIff(planned, Truthy(source), c.ledger, w);
    if Rejects(planned, Truthy(source), c.ledger, w) {
      RejectedAccounted(c, planned, source, w);
    }
  }

  lemma RejectedAccounted(c: Client, planned: seq<Batch>, source: Option<string>, w: World)
    requires Rejects(planned, Truthy(source), c.ledger, w)
    ensures Accounted(Execute(c, planned, source, w).1, FirstTells(c, planned, source, w), c.state.None?,
                      planned, c.ledger.landed)
  {
    var r := FirstRejection(planned, c.ledger, w).value;
    var k := |planned| - |r.rest|;
    var after := Execute(c, planned, source, w).1;
    RejectionFacts(planned, c.ledger, w);
    RunPhases(planned, Truthy(source), false, c.ledger, w);
    LandedPrefix(planned, k, r.missed);
    FootprintsLength(planned[..k + |r.missed|]);
    assert after.state == c.state && after.ledger.landed == r.ledger.landed;
    assert k + |r.missed| == |planned| ==> planned[..k + |r.missed|] == planned;
    assert after.ledger.landed + [] == after.ledger.landed;
  }

  lemma NextAccounted(c: Client, told: bool, blank: bool, planned: seq<Batch>, base: seq<Footprint>, w: World)
    requires Accounted(c, told, blank, planned, base)
    ensures Accounted(Retrying(w)(c), told && RetryTells(w)(c), blank, planned, base)
  {
    if c.state.Some? && (told || blank) {
      RetryAccounts(c, w);
      FootprintsLength(Left(c));
      FootprintsLength(planned);
      assert told ==> |c.ledger.landed + Footprints(Left(c))| == |base + Footprints(planned)|;
    }
  }

  lemma AttemptsAccounted(n: nat, c: Client, planned: seq<Batch>, source: Option<string>, w: World)
    ensures Accounted(Attempts(n, c, planned, source, w), AttemptsTell(n, c, planned, source, w), c.state.None?,
                      planned, c.ledger.landed)
  {
    var first, retry, blank, base := Execute(c, planned, source, w).1, Retrying(w), c.state.None?, c.ledger.landed;
    var holds := (x: Client, told: bool) => Accounted(x, told, blank, planned, base);
    FirstAccounted(c, planned, source, w);
    forall x, told | holds(x, told) ensures holds(retry(x), told && RetryTells(w)(x)) {
      NextAccounted(x, told, blank, planned, base, w);
    }
    RepeatedKeepsFlag(n, first, retry, FirstTells(c, planned, source, w), RetryTells(w), holds);
  }

  ghost predicate Conserved(c: Client, planned: seq<Batch>, base: seq<Footprint>) {
    c.ledger.landed + Footprints(Left(c)) == base + Footprints(planned)
  }

  /** Conservation over any number of attempts: as long as the guards are false, what has landed followed by
      what is left is what had landed before followed by the plan, in the same order. Nothing lands twice,
      nothing is forgotten, and once no failed state is left every planned batch has landed once. For a
      client that starts without an older failed state this is so only then. */
  lemma AttemptsConserve(n: nat, c: Client, planned: seq<Batch>, source: Option<string>, w: World)
    ensures AttemptsTell(n, c, planned, source, w) ==> Conserved(Attempts(n, c, planned, source, w), planned, c.ledger.landed)
    ensures c.state.None? && Conserved(Attempts(n, c, planned, source, w), planned, c.ledger.landed) ==>
      AttemptsTell(n, c, planned, source, w)
  {
    var after := Attempts(n, c, planned, source, w);
    AttemptsAccounted(n, c, planned, source, w);
    FootprintsLength(Left(after));
    FootprintsLength(planned);
    assert |after.ledger.landed + Footprints(Left(after))| == |after.ledger.landed| + |Left(after)|;
    assert |c.ledger.landed + Footprints(planned)| == |c.ledger.landed| + |planned|;
  }

  /** With no outcome in doubt and no failed account read the guards are false. */
  lemma ClearAttemptsTell(n: nat, c: Client, planned: seq<Batch>, source: Option<string>, w: World)
    requires Clear(w) && Readable(w)
    ensures AttemptsTell(n, c, planned, source, w)
  {
    ClearForgetsNothing(planned, Truthy(source), c.ledger, w);
    forall c': Client ensures RetryTells(w)(c') {
      var (after, sequence) := ReadAccount(c'.ledger, w);
      if c'.state.Some? && sequence.Some? {
        ClearForgetsNothing(
          Rebuilt(c'.state.value.failedBatches, sequence.value), c'.state.value.sourceAccountID != "", after, w);
      }
    }
  }

  lemma RunCounts(queue: seq<Batch>, source: bool, l: Ledger, w: World)
    ensures var e := Run(queue, source, false, l, w); KeyCount(e.done) + KeyCount(Remaining(e)) == KeyCount(queue)
  {
    var e := Run(queue, source, false, l, w);
    RunPartitions(queue, source, false, l, w);
    AppendFacts(e.done, Remaining(e));
    IdentitiesDetermine(e.done + Remaining(e), queue);
  }

  /** The count that a retry returns is the running total of what is reported restored exactly when the state it
      was given holds that total; the state a failed retry leaves does so only if nothing was restored
      before that retry. */
  lemma ReportedEntries(c: Client, state: FailedState, total: int, w: World)
    requires state.failedBatches != [] && Retry(c, state, w).0.Returned?
    ensures var (o, c') := Retry(c, state, w);
      var total' := total + KeyCount(state.failedBatches) - KeyCount(Left(c'));
      (o.value.success <==> c'.state.None?) &&
      (o.value.entriesRestored == total' <==> state.partialEntriesRestored == total) &&
      (c'.state.Some? ==> (c'.state.value.partialEntriesRestored == total' <==> total == 0))
  {
    var (after, sequence) := ReadAccount(c.ledger, w);
    var rebuilt := Rebuilt(state.failedBatches, sequence.value);
    RebuiltKeepsIdentity(state.failedBatches, sequence.value);
    IdentitiesDetermine(rebuilt, state.failedBatches);
    RunCounts(rebuilt, Truthy(Some(state.sourceAccountID)), after, w);
  }
}
