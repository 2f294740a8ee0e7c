/** Restore batches run concurrently behind the semaphore, over every interleaving of their steps. */
module ConcurrentRestore {
  import opened Seqs
  import opened SequentialRestore
  import opened Semaphore

  datatype Verdict = Confirmed(hash: string) | Rejected(message: string)

  /** The batches, the limit, and what each batch's submission will come to. */
  datatype Job = Job(batches: seq<Batch>, limit: nat, verdict: nat -> Verdict)

  datatype Phase = Unstarted | Waiting | Granted | Running | Finished

  /** `granted` counts the slots handed out so far; it and `writes` only record history. */
  datatype State = State(
    phases: seq<Phase>,
    semaphore: Semaphore,
    results: seq<Option<Batch>>,
    totalKeysRestored: int,
    failedIndices: seq<int>,
    arrived: nat,
    granted: nat,
    writes: seq<nat>)

  datatype Event =
    | Arrive            // the next task asks for a slot
    | Begin(task: nat)  // a task that was granted one starts its submission
    | Settle(task: nat) // a submission ends: its result is written and its slot released

  function Start(job: Job): State {
    var n := |job.batches|;
    State(seq(n, _ => Unstarted), Semaphore(job.limit, 0, []), seq(n, _ => None), 0, [], 0, 0, seq(n, _ => 0))
  }

  predicate Enabled(s: State, e: Event) {
    match e
    case Arrive => s.arrived < |s.phases|
    case Begin(i) => i < |s.phases| && s.phases[i] == Granted
    case Settle(i) => i < |s.phases| && s.phases[i] == Running
  }

  function Outcome(job: Job, i: nat): Batch
    requires i < |job.batches|
  {
    match job.verdict(i)
    case Confirmed(hash) => Succeeded(job.batches[i], hash)
    case Rejected(message) => job.batches[i].(status := Failure, error := Some(message))
  }

  predicate WellFormed(job: Job, s: State) {
    |s.phases| == |s.results| == |s.writes| == |job.batches|
  }

  function ArriveStep(s: State): State
    requires s.arrived < |s.phases|
  {
    var i := s.arrived;
    if Free(s.semaphore)
    then s.(phases := s.phases[i := Granted], semaphore := Acquired(s.semaphore, i), arrived := i + 1, granted := s.granted + 1)
    else s.(phases := s.phases[i := Waiting], semaphore := Acquired(s.semaphore, i), arrived := i + 1)
  }

  /** Writing the result of task `i`. */
  function Recorded(job: Job, s: State, i: nat): State
    requires WellFormed(job, s) && i < |s.phases|
  {
    var b := Outcome(job, i);
    var t := s.(phases := s.phases[i := Finished], results := s.results[i := Some(b)], writes := s.writes[i := s.writes[i] + 1]);
    if b.status == Success then t.(totalKeysRestored := s.totalKeysRestored + b.keysRestored)
    else t.(failedIndices := s.failedIndices + [i])
  }

  /** Releasing a slot, which wakes the first waiter. */
  function Freed(s: State): State {
    var t := s.(semaphore := Released(s.semaphore));
    match Woken(s.semaphore)
    case None => t
    case Some(j) => if j < |s.phases| then t.(phases := s.phases[j := Granted], granted := s.granted + 1) else t
  }

  function Step(job: Job, s: State, e: Event): State
    requires WellFormed(job, s) && Enabled(s, e)
  {
    match e
    case Arrive => ArriveStep(s)
    case Begin(i) => s.(phases := s.phases[i := Running])
    case Settle(i) => Freed(Recorded(job, s, i))
  }

  // ---- The invariant ----

  function Holds(): Phase -> int { (p: Phase) => if p.Granted? || p.Running? then 1 else 0 }

  function Gain(): Option<Batch> -> int {
    (r: Option<Batch>) => if r.Some? && r.value.status == Success then r.value.keysRestored else 0
  }

  /** Slots go out in index order: the tasks below `granted` have had one, those up to `arrived` wait in
      order, the rest have not asked. */
  ghost predicate InOrder(s: State) {
    s.granted <= s.arrived <= |s.phases| &&
    |s.semaphore.waiting| == s.arrived - s.granted &&
    (forall k :: 0 <= k < |s.semaphore.waiting| ==> s.semaphore.waiting[k] == s.granted + k) &&
    forall i :: 0 <= i < |s.phases| ==>
      (s.phases[i].Unstarted? <==> s.arrived <= i) && (s.phases[i].Waiting? <==> s.granted <= i < s.arrived)
  }

  /** Each result is written exactly once, by its own task, and says what its submission came to. */
  ghost predicate Written(job: Job, s: State) {
    WellFormed(job, s) &&
    (forall i :: 0 <= i < |s.phases| ==>
      s.writes[i] == (if s.phases[i].Finished? then 1 else 0) &&
      s.results[i] == (if s.phases[i].Finished? then Some(Outcome(job, i)) else None)) &&
    s.totalKeysRestored == Sum(s.results, Gain())
  }

  /** 1 for a task that has finished and failed, else 0. */
  function FailedSoFar(job: Job, s: State, k: int): nat
    requires WellFormed(job, s)
  {
    if 0 <= k < |s.phases| && s.phases[k].Finished? && Outcome(job, k).status != Success then 1 else 0
  }

  /** The failed indices are the finished tasks that failed, each once. */
  ghost predicate FailuresListed(job: Job, s: State) {
    WellFormed(job, s) &&
    forall k: int :: multiset(s.failedIndices)[k] == FailedSoFar(job, s, k)
  }

  ghost predicate Inv(job: Job, s: State) {
    Sound(s.semaphore) && s.semaphore.limit == job.limit &&
    InOrder(s) && Written(job, s) && FailuresListed(job, s) &&
    Sum(s.phases, Holds()) == s.semaphore.active
  }

  lemma {:induction false} SumZero<T>(s: seq<T>, f: T -> int)
    requires forall i :: 0 <= i < |s| ==> f(s[i]) == 0
    ensures Sum(s, f) == 0
  {
    if s != [] {
      SumZero(s[1..], f);
    }
  }

  lemma StartInv(job: Job)
    requires job.limit >= 1
    ensures Inv(job, Start(job))
  {
    SumZero(Start(job).phases, Holds());
    SumZero(Start(job).results, Gain());
  }

  lemma ArriveInv(job: Job, s: State)
    requires Inv(job, s) && Enabled(s, Arrive)
    ensures Inv(job, Step(job, s, Arrive))
  {
    SumUpdate(s.phases, s.arrived, if Free(s.semaphore) then Granted else Waiting, Holds());
  }

  lemma BeginInv(job: Job, s: State, i: nat)
    requires Inv(job, s) && Enabled(s, Begin(i))
    ensures Inv(job, Step(job, s, Begin(i)))
  {
    SumUpdate(s.phases, i, Running, Holds());
  }

  lemma RecordedFailures(job: Job, s: State, i: nat)
    requires FailuresListed(job, s) && i < |s.phases| && s.phases[i].Running?
    ensures FailuresListed(job, Recorded(job, s, i))
  {
    var t := Recorded(job, s, i);
    forall k: int ensures multiset(t.failedIndices)[k] == FailedSoFar(job, t, k) {
      SnocCount(s.failedIndices, i, k);
    }
  }

  lemma RecordedWritten(job: Job, s: State, i: nat)
    requires Written(job, s) && i < |s.phases| && s.phases[i].Running?
    ensures Written(job, Recorded(job, s, i))
  {
    SumUpdate(s.results, i, Some(Outcome(job, i)), Gain());
  }

  /** Between the write and the release one slot is still booked for a task that is finished. */
  lemma RecordedInv(job: Job, s: State, i: nat)
    requires Inv(job, s) && Enabled(s, Settle(i))
    ensures var t := Recorded(job, s, i);
      t.semaphore == s.semaphore && InOrder(t) && Written(job, t) && FailuresListed(job, t) &&
      Sum(t.phases, Holds()) == t.semaphore.active - 1
  {
    SumUpdate(s.phases, i, Finished, Holds());
    RecordedWritten(job, s, i);
    RecordedFailures(job, s, i);
  }

  lemma FreedInv(job: Job, s: State)
    requires Sound(s.semaphore) && s.semaphore.limit == job.limit
    requires InOrder(s) && Written(job, s) && FailuresListed(job, s)
    requires Sum(s.phases, Holds()) == s.semaphore.active - 1
    ensures Inv(job, Freed(s))
  {
    if s.semaphore.waiting != [] {
      SumUpdate(s.phases, s.granted, Granted, Holds());
    }
  }

  lemma StepInv(job: Job, s: State, e: Event)
    requires Inv(job, s) && Enabled(s, e)
    ensures Inv(job, Step(job, s, e))
  {
    match e
    case Arrive => ArriveInv(job, s);
    case Begin(i) => BeginInv(job, s, i);
    case Settle(i) =>
      RecordedInv(job, s, i);
      FreedInv(job, Recorded(job, s, i));
  }

  // ---- Runs ----

  /** `s` is reached by performing `events`, each of them enabled in its turn. */
  ghost predicate Reaches(job: Job, events: seq<Event>, s: State) {
    if events == [] then s == Start(job)
    else
      exists before :: Reaches(job, events[..|events| - 1], before) && WellFormed(job, before) &&
        Enabled(before, events[|events| - 1]) && s == Step(job, before, events[|events| - 1])
  }

  /** Every state that any interleaving reaches satisfies the invariant. */
  lemma {:induction false} ReachableInv(job: Job, events: seq<Event>, s: State)
    requires job.limit >= 1 && Reaches(job, events, s)
    ensures Inv(job, s)
  {
    if events == [] {
      StartInv(job);
    } else {
      var before :| Reaches(job, events[..|events| - 1], before) && WellFormed(job, before) &&
        Enabled(before, events[|events| - 1]) && s == Step(job, before, events[|events| - 1]);
      ReachableInv(job, events[..|events| - 1], before);
      StepInv(job, before, events[|events| - 1]);
    }
  }

  ghost predicate AllFinished(s: State) {
    forall i :: 0 <= i < |s.phases| ==> s.phases[i].Finished?
  }

  lemma {:induction false} HolderExists(phases: seq<Phase>) returns (i: nat)
    requires Sum(phases, Holds()) > 0
    ensures i < |phases| && (phases[i].Granted? || phases[i].Running?)
  {
    if phases[0].Granted? || phases[0].Running? {
      i := 0;
    } else {
      i := HolderExists(phases[1..]);
      i := i + 1;
    }
  }

  lemma {:induction false} HolderCounts(phases: seq<Phase>, i: nat)
    requires i < |phases| && (phases[i].Granted? || phases[i].Running?)
    ensures Sum(phases, Holds()) > 0
    decreases i
  {
    SumHoldsNonNegative(phases[1..]);
    if i > 0 {
      HolderCounts(phases[1..], i - 1);
    }
  }

  lemma {:induction false} SumHoldsNonNegative(phases: seq<Phase>)
    ensures Sum(phases, Holds()) >= 0
  {
    if phases != [] {
      SumHoldsNonNegative(phases[1..]);
    }
  }

  /** No interleaving gets stuck: until every task has finished, some step is possible. */
  lemma Progress(job: Job, events: seq<Event>, s: State)
    requires job.limit >= 1 && Reaches(job, events, s)
    ensures AllFinished(s) || exists e :: Enabled(s, e)
  {
    ReachableInv(job, events, s);
    if !AllFinished(s) {
      if s.arrived < |s.phases| {
        assert Enabled(s, Arrive);
      } else {
        var k :| 0 <= k < |s.phases| && !s.phases[k].Finished?;
        var i: nat := k;
        if s.phases[k].Waiting? {
          assert s.semaphore.waiting != [];
          i := HolderExists(s.phases);
        }
        HolderCounts(s.phases, i);
        assert Enabled(s, if s.phases[i].Granted? then Begin(i) else Settle(i));
      }
    }
  }

  /** How many steps a phase can still take part in. */
  function StepsLeft(): Phase -> int {
    (p: Phase) => match p case Unstarted => 4 case Waiting => 3 case Granted => 2 case Running => 1 case Finished => 0
  }

  lemma FreedDecreases(s: State)
    requires InOrder(s)
    ensures Sum(Freed(s).phases, StepsLeft()) <= Sum(s.phases, StepsLeft())
  {
    if s.semaphore.waiting != [] {
      assert s.semaphore.waiting[0] == s.granted && s.phases[s.granted].Waiting?;
      SumUpdate(s.phases, s.granted, Granted, StepsLeft());
    }
  }

  lemma StepDecreases(job: Job, s: State, e: Event)
    requires Inv(job, s) && Enabled(s, e)
    ensures Sum(Step(job, s, e).phases, StepsLeft()) < Sum(s.phases, StepsLeft())
  {
    match e
    case Arrive => SumUpdate(s.phases, s.arrived, if Free(s.semaphore) then Granted else Waiting, StepsLeft());
    case Begin(i) => SumUpdate(s.phases, i, Running, StepsLeft());
    case Settle(i) =>
      SumUpdate(s.phases, i, Finished, StepsLeft());
      RecordedInv(job, s, i);
      FreedDecreases(Recorded(job, s, i));
  }

  lemma {:induction false} StepsBounded(phases: seq<Phase>)
    ensures 0 <= Sum(phases, StepsLeft()) <= 4 * |phases|
  {
    if phases != [] {
      StepsBounded(phases[1..]);
    }
  }

  /** Every interleaving is finite: at most four steps per batch. With `Progress`, every maximal one
      finishes all batches. */
  lemma {:induction false} RunsEnd(job: Job, events: seq<Event>, s: State)
    requires job.limit >= 1 && Reaches(job, events, s)
    ensures |events| + Sum(s.phases, StepsLeft()) <= 4 * |job.batches|
    ensures |events| <= 4 * |job.batches|
  {
    StepsBounded(s.phases);
    if events == [] {
      StepsBounded(Start(job).phases);
    } else {
      var last := |events| - 1;
      var before :| Reaches(job, events[..last], before) && WellFormed(job, before) &&
        Enabled(before, events[last]) && s == Step(job, before, events[last]);
      ReachableInv(job, events[..last], before);
      RunsEnd(job, events[..last], before);
      StepDecreases(job, before, events[last]);
    }
  }

  // ---- What is reported ----

  datatype ConcurrentResult = ConcurrentResult(
    success: bool,
    batches: seq<Option<Batch>>,
    totalKeysRestored: int,
    failedBatchCount: nat,
    failedBatchIndices: seq<int>,
    concurrencyUsed: nat)

  function Id(): int -> int { (k: int) => k }

  /** The result assembled once every task has finished. */
  function Report(job: Job, s: State): ConcurrentResult {
    ConcurrentResult(s.failedIndices == [], s.results, s.totalKeysRestored, |s.failedIndices|,
      StableSort(s.failedIndices, Id()), job.limit)
  }

  function Outcomes(job: Job): seq<Option<Batch>> {
    seq(|job.batches|, i requires 0 <= i < |job.batches| => Some(Outcome(job, i)))
  }

  /** The indices below `n` whose submission fails, in increasing order. */
  function Failing(job: Job, n: nat): seq<int>
    requires n <= |job.batches|
  {
    if n == 0 then []
    else if Outcome(job, n - 1).status != Success then Failing(job, n - 1) + [n - 1]
    else Failing(job, n - 1)
  }

  /** 1 for a task below `n` whose submission fails, else 0. */
  function FailsBelow(job: Job, n: nat, k: int): nat
    requires n <= |job.batches|
  {
    if 0 <= k < n && Outcome(job, k).status != Success then 1 else 0
  }

  lemma {:induction false} FailingSorted(job: Job, n: nat)
    requires n <= |job.batches|
    ensures SortedBy(Failing(job, n), Id())
    ensures forall i :: 0 <= i < |Failing(job, n)| ==> Failing(job, n)[i] < n
  {
    if n > 0 {
      FailingSorted(job, n - 1);
    }
  }

  lemma SnocCount(s: seq<int>, x: int, k: int)
    ensures multiset(s + [x])[k] == multiset(s)[k] + if k == x then 1 else 0
  {
  }

  lemma {:induction false} FailingCounts(job: Job, n: nat, k: int)
    requires n <= |job.batches|
    ensures multiset(Failing(job, n))[k] == FailsBelow(job, n, k)
  {
    if n > 0 {
      var front := Failing(job, n - 1);
      FailingCounts(job, n - 1, k);
      SnocCount(front, n - 1, k);
      assert Failing(job, n) == front || Failing(job, n) == front + [n - 1];
    }
  }

  lemma {:induction false} OfInt(s: seq<int>, k: int)
    ensures OfRank(s, Id(), k) == seq(multiset(s)[k], _ => k)
  {
    if s != [] {
      OfInt(s[1..], k);
      assert s == [s[0]] + s[1..];
    }
  }

  /** Two lists of numbers with the same elements sort to the same list. */
  lemma SortedInts(a: seq<int>, b: seq<int>)
    requires multiset(a) == multiset(b) && SortedBy(b, Id())
    ensures StableSort(a, Id()) == b && |a| == |b|
  {
    forall k ensures OfRank(b, Id(), k) == OfRank(a, Id(), k) {
      OfInt(a, k);
      OfInt(b, k);
    }
    StableSortCharacterised(a, b, Id());
    assert |multiset(a)| == |multiset(b)|;
  }

  /** However the steps interleave, the report is the same: every batch's own outcome in its own place,
      the sum of the successful keys, and exactly the failing indices in order. */
  lemma ReportDetermined(job: Job, events: seq<Event>, s: State)
    requires job.limit >= 1 && Reaches(job, events, s) && AllFinished(s)
    ensures var failing := Failing(job, |job.batches|);
      Report(job, s) == ConcurrentResult(failing == [], Outcomes(job), Sum(Outcomes(job), Gain()), |failing|, failing, job.limit)
  {
    var n := |job.batches|;
    ReachableInv(job, events, s);
    ResultsFinal(job, s);
    forall k: int ensures multiset(s.failedIndices)[k] == multiset(Failing(job, n))[k] {
      FailingCounts(job, n, k);
    }
    assert multiset(s.failedIndices) == multiset(Failing(job, n));
    FailingSorted(job, n);
    SortedInts(s.failedIndices, Failing(job, n));
  }

  lemma ResultsFinal(job: Job, s: State)
    requires Written(job, s) && AllFinished(s)
    ensures s.results == Outcomes(job) && s.totalKeysRestored == Sum(Outcomes(job), Gain())
  {
  }

  // ---- The executor as an object ----

  /** `executeRestoreBatchesConcurrent` between two of its awaits: the shared variables, and one method
      for each stretch that runs without interruption. */
  class ConcurrentExecutor {
    const job: Job
    const semaphore: InlineSemaphore
    var phases: seq<Phase>
    var results: seq<Option<Batch>>
    var totalKeysRestored: int
    var failedIndices: seq<int>
    var arrived: nat
    ghost var granted: nat
    ghost var writes: seq<nat>

    ghost predicate Valid()
      reads this, semaphore
    {
      semaphore.Valid() && Inv(job, Abs())
    }

    ghost function Abs(): State
      requires semaphore.Valid()
      reads this, semaphore
    {
      State(phases, semaphore.Abs(), results, totalKeysRestored, failedIndices, arrived, granted, writes)
    }

    constructor (batches: seq<Batch>, concurrency: int, verdict: nat -> Verdict)
      ensures Valid() && fresh(semaphore) && Abs() == Start(job)
      ensures job == Job(batches, if concurrency < 1 then 1 else concurrency, verdict)
    {
      job := Job(batches, if concurrency < 1 then 1 else concurrency, verdict);
      semaphore := new InlineSemaphore(concurrency);
      phases, results := seq(|batches|, _ => Unstarted), seq(|batches|, _ => None);
      totalKeysRestored, failedIndices, arrived, granted := 0, [], 0, 0;
      writes := seq(|batches|, _ => 0);
      new;
      StartInv(job);
    }

    /** The next task runs up to `await acquire()`. */
    method Arrive()
      requires Valid() && arrived < |phases|
      modifies this, semaphore
      ensures Valid() && Abs() == Step(job, old(Abs()), Event.Arrive)
    {
      ArriveInv(job, Abs());
      var i := arrived;
      var immediate := semaphore.Acquire(i);
      phases := phases[i := if immediate then Granted else Waiting];
      arrived := i + 1;
      if immediate {
        granted := granted + 1;
      }
    }

    /** A task that holds a slot goes on to its submission. */
    method Begin(i: nat)
      requires Valid() && i < |phases| && phases[i] == Granted
      modifies this
      ensures Valid() && Abs() == Step(job, old(Abs()), Event.Begin(i))
    {
      BeginInv(job, Abs(), i);
      phases := phases[i := Running];
    }

    /** The result of task `i` is written. */
    method Record(i: nat)
      requires semaphore.Valid() && WellFormed(job, Abs()) && i < |phases|
      modifies this
      ensures semaphore.Valid() && Abs() == Recorded(job, old(Abs()), i)
    {
      var batch := job.batches[i];
      match job.verdict(i) {
        case Confirmed(hash) =>
          results := results[i := Some(batch.(txHash := Some(hash), status := Success))];
          totalKeysRestored := totalKeysRestored + batch.keysRestored;
        case Rejected(message) =>
          results := results[i := Some(batch.(status := Failure, error := Some(message)))];
          failedIndices := failedIndices + [i];
      }
      phases := phases[i := Finished];
      writes := writes[i := writes[i] + 1];
    }

    /** The slot is released, and the woken task, if any, may go on. */
    method Free()
      requires semaphore.Valid()
      modifies this, semaphore
      ensures semaphore.Valid() && Abs() == Freed(old(Abs()))
    {
      var next := semaphore.Release();
      if next.Some? {
        if next.value < |phases| {
          phases := phases[next.value := Granted];
          granted := granted + 1;
        }
      }
    }

    /** A submission has ended: record it, then release the slot, with no await in between. */
    method Settle(i: nat)
      requires Valid() && i < |phases| && phases[i] == Running
      modifies this, semaphore
      ensures Valid() && Abs() == Step(job, old(Abs()), Event.Settle(i))
    {
      StepInv(job, Abs(), Event.Settle(i));
      Record(i);
      Free();
    }
  }
}
