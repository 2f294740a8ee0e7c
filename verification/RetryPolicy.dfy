/** Retry policies, the circuit breaker, and the retry loop that consults them. */
module RetryPolicy {
  import opened Seqs

  datatype Config = Config(maxRetries: int, failureThreshold: int, openCircuitTimeoutMs: int)

  datatype Breaker = Breaker(consecutiveFailures: int, circuitOpenAt: Option<int>, halfOpenProbeInFlight: bool)

  /** One consultation: the clock, whether the error is retryable, and the attempt number. */
  datatype Ask = Ask(now: int, retryable: bool, attempt: int)

  const CLOSED := Breaker(0, None, false)

  /** An open circuit that refuses: still timing out, or already probing. */
  predicate Refuses(b: Breaker, config: Config, now: int) {
    b.circuitOpenAt.Some? && (now - b.circuitOpenAt.value <= config.openCircuitTimeoutMs || b.halfOpenProbeInFlight)
  }

  /** The state after `shouldRetry`, and its answer. */
  function ShouldRetry(b: Breaker, config: Config, a: Ask): (Breaker, bool) {
    if Refuses(b, config, a.now) then (b, false)
    else
      var admitted := if b.circuitOpenAt.Some? then b.(halfOpenProbeInFlight := true, consecutiveFailures := 0) else b;
      var failures := admitted.consecutiveFailures + 1;
      if failures >= config.failureThreshold
      then (Breaker(failures, Some(a.now), false), false)
      else (admitted.(consecutiveFailures := failures), a.attempt <= config.maxRetries && a.retryable)
  }

  /** The answer is true exactly for a retryable error within the attempt limit, when the circuit is closed and this failure
      does not open it, or when it has been open for longer than its timeout, no probe is under way and the threshold
      is more than one. So an error that is not retryable is never answered true. */
  lemma AnswerIff(b: Breaker, config: Config, a: Ask)
    ensures ShouldRetry(b, config, a).1 <==>
      a.retryable && a.attempt <= config.maxRetries &&
      match b.circuitOpenAt
      case None => b.consecutiveFailures + 1 < config.failureThreshold
      case Some(since) => a.now > since + config.openCircuitTimeoutMs && !b.halfOpenProbeInFlight && config.failureThreshold > 1
  {
  }

  function After(b: Breaker, config: Config, asks: seq<Ask>): Breaker {
    if asks == [] then b else ShouldRetry(After(b, config, asks[..|asks| - 1]), config, asks[|asks| - 1]).0
  }

  /** How many of the consultations are answered true. */
  function Trues(b: Breaker, config: Config, asks: seq<Ask>): nat {
    if asks == [] then 0
    else
      Trues(b, config, asks[..|asks| - 1]) +
      if ShouldRetry(After(b, config, asks[..|asks| - 1]), config, asks[|asks| - 1]).1 then 1 else 0
  }

  /** The true answers a breaker can still give before a reset. */
  function Budget(b: Breaker, config: Config): int {
    if config.failureThreshold <= 1 then 0
    else if b.circuitOpenAt.None? then config.failureThreshold - b.consecutiveFailures
    else if b.halfOpenProbeInFlight then 0
    else 1
  }

  ghost predicate Reachable(b: Breaker, config: Config) {
    b.circuitOpenAt.None? ==> b.consecutiveFailures == 0 || 0 < b.consecutiveFailures < config.failureThreshold
  }

  lemma AskSpendsBudget(b: Breaker, config: Config, a: Ask)
    requires Reachable(b, config)
    ensures var (b', answer) := ShouldRetry(b, config, a);
      Reachable(b', config) && 0 <= Budget(b', config) && Budget(b', config) + (if answer then 1 else 0) <= Budget(b, config)
  {
  }

  lemma {:induction false} AsksSpendBudget(b: Breaker, config: Config, asks: seq<Ask>)
    requires Reachable(b, config)
    ensures Reachable(After(b, config, asks), config)
    ensures Trues(b, config, asks) + Budget(After(b, config, asks), config) <= Budget(b, config)
  {
    if asks != [] {
      AsksSpendBudget(b, config, asks[..|asks| - 1]);
      AskSpendsBudget(After(b, config, asks[..|asks| - 1]), config, asks[|asks| - 1]);
    }
  }

  /** Between resets, under any clock and any errors, `shouldRetry` answers true at most
      `failureThreshold` times, and never when the threshold is one or less. */
  lemma TruesBounded(config: Config, asks: seq<Ask>)
    ensures Trues(CLOSED, config, asks) <= if config.failureThreshold <= 1 then 0 else config.failureThreshold
  {
    AsksSpendBudget(CLOSED, config, asks);
    if asks != [] {
      AsksSpendBudget(CLOSED, config, asks[..|asks| - 1]);
      AskSpendsBudget(After(CLOSED, config, asks[..|asks| - 1]), config, asks[|asks| - 1]);
    }
  }

  /** From a reset breaker, the circuit stays closed for fewer consultations than the threshold, and the one that reaches it
      opens the circuit at its own time. */
  lemma {:induction false} Opens(config: Config, asks: seq<Ask>)
    requires |asks| <= if config.failureThreshold <= 1 then 1 else config.failureThreshold
    ensures After(CLOSED, config, asks) ==
      Breaker(|asks|, if asks != [] && |asks| >= config.failureThreshold then Some(asks[|asks| - 1].now) else None, false)
  {
    if asks != [] {
      Opens(config, asks[..|asks| - 1]);
    }
  }

  /** An open circuit answers false and stays as it is until its timeout is over. */
  lemma {:induction false} StaysOpen(b: Breaker, config: Config, asks: seq<Ask>)
    requires b.circuitOpenAt.Some?
    requires forall i :: 0 <= i < |asks| ==> asks[i].now <= b.circuitOpenAt.value + config.openCircuitTimeoutMs
    ensures After(b, config, asks) == b && Trues(b, config, asks) == 0
  {
    if asks != [] {
      StaysOpen(b, config, asks[..|asks| - 1]);
    }
  }

  /** The first consultation after that lets one probe through, which keeps the time of the opening and latches; with a
      threshold of one or less it opens the circuit anew instead. */
  lemma HalfOpens(b: Breaker, config: Config, a: Ask, later: seq<Ask>)
    requires b.circuitOpenAt.Some? && !b.halfOpenProbeInFlight && a.now > b.circuitOpenAt.value + config.openCircuitTimeoutMs
    ensures var after := ShouldRetry(b, config, a).0;
      if config.failureThreshold <= 1 then after == Breaker(1, Some(a.now), false)
      else after == Breaker(1, b.circuitOpenAt, true) && After(after, config, later) == after && Trues(after, config, later) == 0
  {
    var after := ShouldRetry(b, config, a).0;
    if config.failureThreshold > 1 {
      ProbeLatches(after, config, later);
    }
  }

  /** Once a probe has been let through, the answer stays false until a reset. */
  lemma {:induction false} ProbeLatches(b: Breaker, config: Config, asks: seq<Ask>)
    requires b.circuitOpenAt.Some? && b.halfOpenProbeInFlight
    ensures After(b, config, asks) == b && Trues(b, config, asks) == 0
  {
    if asks != [] {
      ProbeLatches(b, config, asks[..|asks| - 1]);
    }
  }

  /** `n` consultations for a first retryable failure at time 0. */
  function RepeatedAsks(n: nat): seq<Ask> { if n == 0 then [] else RepeatedAsks(n - 1) + [Ask(0, true, 1)] }

  lemma {:induction false} ClosedPhase(config: Config, n: nat)
    requires n < config.failureThreshold && config.maxRetries >= 1
    ensures After(CLOSED, config, RepeatedAsks(n)) == Breaker(n, None, false)
    ensures Trues(CLOSED, config, RepeatedAsks(n)) == n
  {
    if n > 0 {
      assert RepeatedAsks(n)[..|RepeatedAsks(n)| - 1] == RepeatedAsks(n - 1);
      ClosedPhase(config, n - 1);
    }
  }

  /** The bound is reached: one true answer short of the threshold while closed, and one for the probe. */
  lemma BoundReached(config: Config)
    requires config.failureThreshold >= 2 && config.maxRetries >= 1 && config.openCircuitTimeoutMs >= 0
    ensures exists asks :: Trues(CLOSED, config, asks) == config.failureThreshold
  {
    var closed := RepeatedAsks(config.failureThreshold - 1);
    ClosedPhase(config, config.failureThreshold - 1);
    var opening := closed + [Ask(0, true, 1)];
    assert opening[..|opening| - 1] == closed;
    var probing := opening + [Ask(config.openCircuitTimeoutMs + 1, true, 1)];
    assert probing[..|probing| - 1] == opening;
    assert Trues(CLOSED, config, probing) == config.failureThreshold;
  }

  // ---- The retry loop ----

  /** Outcomes of the operation's calls, and the clock at each consultation, by attempt. */
  datatype Script = Script(fails: nat -> bool, retryable: nat -> bool, clock: nat -> int)

  datatype Verdict = Returned | Threw | Exhausted

  datatype LoopResult = LoopResult(verdict: Verdict, calls: nat, trues: nat, breaker: Breaker)

  /** The loop from `attempt` on. A success resets the breaker. `Exhausted` is the throw after the loop. */
  function LoopFrom(attempt: nat, config: Config, b: Breaker, script: Script): LoopResult
    decreases config.maxRetries + 1 - attempt
  {
    if attempt > config.maxRetries + 1 then LoopResult(Exhausted, 0, 0, b)
    else if !script.fails(attempt) then LoopResult(Returned, 1, 0, CLOSED)
    else if attempt > config.maxRetries then LoopResult(Threw, 1, 0, b)
    else
      var (b', again) := ShouldRetry(b, config, Ask(script.clock(attempt), script.retryable(attempt), attempt));
      if !again then LoopResult(Threw, 1, 0, b')
      else
        var rest := LoopFrom(attempt + 1, config, b', script);
        rest.(calls := rest.calls + 1, trues := rest.trues + 1)
  }

  function Loop(config: Config, b: Breaker, script: Script): LoopResult { LoopFrom(1, config, b, script) }

  /** The operation is called once more than the breaker answered true, at most `maxRetries + 1` times,
      and the throw after the loop is reached exactly when `maxRetries` is negative. */
  lemma {:induction false} LoopFacts(attempt: nat, config: Config, b: Breaker, script: Script)
    requires 1 <= attempt && (attempt == 1 || attempt <= config.maxRetries + 1)
    ensures var r := LoopFrom(attempt, config, b, script);
      (r.verdict.Exhausted? <==> config.maxRetries < 0) &&
      (config.maxRetries < 0 ==> r.calls == 0) &&
      (config.maxRetries >= 0 ==> r.calls == 1 + r.trues && r.calls <= config.maxRetries + 2 - attempt)
    decreases config.maxRetries + 1 - attempt
  {
    if attempt <= config.maxRetries {
      var (b', again) := ShouldRetry(b, config, Ask(script.clock(attempt), script.retryable(attempt), attempt));
      LoopFacts(attempt + 1, config, b', script);
    }
  }

  /** Every call but the last failed with a retryable error; the last one succeeded exactly when the loop returned,
      which leaves the breaker reset. */
  lemma {:induction false} LoopCauses(attempt: nat, config: Config, b: Breaker, script: Script)
    ensures var r := LoopFrom(attempt, config, b, script);
      (forall k :: attempt <= k < attempt + r.calls - 1 ==> script.fails(k) && script.retryable(k)) &&
      (r.verdict.Returned? <==> r.calls > 0 && !script.fails(attempt + r.calls - 1)) &&
      (r.verdict.Returned? ==> r.breaker == CLOSED)
    decreases config.maxRetries + 1 - attempt
  {
    if attempt <= config.maxRetries {
      var a := Ask(script.clock(attempt), script.retryable(attempt), attempt);
      AnswerIff(b, config, a);
      LoopCauses(attempt + 1, config, ShouldRetry(b, config, a).0, script);
    }
  }

  /** A loop that does not succeed pays for its retries from the breaker's budget. */
  lemma {:induction false} LoopSpendsBudget(attempt: nat, config: Config, b: Breaker, script: Script)
    requires Reachable(b, config) && 0 <= Budget(b, config)
    ensures var r := LoopFrom(attempt, config, b, script);
      Reachable(r.breaker, config) && 0 <= Budget(r.breaker, config) &&
      (!r.verdict.Returned? ==> r.trues + Budget(r.breaker, config) <= Budget(b, config))
    decreases config.maxRetries + 1 - attempt
  {
    if attempt <= config.maxRetries {
      var a := Ask(script.clock(attempt), script.retryable(attempt), attempt);
      AskSpendsBudget(b, config, a);
      LoopSpendsBudget(attempt + 1, config, ShouldRetry(b, config, a).0, script);
    }
  }

  /** Calls made by one operation after another on a shared breaker. */
  function TotalCalls(config: Config, b: Breaker, scripts: seq<Script>): nat
    decreases |scripts|
  {
    if scripts == [] then 0
    else var r := Loop(config, b, scripts[0]); r.calls + TotalCalls(config, r.breaker, scripts[1..])
  }

  ghost predicate NoneSucceeds(config: Config, b: Breaker, scripts: seq<Script>)
    decreases |scripts|
  {
    scripts == [] ||
    var r := Loop(config, b, scripts[0]);
    !r.verdict.Returned? && NoneSucceeds(config, r.breaker, scripts[1..])
  }

  /** While a service is down, any number of operations sharing a breaker together make at most
      `failureThreshold` calls beyond their first ones. */
  lemma {:induction false} OutageBounded(config: Config, b: Breaker, scripts: seq<Script>)
    requires Reachable(b, config) && 0 <= Budget(b, config) && NoneSucceeds(config, b, scripts)
    ensures TotalCalls(config, b, scripts) <= |scripts| + Budget(b, config)
    decreases |scripts|
  {
    if scripts != [] {
      LoopSpendsBudget(1, config, b, scripts[0]);
      LoopFacts(1, config, b, scripts[0]);
      OutageBounded(config, Loop(config, b, scripts[0]).breaker, scripts[1..]);
    }
  }

  // ---- Operations at the same time ----

  /** A consultation on behalf of one of several operations that share a breaker. */
  datatype Turn = Turn(operation: nat, ask: Ask)

  function Asks(turns: seq<Turn>): (asks: seq<Ask>)
    ensures |asks| == |turns|
  {
    if turns == [] then [] else Asks(turns[..|turns| - 1]) + [turns[|turns| - 1].ask]
  }

  /** The calls that `operation` makes while it does not succeed: a first one, and one for each true answer it gets. */
  function CallsOf(b: Breaker, config: Config, turns: seq<Turn>, operation: nat): nat {
    if turns == [] then 1
    else
      var before, turn := turns[..|turns| - 1], turns[|turns| - 1];
      CallsOf(b, config, before, operation) +
      if turn.operation == operation && ShouldRetry(After(b, config, Asks(before)), config, turn.ask).1 then 1 else 0
  }

  function CallsOfAll(b: Breaker, config: Config, turns: seq<Turn>, operations: nat): nat {
    if operations == 0 then 0
    else CallsOfAll(b, config, turns, operations - 1) + CallsOf(b, config, turns, operations - 1)
  }

  lemma {:induction false} CallsAfterTurn(b: Breaker, config: Config, turns: seq<Turn>, operations: nat)
    requires turns != []
    ensures var before, turn := turns[..|turns| - 1], turns[|turns| - 1];
      CallsOfAll(b, config, turns, operations) == CallsOfAll(b, config, before, operations) +
        if turn.operation < operations && ShouldRetry(After(b, config, Asks(before)), config, turn.ask).1 then 1 else 0
  {
    if operations > 0 {
      CallsAfterTurn(b, config, turns, operations - 1);
    }
  }

  lemma {:induction false} CallsAtFirst(b: Breaker, config: Config, operations: nat)
    ensures CallsOfAll(b, config, [], operations) == operations
  {
    if operations > 0 {
      CallsAtFirst(b, config, operations - 1);
    }
  }

  lemma {:induction false} CallsAreTrues(b: Breaker, config: Config, turns: seq<Turn>, operations: nat)
    requires forall t :: t in turns ==> t.operation < operations
    ensures CallsOfAll(b, config, turns, operations) == operations + Trues(b, config, Asks(turns))
  {
    if turns == [] {
      CallsAtFirst(b, config, operations);
    } else {
      var before := turns[..|turns| - 1];
      CallsAreTrues(b, config, before, operations);
      CallsAfterTurn(b, config, turns, operations);
      assert Asks(turns)[..|Asks(turns)| - 1] == Asks(before);
    }
  }

  /** However the consultations of operations that share a breaker interleave, as long as none of them succeeds
      they together make at most the breaker's budget of calls beyond their first ones. */
  lemma InterleavedOutageBounded(b: Breaker, config: Config, turns: seq<Turn>, operations: nat)
    requires Reachable(b, config) && 0 <= Budget(b, config)
    requires forall t :: t in turns ==> t.operation < operations
    ensures CallsOfAll(b, config, turns, operations) <= operations + Budget(b, config)
  {
    CallsAreTrues(b, config, turns, operations);
    AsksSpendBudget(b, config, Asks(turns));
    BudgetNotNegative(b, config, Asks(turns));
  }

  lemma {:induction false} BudgetNotNegative(b: Breaker, config: Config, asks: seq<Ask>)
    requires Reachable(b, config) && 0 <= Budget(b, config)
    ensures 0 <= Budget(After(b, config, asks), config)
  {
    if asks != [] {
      var before := asks[..|asks| - 1];
      AsksSpendBudget(b, config, before);
      AskSpendsBudget(After(b, config, before), config, asks[|asks| - 1]);
    }
  }

  class CircuitBreaker {
    const config: Config
    var consecutiveFailures: int
    var circuitOpenAt: Option<int>
    var halfOpenProbeInFlight: bool

    ghost function Abs(): Breaker reads this { Breaker(consecutiveFailures, circuitOpenAt, halfOpenProbeInFlight) }

    constructor (config: Config)
      ensures this.config == config && Abs() == CLOSED
    {
      this.config := config;
      consecutiveFailures, circuitOpenAt, halfOpenProbeInFlight := 0, None, false;
    }

    method Decide(a: Ask) returns (answer: bool)
      modifies this
      ensures (Abs(), answer) == ShouldRetry(old(Abs()), config, a)
    {
      if circuitOpenAt.Some? {
        var timeSinceOpen := a.now - circuitOpenAt.value;
        if timeSinceOpen > config.openCircuitTimeoutMs {
          if halfOpenProbeInFlight {
            return false;
          }
          halfOpenProbeInFlight := true;
          consecutiveFailures := 0;
        } else {
          return false;
        }
      }
      consecutiveFailures := consecutiveFailures + 1;
      if consecutiveFailures >= config.failureThreshold {
        circuitOpenAt := Some(a.now);
        halfOpenProbeInFlight := false;
        return false;
      }
      return a.attempt <= config.maxRetries && a.retryable;
    }

    method Reset()
      modifies this
      ensures Abs() == CLOSED
    {
      consecutiveFailures, circuitOpenAt, halfOpenProbeInFlight := 0, None, false;
    }

    /** `retryLoop` with this breaker as the policy. */
    method RetryLoop(script: Script) returns (verdict: Verdict, calls: nat, trues: nat)
      modifies this
      ensures LoopResult(verdict, calls, trues, Abs()) == Loop(config, old(Abs()), script)
    {
      calls, trues := 0, 0;
      var attempt := 1;
      while attempt <= config.maxRetries + 1
        invariant attempt >= 1
        invariant var rest := LoopFrom(attempt, config, Abs(), script);
          Loop(config, old(Abs()), script) == rest.(calls := rest.calls + calls, trues := rest.trues + trues)
        decreases config.maxRetries + 1 - attempt
      {
        calls := calls + 1;
        if !script.fails(attempt) {
          Reset();
          return Returned, calls, trues;
        }
        if attempt > config.maxRetries {
          return Threw, calls, trues;
        }
        var again := Decide(Ask(script.clock(attempt), script.retryable(attempt), attempt));
        if !again {
          return Threw, calls, trues;
        }
        trues := trues + 1;
        attempt := attempt + 1;
      }
      return Exhausted, calls, trues;
    }
  }
}
