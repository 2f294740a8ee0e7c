/** `withRetry`: retries under an attempt limit and a time budget, with an exact clock. */
module DeadlineRetry {
  import opened Seqs

  /** How an attempt ends, and how long it takes. A retryable failure may carry a `Retry-After`. */
  datatype Ending = Success | Fatal | Retryable(retryAfterMs: Option<nat>)

  datatype Options = Options(maxRetries: int, getDelay: nat -> nat, deadlineMs: Option<int>)

  datatype Script = Script(duration: nat -> nat, ending: nat -> Ending)

  /** One attempt: its number, from 1, and when it started. */
  datatype Attempt = Attempt(number: nat, start: int)

  datatype Trace = Trace(attempts: seq<Attempt>, succeeded: bool)

  function DelayAfter(o: Options, s: Script, attempt: nat): nat
    requires s.ending(attempt).Retryable?
  {
    var after := s.ending(attempt).retryAfterMs;
    if after.Some? then after.value else o.getDelay(attempt)
  }

  /** Whether attempt `a` is followed by another. */
  predicate Retries(o: Options, s: Script, startedAt: int, a: Attempt) {
    s.ending(a.number).Retryable? && a.number <= o.maxRetries &&
    (o.deadlineMs.Some? ==> a.start + s.duration(a.number) - startedAt + DelayAfter(o, s, a.number) <= o.deadlineMs.value)
  }

  function Following(o: Options, s: Script, a: Attempt): Attempt
    requires s.ending(a.number).Retryable?
  {
    Attempt(a.number + 1, a.start + s.duration(a.number) + DelayAfter(o, s, a.number))
  }

  /** The attempts from `a` on. */
  function RunFrom(o: Options, s: Script, startedAt: int, a: Attempt): Trace
    decreases o.maxRetries + 1 - a.number
  {
    if Retries(o, s, startedAt, a) then
      var rest := RunFrom(o, s, startedAt, Following(o, s, a));
      rest.(attempts := [a] + rest.attempts)
    else Trace([a], s.ending(a.number).Success?)
  }

  /** `b` retries `a`: a retryable failure came before, the wait was its `Retry-After` or else the
      policy's, and `b` starts within the attempt limit and the time budget. */
  ghost predicate Follows(o: Options, s: Script, startedAt: int, a: Attempt, b: Attempt) {
    s.ending(a.number).Retryable? && b.number == a.number + 1 <= o.maxRetries + 1 &&
    b.start == a.start + s.duration(a.number) +
      (if s.ending(a.number).retryAfterMs.Some? then s.ending(a.number).retryAfterMs.value else o.getDelay(a.number)) &&
    (o.deadlineMs.Some? ==> b.start <= startedAt + o.deadlineMs.value)
  }

  /** No attempt may come after `a`: it did not fail retryably, or the attempts are used up, or the wait, its `Retry-After`
      or else the policy's, would end past the time budget. */
  ghost predicate Last(o: Options, s: Script, startedAt: int, a: Attempt) {
    match s.ending(a.number)
    case Success => true
    case Fatal => true
    case Retryable(after) =>
      var wait := if after.Some? then after.value else o.getDelay(a.number);
      a.number > o.maxRetries ||
      (o.deadlineMs.Some? && a.start + s.duration(a.number) + wait > startedAt + o.deadlineMs.value)
  }

  /** Every retry follows its predecessor within limit and budget; the run stops exactly at the first attempt after which
      none may come; and it succeeds exactly when its last attempt does. */
  lemma {:induction false} RunFacts(o: Options, s: Script, startedAt: int, a: Attempt)
    ensures var t := RunFrom(o, s, startedAt, a);
      t.attempts != [] && t.attempts[0] == a &&
      (forall i :: 0 <= i < |t.attempts| - 1 ==> Follows(o, s, startedAt, t.attempts[i], t.attempts[i + 1])) &&
      (forall i :: 0 <= i < |t.attempts| ==> (Last(o, s, startedAt, t.attempts[i]) <==> i == |t.attempts| - 1)) &&
      (t.succeeded <==> s.ending(t.attempts[|t.attempts| - 1].number).Success?)
    ensures forall i :: 0 <= i < |RunFrom(o, s, startedAt, a).attempts| ==>
      RunFrom(o, s, startedAt, a).attempts[i].number == a.number + i
    decreases o.maxRetries + 1 - a.number
  {
    if Retries(o, s, startedAt, a) {
      var rest := RunFrom(o, s, startedAt, Following(o, s, a)).attempts;
      RunFacts(o, s, startedAt, Following(o, s, a));
      var all := [a] + rest;
      forall i | 0 <= i < |all| - 1 ensures Follows(o, s, startedAt, all[i], all[i + 1]) {
        assert all[i + 1] == rest[i] && (i > 0 ==> all[i] == rest[i - 1]);
      }
      assert forall i :: 0 < i < |all| ==> all[i] == rest[i - 1];
    }
  }

  lemma TurnTaken(o: Options, s: Script, startedAt: int, before: seq<Attempt>, a: Attempt)
    ensures var t := RunFrom(o, s, startedAt, a);
      if Retries(o, s, startedAt, a) then
        var rest := RunFrom(o, s, startedAt, Following(o, s, a));
        rest.succeeded == t.succeeded && before + t.attempts == (before + [a]) + rest.attempts
      else before + t.attempts == before + [a]
  {
    if Retries(o, s, startedAt, a) {
      ConcatAssoc(before, [a], RunFrom(o, s, startedAt, Following(o, s, a)).attempts);
    }
  }

  /** The loop as written, reading the clock and sleeping. */
  method WithRetry(o: Options, s: Script, startedAt: int) returns (t: Trace)
    ensures t == RunFrom(o, s, startedAt, Attempt(1, startedAt))
  {
    var now := startedAt;
    var attempt := 1;
    var attempts := [];
    ghost var whole := RunFrom(o, s, startedAt, Attempt(1, startedAt));
    assert [] + whole.attempts == whole.attempts;
    while true
      invariant attempt >= 1
      invariant var rest := RunFrom(o, s, startedAt, Attempt(attempt, now));
        whole.succeeded == rest.succeeded && whole.attempts == attempts + rest.attempts
      decreases o.maxRetries + 1 - attempt
    {
      ghost var a := Attempt(attempt, now);
      TurnTaken(o, s, startedAt, attempts, a);
      attempts := attempts + [Attempt(attempt, now)];
      now := now + s.duration(attempt);
      var ending := s.ending(attempt);
      if ending.Success? {
        return Trace(attempts, true);
      }
      if ending.Fatal? || attempt > o.maxRetries {
        return Trace(attempts, false);
      }
      var delayMs := if ending.retryAfterMs.Some? then ending.retryAfterMs.value else o.getDelay(attempt);
      if o.deadlineMs.Some? && now - startedAt + delayMs > o.deadlineMs.value {
        return Trace(attempts, false);
      }
      assert Retries(o, s, startedAt, a);
      now := now + delayMs;
      attempt := attempt + 1;
      assert Attempt(attempt, now) == Following(o, s, a);
    }
  }

  /** So at most `maxRetries + 1` attempts are made, and none after the first starts past the budget. */
  lemma WithinLimits(o: Options, s: Script, startedAt: int, i: nat)
    requires i < |RunFrom(o, s, startedAt, Attempt(1, startedAt)).attempts| && i > 0
    ensures |RunFrom(o, s, startedAt, Attempt(1, startedAt)).attempts| <= o.maxRetries + 1
    ensures o.deadlineMs.Some? ==>
      RunFrom(o, s, startedAt, Attempt(1, startedAt)).attempts[i].start <= startedAt + o.deadlineMs.value
  {
    var attempts := RunFrom(o, s, startedAt, Attempt(1, startedAt)).attempts;
    RunFacts(o, s, startedAt, Attempt(1, startedAt));
    assert Follows(o, s, startedAt, attempts[i - 1], attempts[i]);
    assert Follows(o, s, startedAt, attempts[|attempts| - 2], attempts[|attempts| - 1]);
  }
}
