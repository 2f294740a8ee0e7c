/** Coalescing of identical submissions: calls with the same transaction share the one in flight. */
module InFlightSubmissions {
  import opened Seqs
  import opened InsertionMap

  datatype Outcome = Confirmed(hash: string) | Failed(message: string)

  /** A signing and sending of `xdr`; no outcome while it is in flight. */
  datatype Submission = Submission(xdr: string, outcome: Option<Outcome>)

  /** A call, and the submission whose promise it returned. */
  datatype Call = Call(xdr: string, submission: nat)

  /** `inFlight` maps a transaction to the number of its submission. */
  datatype State = State(inFlight: seq<Binding<string, nat>>, submissions: seq<Submission>, calls: seq<Call>)

  datatype Event = Submit(xdr: string) | Settle(submission: nat, outcome: Outcome)

  const INITIAL: State := State([], [], [])

  /** The map after a call, and the submission it returns; `next` numbers a new one. */
  function Joined(m: seq<Binding<string, nat>>, xdr: string, next: nat): (seq<Binding<string, nat>>, nat) {
    var existing := Lookup(m, xdr);
    if existing.Some? then (m, existing.value) else (Put(m, xdr, next), next)
  }

  /** An event that cannot happen changes nothing. A submission leaves the map just before it settles. */
  function Step(s: State, e: Event): State {
    match e
    case Submit(xdr) =>
      var (m, n) := Joined(s.inFlight, xdr, |s.submissions|);
      State(
        m,
        if Lookup(s.inFlight, xdr).Some? then s.submissions else s.submissions + [Submission(xdr, None)],
        s.calls + [Call(xdr, n)])
    case Settle(n, outcome) =>
      if n < |s.submissions| && s.submissions[n].outcome.None? then
        var settled := s.submissions[n].(outcome := Some(outcome));
        s.(inFlight := Delete(s.inFlight, settled.xdr), submissions := s.submissions[n := settled])
      else s
  }

  function Run(events: seq<Event>): State {
    if events == [] then INITIAL else Step(Run(events[..|events| - 1]), events[|events| - 1])
  }

  predicate Open(submissions: seq<Submission>, xdr: string, n: nat) {
    n < |submissions| && submissions[n].xdr == xdr && submissions[n].outcome.None?
  }

  /** The map holds exactly the submissions in flight. */
  ghost predicate TracksOpen(m: seq<Binding<string, nat>>, submissions: seq<Submission>) {
    DistinctKeys(m) && forall xdr, n: nat :: Lookup(m, xdr) == Some(n) <==> Open(submissions, xdr, n)
  }

  ghost predicate Inv(s: State) {
    TracksOpen(s.inFlight, s.submissions) &&
    forall c :: c in s.calls ==> c.submission < |s.submissions| && s.submissions[c.submission].xdr == c.xdr
  }

  lemma SubmitTracks(s: State, xdr: string, x: string, n: nat)
    requires Inv(s)
    ensures var t := Step(s, Submit(xdr)); Lookup(t.inFlight, x) == Some(n) <==> Open(t.submissions, x, n)
  {
    var t := Step(s, Submit(xdr));
    PutThenLookup(s.inFlight, xdr, |s.submissions|, x);
    assert Lookup(s.inFlight, x) == Some(n) <==> Open(s.submissions, x, n);
    assert n < |s.submissions| ==> t.submissions[n] == s.submissions[n];
  }

  lemma SettleTracks(s: State, n: nat, outcome: Outcome, x: string, k: nat)
    requires Inv(s) && n < |s.submissions| && s.submissions[n].outcome.None?
    ensures var t := Step(s, Settle(n, outcome)); Lookup(t.inFlight, x) == Some(k) <==> Open(t.submissions, x, k)
  {
    var xdr := s.submissions[n].xdr;
    DeleteThenLookup(s.inFlight, xdr, x);
    assert Lookup(s.inFlight, x) == Some(k) <==> Open(s.submissions, x, k);
    assert Open(s.submissions, xdr, n) && Lookup(s.inFlight, xdr) == Some(n);
  }

  lemma StepKeepsInv(s: State, e: Event)
    requires Inv(s)
    ensures Inv(Step(s, e))
  {
    var t := Step(s, e);
    match e
    case Submit(xdr) =>
      forall x, n: nat ensures Lookup(t.inFlight, x) == Some(n) <==> Open(t.submissions, x, n) {
        SubmitTracks(s, xdr, x, n);
      }
      PutThenLookup(s.inFlight, xdr, |s.submissions|, xdr);
      if Lookup(s.inFlight, xdr).Some? {
        assert Open(s.submissions, xdr, Lookup(s.inFlight, xdr).value);
      }
    case Settle(n, outcome) =>
      if t != s {
        forall x, k: nat ensures Lookup(t.inFlight, x) == Some(k) <==> Open(t.submissions, x, k) {
          SettleTracks(s, n, outcome, x, k);
        }
        DeleteThenLookup(s.inFlight, s.submissions[n].xdr, "");
      }
  }

  lemma {:induction false} ReachableInv(events: seq<Event>)
    ensures Inv(Run(events))
  {
    if events != [] {
      ReachableInv(events[..|events| - 1]);
      StepKeepsInv(Run(events[..|events| - 1]), events[|events| - 1]);
    }
  }

  /** However calls and settlements interleave, one transaction is never in flight twice, and nothing stays
      registered once everything has settled. */
  lemma OneInFlight(events: seq<Event>, xdr: string, i: nat, j: nat)
    ensures var s := Run(events);
      (Open(s.submissions, xdr, i) && Open(s.submissions, xdr, j) ==> i == j) &&
      (s.inFlight == [] <==> forall n :: 0 <= n < |s.submissions| ==> s.submissions[n].outcome.Some?)
  {
    var s := Run(events);
    ReachableInv(events);
    assert Lookup(s.inFlight, xdr) == Some(i) <==> Open(s.submissions, xdr, i);
    assert Lookup(s.inFlight, xdr) == Some(j) <==> Open(s.submissions, xdr, j);
    if s.inFlight == [] {
      forall n | 0 <= n < |s.submissions| ensures s.submissions[n].outcome.Some? {
        assert Lookup(s.inFlight, s.submissions[n].xdr) == Some(n) <==> Open(s.submissions, s.submissions[n].xdr, n);
      }
    } else {
      var b := s.inFlight[0];
      LookupIff(s.inFlight, b.key, b.value);
      assert Open(s.submissions, b.key, b.value);
    }
  }

  /** A call shares the submission of its transaction that is in flight, and starts one exactly when there
      is none: after a settlement, successful or not, the next call submits afresh. */
  lemma CallShares(events: seq<Event>, xdr: string)
    ensures var s, t := Run(events), Run(events + [Submit(xdr)]);
      |t.calls| == |s.calls| + 1 && t.calls[|s.calls|].xdr == xdr &&
      Open(t.submissions, xdr, t.calls[|s.calls|].submission)
    ensures var s, t := Run(events), Run(events + [Submit(xdr)]);
      if exists k: nat :: Open(s.submissions, xdr, k) then t.submissions == s.submissions
      else t.submissions == s.submissions + [Submission(xdr, None)]
  {
    var s := Run(events);
    ReachableInv(events);
    assert (events + [Submit(xdr)])[..|events|] == events;
    if k: nat :| Open(s.submissions, xdr, k) {
      assert Lookup(s.inFlight, xdr) == Some(k);
    }
    if Lookup(s.inFlight, xdr).Some? {
      assert Open(s.submissions, xdr, Lookup(s.inFlight, xdr).value);
    }
  }

  ghost predicate Extends(s: State, t: State) {
    s.calls <= t.calls && |s.submissions| <= |t.submissions| &&
    (forall n :: 0 <= n < |s.submissions| ==> t.submissions[n].xdr == s.submissions[n].xdr) &&
    (forall n :: 0 <= n < |s.submissions| && s.submissions[n].outcome.Some? ==> t.submissions[n] == s.submissions[n])
  }

  /** A call keeps the submission it was given, and that submission's outcome, once known, is final. */
  lemma {:induction false} OutcomesFinal(events: seq<Event>, later: seq<Event>)
    ensures Extends(Run(events), Run(events + later))
  {
    if later == [] {
      assert events + later == events;
    } else {
      var before := later[..|later| - 1];
      OutcomesFinal(events, before);
      assert (events + later)[..|events + later| - 1] == events + before;
    }
  }

  /** The client's map of submissions in flight. */
  class Submitter {
    var inFlightSubmissions: seq<Binding<string, nat>>

    constructor ()
      ensures inFlightSubmissions == []
    {
      inFlightSubmissions := [];
    }

    /** `next` identifies the promise of a submission if one is started. */
    method SubmitSignedTransaction(xdr: string, next: nat) returns (submission: nat)
      modifies this
      ensures (inFlightSubmissions, submission) == Joined(old(inFlightSubmissions), xdr, next)
    {
      var existing := Lookup(inFlightSubmissions, xdr);
      if existing.Some? {
        return existing.value;
      }
      inFlightSubmissions := Put(inFlightSubmissions, xdr, next);
      return next;
    }

    /** Runs when a submission of `xdr` ends, either way, before its promise settles. */
    method Finally(xdr: string)
      modifies this
      ensures inFlightSubmissions == Delete(old(inFlightSubmissions), xdr)
    {
      inFlightSubmissions := Delete(inFlightSubmissions, xdr);
    }
  }
}
