/** Which endpoint answers, said on the endpoints' own histories and on positions. */
module FailoverChoice {
  import opened Seqs
  import opened RpcFailover

  /** The endpoint at position `i` is up by its own history. */
  predicate Up(urls: seq<string>, config: Config, events: seq<Event>, i: int) {
    0 <= i < |urls| && Healthy(History(urls, events, i), config)
  }

  /** The current position after `events`. */
  function Position(urls: seq<string>, config: Config, events: seq<Event>): (p: nat)
    requires urls != []
    ensures p < |urls|
  {
    Run(urls, config, events).currentIndex
  }

  /** The failures counted against an endpoint: those since it last succeeded or went down. */
  function Counted(h: seq<bool>, config: Config): nat {
    if h == [] || h[|h| - 1] then 0
    else if Healthy(h[..|h| - 1], config) && !Healthy(h, config) then 0
    else 1 + Counted(h[..|h| - 1], config)
  }

  /** The successes counted for it: those since it last failed or came back. */
  function CountedSuccesses(h: seq<bool>, config: Config): nat {
    if h == [] || !h[|h| - 1] then 0
    else if !Healthy(h[..|h| - 1], config) && Healthy(h, config) then 0
    else 1 + CountedSuccesses(h[..|h| - 1], config)
  }

  /** An endpoint's health and counts are those of a history. */
  ghost predicate Shows(ep: Endpoint, h: seq<bool>, config: Config) {
    Reflects(ep, h, config) && ep.consecutiveFailures == Counted(h, config) && ep.consecutiveSuccesses == CountedSuccesses(h, config)
  }

  // ---- The endpoint chosen when the current one will not do ----

  /** `q` is the first endpoint that is up after position `p`, in cyclic order and with `p` itself last. */
  ghost predicate NextUp(urls: seq<string>, config: Config, events: seq<Event>, p: nat, q: nat)
    requires p < |urls|
  {
    exists o :: 1 <= o <= |urls| && q == Place(p, o, |urls|) && Up(urls, config, events, q) &&
      forall j :: 1 <= j < o ==> !Up(urls, config, events, Place(p, j, |urls|))
  }

  /** `q` is the first endpoint with the fewest failures counted. */
  ghost predicate FewestFailures(urls: seq<string>, config: Config, events: seq<Event>, q: nat) {
    q < |urls| &&
    forall j :: 0 <= j < |urls| ==>
      var mine, other := Counted(History(urls, events, q), config), Counted(History(urls, events, j), config);
      mine <= other && (j < q ==> mine < other)
  }

  /** Where a move from `p` goes: to the next endpoint that is up, or, when none is, to the one with the fewest
      failures. */
  ghost predicate MovesTo(urls: seq<string>, config: Config, events: seq<Event>, p: nat, q: nat)
    requires p < |urls|
  {
    if exists i :: Up(urls, config, events, i) then NextUp(urls, config, events, p, q)
    else FewestFailures(urls, config, events, q)
  }

  lemma {:induction false} ShowsStep(ep: Endpoint, h: seq<bool>, config: Config, e: Event)
    requires Shows(ep, h, config) && !e.Current?
    ensures Shows(if e.Success? then OnSuccess(ep, config, e.now) else OnFailure(ep, config, e.now), h + [e.Success?], config)
  {
    var h' := h + [e.Success?];
    assert h'[..|h|] == h && h'[|h|] == e.Success?;
    ReflectsStep(ep, h, config, e);
  }

  lemma {:induction false} EndpointShows(urls: seq<string>, config: Config, events: seq<Event>, i: nat)
    requires i < |urls|
    ensures Shows(Run(urls, config, events).endpoints[i], History(urls, events, i), config)
  {
    if events != [] {
      var before, e := events[..|events| - 1], events[|events| - 1];
      EndpointShows(urls, config, before, i);
      var s := Run(urls, config, before);
      StepAt(s, config, e, i);
      if !e.Current? {
        SameFirst(s.endpoints, urls, e.url, 0);
        ShowsStep(s.endpoints[i], History(urls, before, i), config, e);
      }
    }
  }

  /** After any events, each endpoint's health and counts are those of its own history. */
  lemma {:induction false} EndpointAt(urls: seq<string>, config: Config, events: seq<Event>, i: nat)
    requires i < |urls|
    ensures var ep, h := Run(urls, config, events).endpoints[i], History(urls, events, i);
      ep.isHealthy == Up(urls, config, events, i) &&
      ep.consecutiveFailures == Counted(h, config) && ep.consecutiveSuccesses == CountedSuccesses(h, config)
  {
    EndpointShows(urls, config, events, i);
  }

  /** The health and counts of `endpoints` are those of the histories. */
  ghost predicate Mirrors(endpoints: seq<Endpoint>, urls: seq<string>, config: Config, events: seq<Event>) {
    |endpoints| == |urls| &&
    forall i :: 0 <= i < |urls| ==>
      endpoints[i].url == urls[i] && endpoints[i].isHealthy == Up(urls, config, events, i) &&
      endpoints[i].consecutiveFailures == Counted(History(urls, events, i), config)
  }

  lemma {:induction false} RunMirrors(urls: seq<string>, config: Config, events: seq<Event>)
    requires urls != []
    ensures Mirrors(Run(urls, config, events).endpoints, urls, config, events)
  {
    forall i | 0 <= i < |urls| ensures
        Run(urls, config, events).endpoints[i].isHealthy == Up(urls, config, events, i) &&
        Run(urls, config, events).endpoints[i].consecutiveFailures == Counted(History(urls, events, i), config) {
      EndpointAt(urls, config, events, i);
    }
  }

  lemma {:induction false} NextHealthyFirst(endpoints: seq<Endpoint>, current: nat, offset: nat) returns (o: nat)
    requires current < |endpoints| && offset >= 1 && NextHealthy(endpoints, current, offset).Some?
    ensures offset <= o <= |endpoints| && NextHealthy(endpoints, current, offset) == Some(Place(current, o, |endpoints|))
    ensures endpoints[Place(current, o, |endpoints|)].isHealthy
    ensures forall j :: offset <= j < o ==> !endpoints[Place(current, j, |endpoints|)].isHealthy
    decreases |endpoints| + 1 - offset
  {
    o := offset;
    if !endpoints[Place(current, offset, |endpoints|)].isHealthy {
      o := NextHealthyFirst(endpoints, current, offset + 1);
    }
  }

  lemma {:induction false} PickMoves(endpoints: seq<Endpoint>, urls: seq<string>, config: Config, events: seq<Event>, p: nat)
    requires Mirrors(endpoints, urls, config, events) && p < |urls|
    ensures MovesTo(urls, config, events, p, Pick(endpoints, p))
  {
    PickFacts(endpoints, p);
    if i :| Up(urls, config, events, i) {
      var n := |urls|;
      assert endpoints[i].isHealthy;
      assert Place(p, if i > p then i - p else i - p + n, n) == i;
      NextHealthyFacts(endpoints, p, 1);
      var o := NextHealthyFirst(endpoints, p, 1);
    } else {
      assert !SomeHealthy(endpoints);
    }
  }

  // ---- Every event, on histories ----

  /** How the position moves on `e`: not at all on a success or on a failure that takes no endpoint down; on from the
      current position when an endpoint goes down, whichever it is; and at a question that a sticky endpoint does not
      answer, on if the current endpoint is down. */
  ghost predicate PositionMoves(urls: seq<string>, config: Config, events: seq<Event>, e: Event, p: nat, q: nat)
    requires p < |urls|
  {
    match e
    case Success(_, _) => q == p
    case Failure(url, _) =>
      var i := FirstUrl(urls, url, 0);
      if Up(urls, config, events, i) && !Up(urls, config, events + [e], i)
      then MovesTo(urls, config, events + [e], p, q) else q == p
    case Current(now) =>
      if StickyAt(urls, config, events, now) || Up(urls, config, events, p) then q == p
      else MovesTo(urls, config, events, p, q)
  }

  /** A sticky endpoint answers at `now`. */
  ghost predicate StickyAt(urls: seq<string>, config: Config, events: seq<Event>, now: int) {
    urls != [] &&
    exists url, since :: StickySince(urls, config, events, url, since) && Holds(urls, config, events, url, since, now)
  }

  lemma {:induction false} StickyIff(urls: seq<string>, config: Config, events: seq<Event>, now: int)
    requires urls != []
    ensures StickyAt(urls, config, events, now) <==> StickyAnswers(Run(urls, config, events), config, now)
  {
    var s := Run(urls, config, events);
    if StickyAnswers(s, config, now) {
      var i := FindFrom(s.endpoints, s.stickyUrl.value, 0);
      SameFirst(s.endpoints, urls, s.stickyUrl.value, 0);
      EndpointAt(urls, config, events, i);
      assert StickySince(urls, config, events, s.stickyUrl.value, s.stickySince.value);
      assert Holds(urls, config, events, s.stickyUrl.value, s.stickySince.value, now);
    }
    if url, since :| StickySince(urls, config, events, url, since) && Holds(urls, config, events, url, since, now) {
      HoldsAnswers(urls, config, events, url, since, now);
    }
  }

  lemma {:induction false} FailureMoves(urls: seq<string>, config: Config, events: seq<Event>, e: Event)
    requires urls != [] && e.Failure?
    ensures PositionMoves(urls, config, events, e, Position(urls, config, events), Position(urls, config, events + [e]))
  {
    var s, after := Run(urls, config, events), events + [e];
    var i := FindFrom(s.endpoints, e.url, 0);
    assert after[..|after| - 1] == events && after[|after| - 1] == e;
    SameFirst(s.endpoints, urls, e.url, 0);
    RunMirrors(urls, config, events);
    RunMirrors(urls, config, after);
    if i < |urls| {
      StepAt(s, config, e, i);
      PickMoves(Run(urls, config, after).endpoints, urls, config, after, s.currentIndex);
    }
  }

  /** After any events, the next event moves the position just so. */
  lemma {:induction false} PositionFollowsHistory(urls: seq<string>, config: Config, events: seq<Event>, e: Event)
    requires urls != []
    ensures PositionMoves(urls, config, events, e, Position(urls, config, events), Position(urls, config, events + [e]))
  {
    var s := Run(urls, config, events);
    RunSnoc(urls, config, events, e);
    match e
    case Success(_, _) =>
    case Failure(_, _) => FailureMoves(urls, config, events, e);
    case Current(now) =>
      RunMirrors(urls, config, events);
      StickyIff(urls, config, events, now);
      PickMoves(s.endpoints, urls, config, events, s.currentIndex);
      PickFacts(s.endpoints, s.currentIndex);
  }

  /** The answer after any events: the sticky endpoint while it holds; else the endpoint at the current position if it
      is up; else the one that a move from there goes to. */
  lemma {:induction false} AnswerFollowsHistory(urls: seq<string>, config: Config, events: seq<Event>, now: int)
    requires urls != []
    ensures var url := GetCurrent(Run(urls, config, events), config, now).1;
      if StickyAt(urls, config, events, now) then
        exists since :: StickySince(urls, config, events, url, since) && Holds(urls, config, events, url, since, now)
      else url == urls[Position(urls, config, events + [Current(now)])]
  {
    var s, after := Run(urls, config, events), events + [Current(now)];
    assert after[..|after| - 1] == events && after[|after| - 1] == Current(now);
    StickyIff(urls, config, events, now);
    PickFacts(s.endpoints, s.currentIndex);
    if url, since :| StickySince(urls, config, events, url, since) && Holds(urls, config, events, url, since, now) {
      assert url == s.stickyUrl.value;
    }
  }

  /** Without stickiness, while the endpoint at the current position is up every question answers its url and leaves the
      position; when it is down, the answer is the next one that is up. */
  lemma {:induction false} AnswerWithoutStickiness(urls: seq<string>, config: Config, events: seq<Event>, now: int)
    requires urls != [] && config.stickyDurationMs <= 0
    ensures var p, q := Position(urls, config, events), Position(urls, config, events + [Current(now)]);
      GetCurrent(Run(urls, config, events), config, now).1 == urls[q] &&
      if Up(urls, config, events, p) then q == p else MovesTo(urls, config, events, p, q)
  {
    StickyIff(urls, config, events, now);
    AnswerFollowsHistory(urls, config, events, now);
    PositionFollowsHistory(urls, config, events, Current(now));
  }

  /** The answer to a question after `events`. */
  function Answer(urls: seq<string>, config: Config, events: seq<Event>, now: int): string
    requires urls != []
  {
    GetCurrent(Run(urls, config, events), config, now).1
  }

  predicate IsSticky(s: State, config: Config, url: string, since: int) {
    Sticky(s, config) && s.stickyUrl == Some(url) && s.stickySince == Some(since)
  }

  lemma {:induction false} StickyAfter(s: State, config: Config, e: Event, url: string, since: int)
    requires Valid(s)
    ensures IsSticky(Step(s, config, e), config, url, since) <==>
      if e.Current? && config.stickyDurationMs > 0 && !StickyAnswers(s, config, e.now)
      then url == GetCurrent(s, config, e.now).1 && since == e.now && url != "" && since != 0
      else IsSticky(s, config, url, since)
  {
    PickFacts(s.endpoints, s.currentIndex);
  }

  lemma {:induction false} RunSnoc(urls: seq<string>, config: Config, events: seq<Event>, e: Event)
    requires urls != []
    ensures Run(urls, config, events + [e]) == Step(Run(urls, config, events), config, e)
  {
    var after := events + [e];
    assert after[..|after| - 1] == events && after[|after| - 1] == e;
  }

  /** What is sticky after `e`: with stickiness on, a question that no sticky endpoint answers makes its own answer sticky
      from then on, and nothing else changes what is. */
  lemma {:induction false} StickyFollowsHistory(urls: seq<string>, config: Config, events: seq<Event>, e: Event, url: string, since: int)
    requires urls != []
    ensures StickySince(urls, config, events + [e], url, since) <==>
      if e.Current? && config.stickyDurationMs > 0 && !StickyAt(urls, config, events, e.now)
      then url == Answer(urls, config, events, e.now) && since == e.now && url != "" && since != 0
      else StickySince(urls, config, events, url, since)
  {
    var s := Run(urls, config, events);
    RunSnoc(urls, config, events, e);
    StickyAfter(s, config, e, url, since);
    if e.Current? {
      StickyIff(urls, config, events, e.now);
    }
    assert StickySince(urls, config, events, url, since) == IsSticky(s, config, url, since);
  }

  /** When the endpoint at position `i` was last reported on. */
  function LastReport(urls: seq<string>, events: seq<Event>, i: nat): Option<int> {
    if events == [] then None
    else
      var e := events[|events| - 1];
      if !e.Current? && FirstUrl(urls, e.url, 0) == i then Some(e.now) else LastReport(urls, events[..|events| - 1], i)
  }

  /** And that is its time of last check. */
  lemma {:induction false} LastChecked(urls: seq<string>, config: Config, events: seq<Event>, i: nat)
    requires i < |urls|
    ensures Run(urls, config, events).endpoints[i].lastChecked == LastReport(urls, events, i)
  {
    if events != [] {
      var before, e := events[..|events| - 1], events[|events| - 1];
      LastChecked(urls, config, before, i);
      StepAt(Run(urls, config, before), config, e, i);
      if !e.Current? {
        SameFirst(Run(urls, config, before).endpoints, urls, e.url, 0);
      }
    }
  }

  // ---- The primary ----

  /** The first endpoint has been up throughout. */
  ghost predicate PrimaryUp(urls: seq<string>, config: Config, events: seq<Event>) {
    forall k :: 0 <= k <= |events| ==> Up(urls, config, events[..k], 0)
  }

  ghost predicate AllUp(urls: seq<string>, config: Config, events: seq<Event>) {
    forall i :: 0 <= i < |urls| ==> Up(urls, config, events, i)
  }

  /** No endpoint has ever been down. */
  ghost predicate NoneDown(urls: seq<string>, config: Config, events: seq<Event>) {
    forall k :: 0 <= k <= |events| ==> AllUp(urls, config, events[..k])
  }

  /** With the first endpoint up, and one other at most or none down, a move from the first leads back to it. */
  lemma {:induction false} PrimaryMove(urls: seq<string>, config: Config, events: seq<Event>, q: nat)
    requires |urls| <= 2 && Up(urls, config, events, 0) && MovesTo(urls, config, events, 0, q)
    requires |urls| == 2 ==> !Up(urls, config, events, 1)
    ensures q == 0
  {
  }

  lemma {:induction false} PrimaryStays(urls: seq<string>, config: Config, events: seq<Event>, e: Event, after: seq<Event>, q: nat)
    requires urls != [] && Up(urls, config, events, 0) && Up(urls, config, after, 0) && after == events + [e]
    requires |urls| <= 2 || AllUp(urls, config, after)
    requires PositionMoves(urls, config, events, e, 0, q)
    ensures q == 0
  {
    if e.Failure? {
      var i := FirstUrl(urls, e.url, 0);
      if Up(urls, config, events, i) && !Up(urls, config, after, i) {
        assert i == 1 && |urls| == 2;
        PrimaryMove(urls, config, after, q);
      }
    }
  }

  lemma {:induction false} PrimaryStep(urls: seq<string>, config: Config, events: seq<Event>, e: Event)
    requires urls != [] && Up(urls, config, events, 0) && Up(urls, config, events + [e], 0)
    requires |urls| <= 2 || AllUp(urls, config, events + [e])
    requires Position(urls, config, events) == 0
    ensures Position(urls, config, events + [e]) == 0
  {
    PositionFollowsHistory(urls, config, events, e);
    PrimaryStays(urls, config, events, e, events + [e], Position(urls, config, events + [e]));
  }

  /** Until an endpoint goes down the position stays the first; with two endpoints, until the first goes down. */
  lemma {:induction false} PrimaryKept(urls: seq<string>, config: Config, events: seq<Event>)
    requires urls != [] && PrimaryUp(urls, config, events)
    requires |urls| <= 2 || NoneDown(urls, config, events)
    ensures Position(urls, config, events) == 0
  {
    if events != [] {
      var n := |events| - 1;
      var before := events[..n];
      assert before + [events[n]] == events == events[..|events|];
      assert forall k :: 0 <= k <= n ==> before[..k] == events[..k];
      PrimaryKept(urls, config, before);
      assert events[..n] == before;
      PrimaryStep(urls, config, before, events[n]);
    }
  }

  /** And it answers, sticky or not. */
  lemma {:induction false} PrimaryAnswers(urls: seq<string>, config: Config, events: seq<Event>, now: int)
    requires urls != [] && PrimaryUp(urls, config, events)
    requires |urls| <= 2 || NoneDown(urls, config, events)
    ensures forall url, since :: StickySince(urls, config, events, url, since) ==> url == urls[0]
    ensures Answer(urls, config, events, now) == urls[0]
  {
    PrimaryKept(urls, config, events);
    assert events[..|events|] == events;
    if events != [] {
      var n := |events| - 1;
      var before, e := events[..n], events[n];
      assert before + [e] == events;
      assert forall k :: 0 <= k <= n ==> before[..k] == events[..k];
      PrimaryAnswers(urls, config, before, if e.Current? then e.now else 0);
      forall url, since | StickySince(urls, config, events, url, since) ensures url == urls[0] {
        StickyFollowsHistory(urls, config, before, e, url, since);
      }
    }
    AnswerFollowsHistory(urls, config, events, now);
    PositionFollowsHistory(urls, config, events, Current(now));
  }

  /** The first time that an endpoint is down. */
  lemma {:induction false} FirstDown(urls: seq<string>, config: Config, events: seq<Event>, m: nat) returns (k: nat)
    requires m <= |events| && !AllUp(urls, config, events[..m])
    ensures 0 < k <= m && !AllUp(urls, config, events[..k]) && NoneDown(urls, config, events[..k - 1])
  {
    if j: nat :| j < m && !AllUp(urls, config, events[..j]) {
      k := FirstDown(urls, config, events, j);
    } else {
      k := m;
      assert AllUp(urls, config, []);
      assert m > 0;
      var before := events[..m - 1];
      forall j | 0 <= j <= |before| ensures AllUp(urls, config, before[..j]) {
        assert before[..j] == events[..j];
      }
    }
  }

  /** An event leaves an endpoint up unless it is a failure of it. */
  lemma {:induction false} UpNext(urls: seq<string>, config: Config, events: seq<Event>, e: Event, i: nat)
    requires i < |urls| && Up(urls, config, events, i)
    ensures !Up(urls, config, events + [e], i) ==> e.Failure? && FirstUrl(urls, e.url, 0) == i
  {
    var after, h := events + [e], History(urls, events, i);
    assert after[..|after| - 1] == events && after[|after| - 1] == e;
    if !e.Current? && FirstUrl(urls, e.url, 0) == i {
      assert (h + [e.Success?])[..|h|] == h;
    }
  }

  /** Where the first endpoint to go down leaves the position when there are two others: away from the first. */
  lemma {:induction false} StandbyMove(urls: seq<string>, config: Config, events: seq<Event>, e: Event)
    requires |urls| >= 3 && AllUp(urls, config, events) && Up(urls, config, events + [e], 0)
    requires !AllUp(urls, config, events + [e]) && Position(urls, config, events) == 0
    ensures Position(urls, config, events + [e]) > 0 && Up(urls, config, events + [e], Position(urls, config, events + [e]))
  {
    var after, n := events + [e], |urls|;
    var i :| 0 <= i < n && !Up(urls, config, after, i);
    assert Up(urls, config, events, i);
    UpNext(urls, config, events, e, i);
    assert e.Failure? && FirstUrl(urls, e.url, 0) == i;
    PositionFollowsHistory(urls, config, events, e);
    var q, j := Position(urls, config, after), if i == 1 then 2 else 1;
    UpNext(urls, config, events, e, j);
    assert Up(urls, config, events, j);
    assert Up(urls, config, after, j) && Place(0, j, n) == j;
    assert NextUp(urls, config, after, 0, q);
  }

  /** While the first endpoint stays up, a client with distinct endpoints and no stickiness is answered it throughout if
      and only if there are at most two endpoints or none has gone down: the failure of a standby moves the position
      too. */
  lemma {:induction false} PrimaryAnswersIff(urls: seq<string>, config: Config, events: seq<Event>)
    requires urls != [] && Distinct(urls) && config.stickyDurationMs <= 0 && PrimaryUp(urls, config, events)
    ensures (forall k, now :: 0 <= k <= |events| ==> Answer(urls, config, events[..k], now) == urls[0]) <==>
      |urls| <= 2 || NoneDown(urls, config, events)
  {
    if |urls| <= 2 || NoneDown(urls, config, events) {
      forall k, now | 0 <= k <= |events| ensures Answer(urls, config, events[..k], now) == urls[0] {
        assert forall j :: 0 <= j <= k ==> events[..k][..j] == events[..j];
        PrimaryAnswers(urls, config, events[..k], now);
      }
    } else {
      var m :| 0 <= m <= |events| && !AllUp(urls, config, events[..m]);
      var k := FirstDown(urls, config, events, m);
      var before, e := events[..k - 1], events[k - 1];
      assert before + [e] == events[..k] && before[..k - 1] == before;
      assert forall j :: 0 <= j < k ==> before[..j] == events[..j];
      PrimaryKept(urls, config, before);
      StandbyMove(urls, config, before, e);
      AnswerWithoutStickiness(urls, config, events[..k], 0);
      assert Answer(urls, config, events[..k], 0) != urls[0];
    }
  }

  /** Of three endpoints the second fails once, which is its limit: the third answers from then on, although the first
      has never failed. */
  lemma {:induction false} StandbyMoves(a: string, b: string, c: string)
    requires a != b && b != c && a != c
    ensures var urls, config, events := [a, b, c], Config(1, 1, 0), [Failure(b, 0)];
      PrimaryUp(urls, config, events) && Answer(urls, config, [], 0) == a && Answer(urls, config, events, 1) == c
  {
    var urls, config, events := [a, b, c], Config(1, 1, 0), [Failure(b, 0)];
    assert events[..0] == [];
    assert Run(urls, config, []) == Start(urls);
    var s := Run(urls, config, []);
    assert FindFrom(s.endpoints, b, 1) == 1 && FindFrom(s.endpoints, b, 0) == 1;
    assert Run(urls, config, events) == Step(s, config, Failure(b, 0));
    var t := Run(urls, config, events);
    assert Place(0, 1, 3) == 1 && Place(0, 2, 3) == 2;
    assert !t.endpoints[1].isHealthy && t.endpoints[2].isHealthy;
    assert NextHealthy(t.endpoints, 0, 2) == Some(2);
    forall k | 0 <= k <= |events| ensures Up(urls, config, events[..k], 0) {
      assert k == 1 ==> events[..k] == events;
      EndpointAt(urls, config, events[..k], 0);
    }
  }
}
