/** RPC failover: per-endpoint health, the choice of endpoint, and stickiness. */
module RpcFailover {
  import opened Seqs

  datatype Config = Config(maxFailuresBeforeFallback: int, successThresholdToRestore: int, stickyDurationMs: int)

  datatype Endpoint = Endpoint(url: string, isHealthy: bool, consecutiveFailures: nat, consecutiveSuccesses: nat, lastChecked: Option<int>)

  datatype State = State(endpoints: seq<Endpoint>, currentIndex: nat, stickyUrl: Option<string>, stickySince: Option<int>)

  datatype Event = Success(url: string, now: int) | Failure(url: string, now: int) | Current(now: int)

  function Start(urls: seq<string>): State {
    State(seq(|urls|, i requires 0 <= i < |urls| => Endpoint(urls[i], true, 0, 0, None)), 0, None, None)
  }

  ghost predicate Valid(s: State) { s.currentIndex < |s.endpoints| }

  /** `endpoints.find(ep => ep.url === url)`, as a position. */
  function FindFrom(endpoints: seq<Endpoint>, url: string, from: nat): (r: nat)
    requires from <= |endpoints|
    ensures from <= r <= |endpoints|
    ensures r < |endpoints| ==> endpoints[r].url == url
    ensures forall i :: from <= i < r ==> endpoints[i].url != url
    decreases |endpoints| - from
  {
    if from == |endpoints| || endpoints[from].url == url then from else FindFrom(endpoints, url, from + 1)
  }

  // ---- Choosing an endpoint ----

  /** `(current + offset) % n`, for at most one turn. */
  function Place(current: nat, offset: nat, n: nat): (r: nat)
    requires current < n && offset <= n
    ensures r == (if current + offset < n then current + offset else current + offset - n) < n
  {
    WrapOnce(current + offset, n);
    (current + offset) % n
  }

  lemma WrapOnce(x: nat, n: nat)
    requires n > 0 && x < 2 * n
    ensures x % n == if x < n then x else x - n
  {
    if x >= n {
      assert x == n * 1 + (x - n);
    }
  }

  /** The first healthy endpoint in round-robin order from `offset` places after `current`. */
  function NextHealthy(endpoints: seq<Endpoint>, current: nat, offset: nat): Option<nat>
    requires current < |endpoints|
    decreases |endpoints| + 1 - offset
  {
    if offset > |endpoints| then None
    else if endpoints[Place(current, offset, |endpoints|)].isHealthy then Some(Place(current, offset, |endpoints|))
    else NextHealthy(endpoints, current, offset + 1)
  }

  /** The first of the endpoints up to `i` with the fewest consecutive failures. */
  function LeastFailed(endpoints: seq<Endpoint>, i: nat): (r: nat)
    requires i < |endpoints|
    ensures r <= i
    ensures forall j :: 0 <= j <= i ==> endpoints[r].consecutiveFailures <= endpoints[j].consecutiveFailures
    ensures forall j :: 0 <= j < r ==> endpoints[r].consecutiveFailures < endpoints[j].consecutiveFailures
  {
    if i == 0 then 0
    else
      var best := LeastFailed(endpoints, i - 1);
      if endpoints[i].consecutiveFailures < endpoints[best].consecutiveFailures then i else best
  }

  function Pick(endpoints: seq<Endpoint>, current: nat): nat
    requires current < |endpoints|
  {
    match NextHealthy(endpoints, current, 1)
    case Some(i) => i
    case None => LeastFailed(endpoints, |endpoints| - 1)
  }

  ghost predicate SomeHealthy(endpoints: seq<Endpoint>) {
    exists i :: 0 <= i < |endpoints| && endpoints[i].isHealthy
  }

  lemma {:induction false} NextHealthyFacts(endpoints: seq<Endpoint>, current: nat, offset: nat)
    requires current < |endpoints| && offset >= 1
    ensures var r := NextHealthy(endpoints, current, offset);
      if r.Some? then r.value < |endpoints| && endpoints[r.value].isHealthy
      else forall o :: offset <= o <= |endpoints| ==> !endpoints[Place(current, o, |endpoints|)].isHealthy
    decreases |endpoints| + 1 - offset
  {
    if offset <= |endpoints| && !endpoints[Place(current, offset, |endpoints|)].isHealthy {
      NextHealthyFacts(endpoints, current, offset + 1);
    }
  }

  /** The pick is healthy whenever any endpoint is, and otherwise the first with the fewest failures. */
  lemma PickFacts(endpoints: seq<Endpoint>, current: nat)
    requires current < |endpoints|
    ensures Pick(endpoints, current) < |endpoints|
    ensures SomeHealthy(endpoints) ==> endpoints[Pick(endpoints, current)].isHealthy
    ensures !SomeHealthy(endpoints) ==> Pick(endpoints, current) == LeastFailed(endpoints, |endpoints| - 1)
  {
    var n := |endpoints|;
    NextHealthyFacts(endpoints, current, 1);
    if SomeHealthy(endpoints) {
      var i :| 0 <= i < n && endpoints[i].isHealthy;
      var o := if i > current then i - current else i - current + n;
      assert Place(current, o, n) == i;
    }
  }

  // ---- The operations ----

  function OnSuccess(ep: Endpoint, config: Config, now: int): Endpoint {
    var counted := ep.(consecutiveFailures := 0, consecutiveSuccesses := ep.consecutiveSuccesses + 1, lastChecked := Some(now));
    if !ep.isHealthy && counted.consecutiveSuccesses >= config.successThresholdToRestore
    then counted.(isHealthy := true, consecutiveSuccesses := 0) else counted
  }

  predicate FallsBack(ep: Endpoint, config: Config) {
    ep.isHealthy && ep.consecutiveFailures + 1 >= config.maxFailuresBeforeFallback
  }

  function OnFailure(ep: Endpoint, config: Config, now: int): Endpoint {
    var counted := ep.(consecutiveSuccesses := 0, consecutiveFailures := ep.consecutiveFailures + 1, lastChecked := Some(now));
    if FallsBack(ep, config) then counted.(isHealthy := false, consecutiveFailures := 0) else counted
  }

  predicate Sticky(s: State, config: Config) {
    config.stickyDurationMs > 0 && s.stickyUrl.Some? && s.stickyUrl.value != "" && s.stickySince.Some? && s.stickySince.value != 0
  }

  /** The sticky endpoint answers: within its window and healthy. */
  predicate StickyAnswers(s: State, config: Config, now: int) {
    Sticky(s, config) && now - s.stickySince.value < config.stickyDurationMs &&
    var i := FindFrom(s.endpoints, s.stickyUrl.value, 0); i < |s.endpoints| && s.endpoints[i].isHealthy
  }

  /** The state after `getCurrentUrl`, and its answer. */
  function GetCurrent(s: State, config: Config, now: int): (State, string)
    requires Valid(s)
  {
    if StickyAnswers(s, config, now) then (s, s.stickyUrl.value)
    else
      var cleared := if Sticky(s, config) then s.(stickyUrl := None, stickySince := None) else s;
      var index := if s.endpoints[s.currentIndex].isHealthy then s.currentIndex else Pick(s.endpoints, s.currentIndex);
      if index < |s.endpoints| then
        var url := s.endpoints[index].url;
        var moved := cleared.(currentIndex := index);
        (if config.stickyDurationMs > 0 then moved.(stickyUrl := Some(url), stickySince := Some(now)) else moved, url)
      else (cleared, "")
  }

  function Step(s: State, config: Config, e: Event): State
    requires Valid(s)
  {
    match e
    case Success(url, now) =>
      var i := FindFrom(s.endpoints, url, 0);
      if i == |s.endpoints| then s else s.(endpoints := s.endpoints[i := OnSuccess(s.endpoints[i], config, now)])
    case Failure(url, now) =>
      var i := FindFrom(s.endpoints, url, 0);
      if i == |s.endpoints| then s
      else
        var endpoints := s.endpoints[i := OnFailure(s.endpoints[i], config, now)];
        s.(endpoints := endpoints,
           currentIndex := if FallsBack(s.endpoints[i], config) then Pick(endpoints, s.currentIndex) else s.currentIndex)
    case Current(now) => GetCurrent(s, config, now).0
  }

  lemma StepValid(s: State, config: Config, e: Event)
    requires Valid(s)
    ensures Valid(Step(s, config, e)) && |Step(s, config, e).endpoints| == |s.endpoints|
    ensures forall i :: 0 <= i < |s.endpoints| ==> Step(s, config, e).endpoints[i].url == s.endpoints[i].url
  {
    PickFacts(s.endpoints, s.currentIndex);
    if e.Failure? {
      var i := FindFrom(s.endpoints, e.url, 0);
      if i < |s.endpoints| {
        PickFacts(s.endpoints[i := OnFailure(s.endpoints[i], config, e.now)], s.currentIndex);
      }
    }
  }

  /** The answer is a healthy endpoint whenever there is one, and otherwise the first endpoint with the
      fewest consecutive failures. */
  lemma CurrentFacts(s: State, config: Config, now: int)
    requires Valid(s)
    ensures var url := GetCurrent(s, config, now).1;
      (SomeHealthy(s.endpoints) ==> exists i :: 0 <= i < |s.endpoints| && s.endpoints[i].url == url && s.endpoints[i].isHealthy) &&
      (!SomeHealthy(s.endpoints) ==> url == s.endpoints[LeastFailed(s.endpoints, |s.endpoints| - 1)].url)
  {
    PickFacts(s.endpoints, s.currentIndex);
    if StickyAnswers(s, config, now) {
      var i := FindFrom(s.endpoints, s.stickyUrl.value, 0);
      assert s.endpoints[i].url == s.stickyUrl.value && s.endpoints[i].isHealthy;
    }
  }

  // ---- Health as a function of history ----

  function Run(urls: seq<string>, config: Config, events: seq<Event>): (s: State)
    requires urls != []
    ensures Valid(s) && |s.endpoints| == |urls| && forall i :: 0 <= i < |urls| ==> s.endpoints[i].url == urls[i]
  {
    if events == [] then Start(urls)
    else
      var before := Run(urls, config, events[..|events| - 1]);
      StepValid(before, config, events[|events| - 1]);
      Step(before, config, events[|events| - 1])
  }

  /** The results recorded for the endpoint at position `i`: true for a success. A url that is listed
      twice belongs to its first position. */
  function History(urls: seq<string>, events: seq<Event>, i: nat): seq<bool> {
    if events == [] then []
    else
      var before, e := History(urls, events[..|events| - 1], i), events[|events| - 1];
      if e.Current? || FirstUrl(urls, e.url, 0) != i then before else before + [e.Success?]
  }

  function FirstUrl(urls: seq<string>, url: string, from: nat): nat
    requires from <= |urls|
    decreases |urls| - from
  {
    if from == |urls| || urls[from] == url then from else FirstUrl(urls, url, from + 1)
  }

  /** The length of the run of `v` at the end. */
  function TrailingRun(h: seq<bool>, v: bool): nat {
    if h == [] || h[|h| - 1] != v then 0 else 1 + TrailingRun(h[..|h| - 1], v)
  }

  /** Two-threshold hysteresis on the history alone: an endpoint goes down at the end of a long enough
      run of failures, and comes back at the end of a long enough run of successes. */
  function Healthy(h: seq<bool>, config: Config): bool {
    if h == [] then true
    else
      var before := Healthy(h[..|h| - 1], config);
      if h[|h| - 1] then before || TrailingRun(h, true) >= config.successThresholdToRestore
      else before && TrailingRun(h, false) < config.maxFailuresBeforeFallback
  }

  /** The counters are the trailing runs that matter for the next decision. */
  ghost predicate Reflects(ep: Endpoint, h: seq<bool>, config: Config) {
    ep.isHealthy == Healthy(h, config) &&
    (ep.isHealthy ==> ep.consecutiveFailures == TrailingRun(h, false)) &&
    (!ep.isHealthy ==> ep.consecutiveSuccesses == TrailingRun(h, true))
  }

  lemma SuccessReflects(ep: Endpoint, h: seq<bool>, config: Config, now: int)
    requires Reflects(ep, h, config)
    ensures Reflects(OnSuccess(ep, config, now), h + [true], config)
  {
    assert (h + [true])[..|h|] == h;
  }

  lemma FailureReflects(ep: Endpoint, h: seq<bool>, config: Config, now: int)
    requires Reflects(ep, h, config)
    ensures Reflects(OnFailure(ep, config, now), h + [false], config)
  {
    assert (h + [false])[..|h|] == h;
  }

  lemma {:induction false} SameFirst(endpoints: seq<Endpoint>, urls: seq<string>, url: string, from: nat)
    requires |endpoints| == |urls| && from <= |urls|
    requires forall i :: 0 <= i < |urls| ==> endpoints[i].url == urls[i]
    ensures FindFrom(endpoints, url, from) == FirstUrl(urls, url, from)
    decreases |urls| - from
  {
    if from < |urls| && urls[from] != url {
      SameFirst(endpoints, urls, url, from + 1);
    }
  }

  /** What an event does to the endpoint at position `i`. */
  lemma StepAt(s: State, config: Config, e: Event, i: nat)
    requires Valid(s) && i < |s.endpoints|
    ensures |Step(s, config, e).endpoints| == |s.endpoints|
    ensures Step(s, config, e).endpoints[i] ==
      (if e.Current? || FindFrom(s.endpoints, e.url, 0) != i then s.endpoints[i]
       else if e.Success? then OnSuccess(s.endpoints[i], config, e.now)
       else OnFailure(s.endpoints[i], config, e.now))
  {
  }

  lemma ReflectsStep(ep: Endpoint, h: seq<bool>, config: Config, e: Event)
    requires Reflects(ep, h, config) && !e.Current?
    ensures Reflects(if e.Success? then OnSuccess(ep, config, e.now) else OnFailure(ep, config, e.now), h + [e.Success?], config)
  {
    if e.Success? {
      SuccessReflects(ep, h, config, e.now);
    } else {
      FailureReflects(ep, h, config, e.now);
    }
  }

  /** After any events, each endpoint is up or down exactly as its own history says. */
  lemma {:induction false} HealthIsHysteresis(urls: seq<string>, config: Config, events: seq<Event>, i: nat)
    requires i < |urls|
    ensures Reflects(Run(urls, config, events).endpoints[i], History(urls, events, i), config)
  {
    if events != [] {
      var before, e := events[..|events| - 1], events[|events| - 1];
      HealthIsHysteresis(urls, config, before, i);
      var s, h := Run(urls, config, before), History(urls, before, i);
      StepAt(s, config, e, i);
      if !e.Current? {
        SameFirst(s.endpoints, urls, e.url, 0);
        ReflectsStep(s.endpoints[i], h, config, e);
        assert History(urls, events, i) == if FirstUrl(urls, e.url, 0) != i then h else h + [e.Success?];
      } else {
        assert History(urls, events, i) == h;
      }
      assert Run(urls, config, events) == Step(s, config, e);
    }
  }

  // ---- Stickiness ----

  /** After `events`, `url` has been sticky since `since`. */
  predicate StickySince(urls: seq<string>, config: Config, events: seq<Event>, url: string, since: int)
    requires urls != []
  {
    var s := Run(urls, config, events);
    Sticky(s, config) && s.stickyUrl == Some(url) && s.stickySince == Some(since)
  }

  /** The url is up by its own history, and the time is within the window. */
  predicate Holds(urls: seq<string>, config: Config, events: seq<Event>, url: string, since: int, now: int) {
    var i := FirstUrl(urls, url, 0);
    i < |urls| && Healthy(History(urls, events, i), config) && now - since < config.stickyDurationMs
  }

  lemma HoldsAnswers(urls: seq<string>, config: Config, events: seq<Event>, url: string, since: int, now: int)
    requires urls != [] && StickySince(urls, config, events, url, since) && Holds(urls, config, events, url, since, now)
    ensures StickyAnswers(Run(urls, config, events), config, now)
  {
    var i := FirstUrl(urls, url, 0);
    SameFirst(Run(urls, config, events).endpoints, urls, url, 0);
    HealthIsHysteresis(urls, config, events, i);
  }

  lemma {:induction false} StickyStep(urls: seq<string>, config: Config, events: seq<Event>, e: Event, url: string, since: int)
    requires urls != [] && StickySince(urls, config, events, url, since)
    requires e.Current? ==> Holds(urls, config, events, url, since, e.now)
    ensures StickySince(urls, config, events + [e], url, since)
  {
    assert (events + [e])[..|events + [e]| - 1] == events && (events + [e])[|events + [e]| - 1] == e;
    if e.Current? {
      HoldsAnswers(urls, config, events, url, since, e.now);
    }
  }

  /** Whatever happens to the others and to the current index, a sticky url stays sticky as long as every question
      comes within the window and finds it up by its own history. */
  lemma {:induction false} StickyStays(urls: seq<string>, config: Config, before: seq<Event>, later: seq<Event>, url: string, since: int)
    requires urls != [] && StickySince(urls, config, before, url, since)
    requires forall k :: 0 <= k < |later| && later[k].Current? ==> Holds(urls, config, before + later[..k], url, since, later[k].now)
    ensures StickySince(urls, config, before + later, url, since)
  {
    if later == [] {
      assert before + later == before;
    } else {
      var n := |later| - 1;
      var front, e := later[..n], later[n];
      assert forall k :: 0 <= k < n ==> front[..k] == later[..k] && front[k] == later[k];
      StickyStays(urls, config, before, front, url, since);
      assert before + later == before + front + [e];
      StickyStep(urls, config, before + front, e, url, since);
    }
  }

  /** And then it is the answer. */
  lemma StickyPersists(urls: seq<string>, config: Config, before: seq<Event>, later: seq<Event>, url: string, since: int, now: int)
    requires urls != [] && StickySince(urls, config, before, url, since)
    requires forall k :: 0 <= k < |later| && later[k].Current? ==> Holds(urls, config, before + later[..k], url, since, later[k].now)
    requires Holds(urls, config, before + later, url, since, now)
    ensures var s := Run(urls, config, before + later); GetCurrent(s, config, now) == (s, url)
  {
    StickyStays(urls, config, before, later, url, since);
    HoldsAnswers(urls, config, before + later, url, since, now);
  }

  // ---- The manager ----

  class RpcFailoverManager {
    const endpoints: array<Endpoint>
    const config: Config
    var currentIndex: nat
    var stickyEndpointUrl: Option<string>
    var stickyEndpointSince: Option<int>

    ghost predicate Ok() reads this, endpoints { Valid(Abs()) }

    ghost function Abs(): State reads this, endpoints {
      State(endpoints[..], currentIndex, stickyEndpointUrl, stickyEndpointSince)
    }

    constructor (urls: seq<string>, config: Config)
      requires urls != []
      ensures Ok() && fresh(endpoints) && this.config == config && Abs() == Start(urls)
    {
      endpoints := new Endpoint[|urls|](i requires 0 <= i < |urls| => Endpoint(urls[i], true, 0, 0, None));
      this.config := config;
      currentIndex, stickyEndpointUrl, stickyEndpointSince := 0, None, None;
      new;
      assert endpoints[..] == Start(urls).endpoints;
    }

    method FindEndpoint(url: string) returns (i: nat)
      ensures i == FindFrom(endpoints[..], url, 0)
    {
      i := 0;
      while i < endpoints.Length && endpoints[i].url != url
        invariant i <= endpoints.Length
        invariant FindFrom(endpoints[..], url, i) == FindFrom(endpoints[..], url, 0)
      {
        i := i + 1;
      }
    }

    method PickNextHealthy()
      requires Ok()
      modifies this`currentIndex
      ensures Ok() && currentIndex == Pick(endpoints[..], old(currentIndex))
    {
      var total := endpoints.Length;
      ghost var all := endpoints[..];
      PickFacts(all, currentIndex);
      var offset := 1;
      while offset <= total
        invariant 1 <= offset <= total + 1
        invariant currentIndex == old(currentIndex)
        invariant NextHealthy(all, currentIndex, offset) == NextHealthy(all, currentIndex, 1)
        decreases total + 1 - offset
      {
        var candidate := Place(currentIndex, offset, total);
        if endpoints[candidate].isHealthy {
          currentIndex := candidate;
          return;
        }
        offset := offset + 1;
      }
      currentIndex := FindLeastFailed();
    }

    method FindLeastFailed() returns (leastFailed: nat)
      requires endpoints.Length > 0
      ensures leastFailed == LeastFailed(endpoints[..], endpoints.Length - 1)
    {
      leastFailed := 0;
      for i := 1 to endpoints.Length
        invariant leastFailed == LeastFailed(endpoints[..], i - 1)
      {
        if endpoints[i].consecutiveFailures < endpoints[leastFailed].consecutiveFailures {
          leastFailed := i;
        }
      }
    }

    method RecordSuccess(url: string, now: int)
      requires Ok()
      modifies endpoints
      ensures Ok() && Abs() == Step(old(Abs()), config, Success(url, now))
    {
      StepValid(Abs(), config, Success(url, now));
      var i := FindEndpoint(url);
      if i == endpoints.Length {
        return;
      }
      var ep := endpoints[i];
      ep := ep.(consecutiveFailures := 0, consecutiveSuccesses := ep.consecutiveSuccesses + 1, lastChecked := Some(now));
      if !ep.isHealthy && ep.consecutiveSuccesses >= config.successThresholdToRestore {
        ep := ep.(isHealthy := true, consecutiveSuccesses := 0);
      }
      endpoints[i] := ep;
    }

    method RecordFailure(url: string, now: int)
      requires Ok()
      modifies this, endpoints
      ensures Ok() && Abs() == Step(old(Abs()), config, Failure(url, now))
    {
      StepValid(Abs(), config, Failure(url, now));
      var i := FindEndpoint(url);
      if i == endpoints.Length {
        return;
      }
      var ep := endpoints[i];
      ep := ep.(consecutiveSuccesses := 0, consecutiveFailures := ep.consecutiveFailures + 1, lastChecked := Some(now));
      var fallback := ep.isHealthy && ep.consecutiveFailures >= config.maxFailuresBeforeFallback;
      if fallback {
        ep := ep.(isHealthy := false, consecutiveFailures := 0);
      }
      endpoints[i] := ep;
      if fallback {
        PickNextHealthy();
      }
    }

    method GetCurrentUrl(now: int) returns (url: string)
      requires Ok()
      modifies this
      ensures Ok() && (Abs(), url) == GetCurrent(old(Abs()), config, now)
    {
      PickFacts(endpoints[..], currentIndex);
      if config.stickyDurationMs > 0 && stickyEndpointUrl.Some? && stickyEndpointUrl.value != "" &&
         stickyEndpointSince.Some? && stickyEndpointSince.value != 0 {
        if now - stickyEndpointSince.value < config.stickyDurationMs {
          var i := FindEndpoint(stickyEndpointUrl.value);
          if i < endpoints.Length && endpoints[i].isHealthy {
            return stickyEndpointUrl.value;
          }
        }
        stickyEndpointUrl, stickyEndpointSince := None, None;
      }
      if !endpoints[currentIndex].isHealthy {
        PickNextHealthy();
      }
      url := endpoints[currentIndex].url;
      if config.stickyDurationMs > 0 {
        stickyEndpointUrl, stickyEndpointSince := Some(url), Some(now);
      }
    }
  }
}
