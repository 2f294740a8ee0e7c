/** Coalescing of identical ledger-entry reads: a key already being fetched is awaited, not requested again. */
module LedgerReadCoalescer {
  import opened Seqs
  import opened InsertionMap

  datatype Entry = Entry(id: string, value: string)

  /** The promise for key `id` derived from the `fetch`-th call of the fetcher. */
  datatype Wait = Wait(id: string, fetch: nat)

  datatype Stats = Stats(keysRequested: int, keysCoalesced: int, duplicateKeysSkipped: int, rpcCalls: int)

  datatype Coalescer = Coalescer(inFlight: seq<Binding<string, nat>>, stats: Stats)

  // ---- What a request does before it waits ----

  function Unique(ids: seq<string>): seq<string> { AddNew([], ids) }

  /** The pending promises that a request joins. */
  function Joins(m: seq<Binding<string, nat>>, ids: seq<string>): seq<Wait> {
    if ids == [] then []
    else
      var pending := Lookup(m, ids[0]);
      (if pending.Some? then [Wait(ids[0], pending.value)] else []) + Joins(m, ids[1..])
  }

  function NotInFlight(m: seq<Binding<string, nat>>): string -> bool { (id: string) => Lookup(m, id).None? }

  function ToFetch(m: seq<Binding<string, nat>>, ids: seq<string>): seq<string> { Filter(ids, NotInFlight(m)) }

  function Issued(ids: seq<string>, fetch: nat): seq<Wait> {
    if ids == [] then [] else [Wait(ids[0], fetch)] + Issued(ids[1..], fetch)
  }

  function PutAll(m: seq<Binding<string, nat>>, ids: seq<string>, fetch: nat): seq<Binding<string, nat>>
    decreases |ids|
  {
    if ids == [] then m else PutAll(Put(m, ids[0], fetch), ids[1..], fetch)
  }

  function Sent(c: Coalescer, ids: seq<string>): seq<string> { ToFetch(c.inFlight, Unique(ids)) }

  function Waits(c: Coalescer, ids: seq<string>, fetch: nat): seq<Wait> {
    Joins(c.inFlight, Unique(ids)) + Issued(Sent(c, ids), fetch)
  }

  function Requested(c: Coalescer, ids: seq<string>, fetch: nat): Coalescer {
    Coalescer(
      PutAll(c.inFlight, Sent(c, ids), fetch),
      Stats(
        c.stats.keysRequested + |Unique(ids)|,
        c.stats.keysCoalesced + |Joins(c.inFlight, Unique(ids))|,
        c.stats.duplicateKeysSkipped + |ids| - |Unique(ids)|,
        c.stats.rpcCalls + if Sent(c, ids) == [] then 0 else 1))
  }

  /** `release`: the binding goes if it is still the promise that settled. */
  function Released(c: Coalescer, id: string, fetch: nat): Coalescer {
    if Lookup(c.inFlight, id) == Some(fetch) then c.(inFlight := Delete(c.inFlight, id)) else c
  }

  class LedgerReadCoalescer {
    var inFlight: seq<Binding<string, nat>>
    var stats: Stats

    ghost function Abs(): Coalescer
      reads this
    {
      Coalescer(inFlight, stats)
    }

    constructor ()
      ensures Abs() == Coalescer([], Stats(0, 0, 0, 0))
    {
      inFlight := [];
      stats := Stats(0, 0, 0, 0);
    }

    /** The part of a request that runs without interruption. `fetch` identifies the promise that
        the fetcher returns if it is called, and `sent` is what it is called with. */
    method GetLedgerEntries(ids: seq<string>, fetch: nat) returns (waits: seq<Wait>, sent: seq<string>)
      modifies this
      ensures Abs() == Requested(old(Abs()), ids, fetch)
      ensures waits == Waits(old(Abs()), ids, fetch) && sent == Sent(old(Abs()), ids)
    {
      var unique := Deduplicate(ids);
      stats := stats.(keysRequested := stats.keysRequested + |unique|);
      waits, sent := JoinPending(unique);
      if |sent| > 0 {
        stats := stats.(rpcCalls := stats.rpcCalls + 1);
        waits := Register(sent, fetch, waits);
      } else {
        assert waits + [] == waits;
      }
    }

    method Deduplicate(ids: seq<string>) returns (unique: seq<string>)
      modifies this`stats
      ensures unique == Unique(ids)
      ensures stats == old(stats).(duplicateKeysSkipped := old(stats.duplicateKeysSkipped) + |ids| - |Unique(ids)|)
    {
      unique := [];
      for i := 0 to |ids|
        invariant AddNew(unique, ids[i..]) == Unique(ids)
        invariant stats == old(stats).(duplicateKeysSkipped := old(stats.duplicateKeysSkipped) + i - |unique|)
      {
        assert ids[i..][0] == ids[i] && ids[i..][1..] == ids[i + 1..];
        if ids[i] in unique {
          stats := stats.(duplicateKeysSkipped := stats.duplicateKeysSkipped + 1);
        } else {
          unique := unique + [ids[i]];
        }
      }
    }

    method JoinPending(unique: seq<string>) returns (waits: seq<Wait>, toFetch: seq<string>)
      modifies this`stats
      ensures waits == Joins(inFlight, unique) && toFetch == ToFetch(inFlight, unique)
      ensures stats == old(stats).(keysCoalesced := old(stats.keysCoalesced) + |waits|)
    {
      waits, toFetch := [], [];
      for i := 0 to |unique|
        invariant waits + Joins(inFlight, unique[i..]) == Joins(inFlight, unique)
        invariant toFetch + ToFetch(inFlight, unique[i..]) == ToFetch(inFlight, unique)
        invariant stats == old(stats).(keysCoalesced := old(stats.keysCoalesced) + |waits|)
      {
        var id := unique[i];
        var pending := Lookup(inFlight, id);
        assert unique[i..][0] == id && unique[i..][1..] == unique[i + 1..];
        if pending.Some? {
          ConcatAssoc(waits, [Wait(id, pending.value)], Joins(inFlight, unique[i + 1..]));
          stats := stats.(keysCoalesced := stats.keysCoalesced + 1);
          waits := waits + [Wait(id, pending.value)];
        } else {
          assert [] + Joins(inFlight, unique[i + 1..]) == Joins(inFlight, unique[i + 1..]);
          ConcatAssoc(toFetch, [id], ToFetch(inFlight, unique[i + 1..]));
          toFetch := toFetch + [id];
        }
      }
      assert waits + [] == waits && toFetch + [] == toFetch;
    }

    method Register(toFetch: seq<string>, fetch: nat, joined: seq<Wait>) returns (waits: seq<Wait>)
      modifies this`inFlight
      ensures inFlight == PutAll(old(inFlight), toFetch, fetch)
      ensures waits == joined + Issued(toFetch, fetch)
    {
      waits := joined;
      for i := 0 to |toFetch|
        invariant PutAll(inFlight, toFetch[i..], fetch) == PutAll(old(inFlight), toFetch, fetch)
        invariant waits + Issued(toFetch[i..], fetch) == joined + Issued(toFetch, fetch)
      {
        assert toFetch[i..][0] == toFetch[i] && toFetch[i..][1..] == toFetch[i + 1..];
        ConcatAssoc(waits, [Wait(toFetch[i], fetch)], Issued(toFetch[i + 1..], fetch));
        inFlight := Put(inFlight, toFetch[i], fetch);
        waits := waits + [Wait(toFetch[i], fetch)];
      }
      assert waits + [] == waits;
    }

    method Release(id: string, fetch: nat)
      modifies this`inFlight
      ensures Abs() == Released(old(Abs()), id, fetch)
    {
      if Lookup(inFlight, id) == Some(fetch) {
        inFlight := Delete(inFlight, id);
      }
    }
  }

  // ---- What a request gets ----

  datatype Outcome = Failed | Fetched(entries: seq<Entry>)

  /** The entry kept for `id` when the fetched entries are put in a map one after the other. */
  function ById(entries: seq<Entry>, id: string): (r: Option<Entry>)
    ensures r.Some? ==> r.value in entries && r.value.id == id
    ensures r.None? ==> forall e :: e in entries ==> e.id != id
  {
    if entries == [] then None
    else
      var last := entries[|entries| - 1];
      if last.id == id then Some(last) else ById(entries[..|entries| - 1], id)
  }

  /** Of two entries with one key the later counts. */
  lemma {:induction false} LaterEntryCounts(entries: seq<Entry>, i: nat)
    requires i < |entries| && forall j :: i < j < |entries| ==> entries[j].id != entries[i].id
    ensures ById(entries, entries[i].id) == Some(entries[i])
  {
    if i < |entries| - 1 {
      LaterEntryCounts(entries[..|entries| - 1], i);
    }
  }

  method IndexEntries(entries: seq<Entry>) returns (byId: seq<Binding<string, Entry>>)
    ensures DistinctKeys(byId)
    ensures forall id :: Lookup(byId, id) == ById(entries, id)
  {
    byId := [];
    for i := 0 to |entries|
      invariant DistinctKeys(byId)
      invariant forall id :: Lookup(byId, id) == ById(entries[..i], id)
    {
      forall id ensures Lookup(Put(byId, entries[i].id, entries[i]), id) == ById(entries[..i + 1], id) {
        PutThenLookup(byId, entries[i].id, entries[i], id);
        assert entries[..i + 1][..i] == entries[..i];
      }
      PutThenLookup(byId, entries[i].id, entries[i], entries[i].id);
      byId := Put(byId, entries[i].id, entries[i]);
    }
    assert entries[..|entries|] == entries;
  }

  /** A call of the fetcher. Times count the steps of the run. */
  datatype Fetch = Fetch(
    ids: seq<string>,
    issuedAt: nat,
    readAt: Option<nat>,
    outcome: Option<Outcome>,
    unreleased: set<string>)

  datatype Call = Call(ids: seq<string>, at: nat, waits: seq<Wait>)

  datatype Answer = Pending | Rejected | Resolved(entries: seq<Entry>)

  function OutcomeOf(w: Wait, fetches: seq<Fetch>): Option<Outcome> {
    if w.fetch < |fetches| then fetches[w.fetch].outcome else None
  }

  /** `Promise.all` over the waits, absent entries dropped. */
  function Collect(waits: seq<Wait>, fetches: seq<Fetch>): Answer {
    if waits == [] then Resolved([])
    else
      var first, rest := OutcomeOf(waits[0], fetches), Collect(waits[1..], fetches);
      if first == Some(Failed) || rest.Rejected? then Rejected
      else if first.None? || rest.Pending? then Pending
      else
        var e := ById(first.value.entries, waits[0].id);
        if e.Some? then Resolved([e.value] + rest.entries) else rest
  }

  function AnswerTo(call: Call, fetches: seq<Fetch>): Answer { Collect(call.waits, fetches) }

  // ---- The system: requests, the ledger's reads, settlements and releases, in any order ----

  datatype State = State(c: Coalescer, fetches: seq<Fetch>, calls: seq<Call>, now: nat)

  datatype Event =
    | Request(ids: seq<string>)
    | Read(fetch: nat)
    | Settle(fetch: nat, outcome: Outcome)
    | Release(id: string, fetch: nat)

  const INITIAL: State := State(Coalescer([], Stats(0, 0, 0, 0)), [], [], 0)

  predicate Enabled(s: State, e: Event) {
    match e
    case Request(_) => true
    case Read(f) => f < |s.fetches| && s.fetches[f].outcome.None? && s.fetches[f].readAt.None?
    case Settle(f, o) => f < |s.fetches| && s.fetches[f].outcome.None? && (o.Fetched? ==> s.fetches[f].readAt.Some?)
    case Release(id, f) => f < |s.fetches| && s.fetches[f].outcome.Some? && id in s.fetches[f].unreleased
  }

  function Step(s: State, e: Event): State
    requires Enabled(s, e)
  {
    match e
    case Request(ids) =>
      var fetch, sent := |s.fetches|, Sent(s.c, ids);
      State(
        Requested(s.c, ids, fetch),
        s.fetches + if sent == [] then [] else [Fetch(sent, s.now, None, None, set id | id in sent)],
        s.calls + [Call(ids, s.now, Waits(s.c, ids, fetch))],
        s.now + 1)
    case Read(f) =>
      s.(fetches := s.fetches[f := s.fetches[f].(readAt := Some(s.now))], now := s.now + 1)
    case Settle(f, o) =>
      s.(fetches := s.fetches[f := s.fetches[f].(outcome := Some(o))], now := s.now + 1)
    case Release(id, f) =>
      s.(
        c := Released(s.c, id, f),
        fetches := s.fetches[f := s.fetches[f].(unreleased := s.fetches[f].unreleased - {id})],
        now := s.now + 1)
  }

  /** The state after `events`; an event that is not enabled does not happen. */
  function Run(events: seq<Event>): State {
    if events == [] then INITIAL
    else
      var s, e := Run(events[..|events| - 1]), events[|events| - 1];
      if Enabled(s, e) then Step(s, e) else s
  }

  // ---- What every step keeps ----

  /** `fetch` has not yet released `id`. */
  predicate Open(fetches: seq<Fetch>, id: string, fetch: nat) {
    fetch < |fetches| && id in fetches[fetch].unreleased
  }

  /** The map holds exactly the unreleased promises. */
  ghost predicate TracksOpen(m: seq<Binding<string, nat>>, fetches: seq<Fetch>) {
    DistinctKeys(m) && forall id, f: nat :: Lookup(m, id) == Some(f) <==> Open(fetches, id, f)
  }

  ghost predicate FetchOk(f: Fetch, now: nat) {
    f.ids != [] && Distinct(f.ids) && f.issuedAt < now &&
    (f.readAt.Some? ==> f.issuedAt < f.readAt.value < now) &&
    (f.outcome.Some? && f.outcome.value.Fetched? ==> f.readAt.Some?) &&
    (forall id :: id in f.unreleased ==> id in f.ids) &&
    (f.outcome.None? ==> forall id :: id in f.ids ==> id in f.unreleased)
  }

  ghost predicate FetchesOk(fetches: seq<Fetch>, now: nat) { forall f :: f in fetches ==> FetchOk(f, now) }

  function Ids(waits: seq<Wait>): seq<string> {
    if waits == [] then [] else [waits[0].id] + Ids(waits[1..])
  }

  predicate WaitOk(w: Wait, fetches: seq<Fetch>, at: nat) {
    w.fetch < |fetches| && w.id in fetches[w.fetch].ids && fetches[w.fetch].issuedAt <= at
  }

  /** The call waits once for each distinct key it asked for, on a fetch of that key issued by then. */
  ghost predicate CallOk(call: Call, fetches: seq<Fetch>, now: nat) {
    call.at < now && Distinct(Ids(call.waits)) &&
    (forall id :: id in Ids(call.waits) <==> id in call.ids) &&
    (forall w :: w in call.waits ==> WaitOk(w, fetches, call.at))
  }

  ghost predicate CallsOk(calls: seq<Call>, fetches: seq<Fetch>, now: nat) {
    forall c :: c in calls ==> CallOk(c, fetches, now)
  }

  function KeysSent(): Fetch -> int { (f: Fetch) => |f.ids| }

  function KeysAsked(): Call -> int { (c: Call) => |c.ids| }

  ghost predicate CountsOk(s: State) {
    s.c.stats.keysRequested == s.c.stats.keysCoalesced + Sum(s.fetches, KeysSent()) &&
    s.c.stats.rpcCalls == |s.fetches| &&
    s.c.stats.keysRequested + s.c.stats.duplicateKeysSkipped == Sum(s.calls, KeysAsked())
  }

  ghost predicate Inv(s: State) {
    TracksOpen(s.c.inFlight, s.fetches) && FetchesOk(s.fetches, s.now) && CallsOk(s.calls, s.fetches, s.now) && CountsOk(s)
  }

  lemma {:induction false} PutAllFacts(m: seq<Binding<string, nat>>, ids: seq<string>, fetch: nat, id: string)
    requires DistinctKeys(m)
    ensures DistinctKeys(PutAll(m, ids, fetch))
    ensures Lookup(PutAll(m, ids, fetch), id) == if id in ids then Some(fetch) else Lookup(m, id)
    decreases |ids|
  {
    if ids != [] {
      PutThenLookup(m, ids[0], fetch, id);
      PutAllFacts(Put(m, ids[0], fetch), ids[1..], fetch, id);
      assert ids == [ids[0]] + ids[1..];
    }
  }

  lemma {:induction false} IssuedFacts(ids: seq<string>, fetch: nat)
    ensures Ids(Issued(ids, fetch)) == ids
    ensures forall w :: w in Issued(ids, fetch) ==> w.fetch == fetch && w.id in ids
  {
    if ids != [] {
      IssuedFacts(ids[1..], fetch);
      var rest := Issued(ids[1..], fetch);
      assert ([Wait(ids[0], fetch)] + rest)[1..] == rest;
      assert ids == [ids[0]] + ids[1..];
    }
  }

  function IsInFlight(m: seq<Binding<string, nat>>): string -> bool { (id: string) => Lookup(m, id).Some? }

  lemma {:induction false} JoinsFacts(m: seq<Binding<string, nat>>, ids: seq<string>)
    ensures Ids(Joins(m, ids)) == Filter(ids, IsInFlight(m))
    ensures forall w :: w in Joins(m, ids) ==> Lookup(m, w.id) == Some(w.fetch) && w.id in ids
    ensures |Joins(m, ids)| + |ToFetch(m, ids)| == |ids|
  {
    if ids != [] {
      JoinsFacts(m, ids[1..]);
      var rest := Joins(m, ids[1..]);
      var pending := Lookup(m, ids[0]);
      if pending.Some? {
        assert ([Wait(ids[0], pending.value)] + rest)[1..] == rest;
      } else {
        assert [] + rest == rest;
      }
      assert ids == [ids[0]] + ids[1..];
    }
  }

  lemma {:induction false} IdsAppend(a: seq<Wait>, b: seq<Wait>)
    ensures Ids(a + b) == Ids(a) + Ids(b)
  {
    if a == [] {
      assert a + b == b && [] + Ids(b) == Ids(b);
    } else {
      assert (a + b)[1..] == a[1..] + b;
      IdsAppend(a[1..], b);
      ConcatAssoc([a[0].id], Ids(a[1..]), Ids(b));
    }
  }

  /** A request waits exactly once for each distinct key: on the fetch that holds it unreleased, if there
      is one, and otherwise on a new fetch that includes it. */
  lemma WaitsFacts(c: Coalescer, ids: seq<string>, fetch: nat)
    ensures Distinct(Ids(Waits(c, ids, fetch)))
    ensures forall id :: id in Ids(Waits(c, ids, fetch)) <==> id in ids
    ensures forall id :: id in Sent(c, ids) <==> id in ids && Lookup(c.inFlight, id).None?
    ensures forall w :: w in Waits(c, ids, fetch) ==>
      w.id in ids && Some(w.fetch) == (if w.id in Sent(c, ids) then Some(fetch) else Lookup(c.inFlight, w.id))
    ensures Distinct(Sent(c, ids))
  {
    var m, u := c.inFlight, Unique(ids);
    forall id ensures Distinct(u) && (id in u <==> id in ids) {
      AddNewFacts([], ids, id);
    }
    JoinsFacts(m, u);
    IssuedFacts(Sent(c, ids), fetch);
    IdsAppend(Joins(m, u), Issued(Sent(c, ids), fetch));
    FilterMembers(u, IsInFlight(m));
    FilterMembers(u, NotInFlight(m));
    FilterDistinct(u, IsInFlight(m));
    FilterDistinct(u, NotInFlight(m));
    DistinctConcat(Filter(u, IsInFlight(m)), Sent(c, ids));
  }

  lemma RequestTracksOne(s: State, ids: seq<string>, id: string, f: nat)
    requires Inv(s)
    ensures var t := Step(s, Request(ids)); Lookup(t.c.inFlight, id) == Some(f) <==> Open(t.fetches, id, f)
  {
    var t := Step(s, Request(ids));
    WaitsFacts(s.c, ids, |s.fetches|);
    PutAllFacts(s.c.inFlight, Sent(s.c, ids), |s.fetches|, id);
    assert Lookup(s.c.inFlight, id) == Some(f) <==> Open(s.fetches, id, f);
    if f < |s.fetches| {
      assert t.fetches[f] == s.fetches[f];
    } else {
      assert Lookup(s.c.inFlight, id) != Some(f);
      assert Open(t.fetches, id, f) <==> f == |s.fetches| && id in Sent(s.c, ids);
    }
  }

  lemma RequestTracks(s: State, ids: seq<string>)
    requires Inv(s)
    ensures TracksOpen(Step(s, Request(ids)).c.inFlight, Step(s, Request(ids)).fetches)
  {
    var t := Step(s, Request(ids));
    forall id, f: nat ensures Lookup(t.c.inFlight, id) == Some(f) <==> Open(t.fetches, id, f) {
      RequestTracksOne(s, ids, id, f);
    }
    PutAllFacts(s.c.inFlight, Sent(s.c, ids), |s.fetches|, "");
  }

  lemma RequestCalls(s: State, ids: seq<string>)
    requires Inv(s)
    ensures CallsOk(Step(s, Request(ids)).calls, Step(s, Request(ids)).fetches, s.now + 1)
    ensures FetchesOk(Step(s, Request(ids)).fetches, s.now + 1)
  {
    var t := Step(s, Request(ids));
    var waits := Waits(s.c, ids, |s.fetches|);
    WaitsFacts(s.c, ids, |s.fetches|);
    forall f | f in t.fetches ensures FetchOk(f, s.now + 1) {
      if f in s.fetches {
        assert FetchOk(f, s.now);
      }
    }
    forall w | w in waits ensures WaitOk(w, t.fetches, s.now) {
      if w.id !in Sent(s.c, ids) {
        assert Lookup(s.c.inFlight, w.id) == Some(w.fetch) && Open(s.fetches, w.id, w.fetch);
        assert FetchOk(s.fetches[w.fetch], s.now);
        assert t.fetches[w.fetch] == s.fetches[w.fetch];
      }
    }
    forall c | c in t.calls ensures CallOk(c, t.fetches, s.now + 1) {
      if c in s.calls {
        assert CallOk(c, s.fetches, s.now);
        forall w | w in c.waits ensures WaitOk(w, t.fetches, c.at) {
          assert WaitOk(w, s.fetches, c.at) && t.fetches[w.fetch] == s.fetches[w.fetch];
        }
      }
    }
  }

  lemma RequestCounts(s: State, ids: seq<string>)
    requires Inv(s)
    ensures CountsOk(Step(s, Request(ids)))
  {
    var t := Step(s, Request(ids));
    var sent := Sent(s.c, ids);
    JoinsFacts(s.c.inFlight, Unique(ids));
    SumAppend(s.calls, t.calls[|s.calls|..], KeysAsked());
    assert t.calls == s.calls + t.calls[|s.calls|..];
    SumSingle(t.calls[|s.calls|], KeysAsked());
    if sent == [] {
      assert t.fetches == s.fetches;
    } else {
      SumAppend(s.fetches, [t.fetches[|s.fetches|]], KeysSent());
      SumSingle(t.fetches[|s.fetches|], KeysSent());
    }
  }

  /** A fetch that changes without changing its keys or its time of issue leaves the calls and counts right. */
  lemma UpdateKeeps(s: State, f: nat, fetch: Fetch, c: Coalescer)
    requires Inv(s) && f < |s.fetches|
    requires fetch.ids == s.fetches[f].ids && fetch.issuedAt == s.fetches[f].issuedAt
    requires FetchOk(fetch, s.now + 1) && c.stats == s.c.stats
    requires TracksOpen(c.inFlight, s.fetches[f := fetch])
    ensures Inv(State(c, s.fetches[f := fetch], s.calls, s.now + 1))
  {
    var fetches := s.fetches[f := fetch];
    SumUpdate(s.fetches, f, fetch, KeysSent());
    forall g | g in fetches ensures FetchOk(g, s.now + 1) {
      if g != fetch {
        assert g in s.fetches;
        assert FetchOk(g, s.now);
      }
    }
    forall call | call in s.calls ensures CallOk(call, fetches, s.now + 1) {
      assert CallOk(call, s.fetches, s.now);
      forall w | w in call.waits ensures WaitOk(w, fetches, call.at) {
        assert WaitOk(w, s.fetches, call.at);
      }
    }
  }

  lemma ReleaseTracks(s: State, id: string, f: nat)
    requires Inv(s) && Enabled(s, Release(id, f))
    ensures Lookup(s.c.inFlight, id) == Some(f)
    ensures TracksOpen(Step(s, Release(id, f)).c.inFlight, Step(s, Release(id, f)).fetches)
  {
    var t := Step(s, Release(id, f));
    assert Open(s.fetches, id, f);
    forall x, g: nat ensures Lookup(t.c.inFlight, x) == Some(g) <==> Open(t.fetches, x, g) {
      DeleteThenLookup(s.c.inFlight, id, x);
      assert Lookup(s.c.inFlight, x) == Some(g) <==> Open(s.fetches, x, g);
    }
    DeleteThenLookup(s.c.inFlight, id, id);
  }

  lemma StepKeepsInv(s: State, e: Event)
    requires Inv(s) && Enabled(s, e)
    ensures Inv(Step(s, e))
  {
    match e
    case Request(ids) =>
      RequestTracks(s, ids);
      RequestCalls(s, ids);
      RequestCounts(s, ids);
    case Release(id, f) =>
      ReleaseTracks(s, id, f);
      assert FetchOk(s.fetches[f], s.now);
      UpdateKeeps(s, f, Step(s, e).fetches[f], Released(s.c, id, f));
    case Read(f) =>
      QuietStep(s, e, f);
    case Settle(f, o) =>
      QuietStep(s, e, f);
  }

  lemma QuietStep(s: State, e: Event, f: nat)
    requires Inv(s) && Enabled(s, e) && (e == Read(f) || (e.Settle? && e.fetch == f))
    ensures Inv(Step(s, e))
  {
    var t := Step(s, e);
    assert FetchOk(s.fetches[f], s.now);
    forall id, g: nat ensures Lookup(s.c.inFlight, id) == Some(g) <==> Open(t.fetches, id, g) {
      assert Lookup(s.c.inFlight, id) == Some(g) <==> Open(s.fetches, id, g);
    }
    UpdateKeeps(s, f, t.fetches[f], s.c);
  }

  lemma {:induction false} ReachableInv(events: seq<Event>)
    ensures Inv(Run(events))
  {
    if events != [] {
      var s, e := Run(events[..|events| - 1]), events[|events| - 1];
      ReachableInv(events[..|events| - 1]);
      if Enabled(s, e) {
        StepKeepsInv(s, e);
      }
    }
  }

  // ---- What callers observe ----

  lemma EmptyIff(m: seq<Binding<string, nat>>, fetches: seq<Fetch>)
    requires TracksOpen(m, fetches)
    ensures m == [] <==> forall k :: 0 <= k < |fetches| ==> fetches[k].unreleased == {}
  {
    if m == [] {
      forall k | 0 <= k < |fetches| ensures fetches[k].unreleased == {} {
        forall x ensures x !in fetches[k].unreleased {
          assert Lookup(m, x) == Some(k) <==> Open(fetches, x, k);
        }
      }
    } else {
      LookupIff(m, m[0].key, m[0].value);
      assert Open(fetches, m[0].key, m[0].value);
    }
  }

  lemma OneUnreleased(s: State, id: string, f: nat, g: nat)
    requires Inv(s)
    ensures Open(s.fetches, id, f) && Open(s.fetches, id, g) ==> f == g
    ensures Enabled(s, Release(id, f)) ==> Lookup(s.c.inFlight, id) == Some(f)
    ensures s.c.inFlight == [] <==> forall k :: 0 <= k < |s.fetches| ==> s.fetches[k].unreleased == {}
  {
    assert Lookup(s.c.inFlight, id) == Some(f) <==> Open(s.fetches, id, f);
    assert Lookup(s.c.inFlight, id) == Some(g) <==> Open(s.fetches, id, g);
    EmptyIff(s.c.inFlight, s.fetches);
  }

  /** At most one fetch of a key is unreleased; the identity check in `release` never fails; the map is
      empty exactly when everything is released. */
  lemma OneFetchPerKey(events: seq<Event>, id: string, f: nat, g: nat)
    ensures var s := Run(events);
      (Open(s.fetches, id, f) && Open(s.fetches, id, g) ==> f == g) &&
      (Enabled(s, Release(id, f)) ==> Lookup(s.c.inFlight, id) == Some(f)) &&
      (s.c.inFlight == [] <==> forall k :: 0 <= k < |s.fetches| ==> s.fetches[k].unreleased == {})
  {
    ReachableInv(events);
    OneUnreleased(Run(events), id, f, g);
  }

  /** The counters account for every key: those asked for are duplicates, joins or keys sent. */
  lemma CountsBalance(events: seq<Event>)
    ensures CountsOk(Run(events))
  {
    ReachableInv(events);
  }

  /** Nothing outlives its release: a request joins the one fetch that has not released the key, and sends
      the key in a new fetch exactly when there is none. */
  lemma JoinsOnlyUnreleased(events: seq<Event>, ids: seq<string>, w: Wait)
    requires w in Waits(Run(events).c, ids, |Run(events).fetches|)
    ensures var s := Run(events);
      if exists f: nat :: Open(s.fetches, w.id, f) then Open(s.fetches, w.id, w.fetch)
      else w.fetch == |s.fetches| && w.id in Sent(s.c, ids)
  {
    var s := Run(events);
    ReachableInv(events);
    WaitsFacts(s.c, ids, |s.fetches|);
    if f: nat :| Open(s.fetches, w.id, f) {
      assert Lookup(s.c.inFlight, w.id) == Some(f);
    }
    if Lookup(s.c.inFlight, w.id).Some? {
      assert Open(s.fetches, w.id, Lookup(s.c.inFlight, w.id).value);
    }
  }

  predicate FailedFor(w: Wait, fetches: seq<Fetch>) { OutcomeOf(w, fetches) == Some(Failed) }

  /** The entry that the fetch brought for the key waited for, once it has succeeded. */
  predicate Brought(w: Wait, fetches: seq<Fetch>, e: Entry) {
    var o := OutcomeOf(w, fetches);
    o.Some? && o.value.Fetched? && ById(o.value.entries, w.id) == Some(e)
  }

  lemma {:induction false} CollectFacts(waits: seq<Wait>, fetches: seq<Fetch>)
    ensures Collect(waits, fetches).Rejected? <==> exists w :: w in waits && FailedFor(w, fetches)
    ensures Collect(waits, fetches).Resolved? <==>
      forall w :: w in waits ==> OutcomeOf(w, fetches).Some? && !FailedFor(w, fetches)
  {
    if waits != [] {
      CollectFacts(waits[1..], fetches);
      assert waits == [waits[0]] + waits[1..];
      assert forall w :: w in waits <==> w == waits[0] || w in waits[1..];
    }
  }

  lemma {:induction false} CollectEntries(waits: seq<Wait>, fetches: seq<Fetch>, e: Entry)
    requires Collect(waits, fetches).Resolved?
    ensures e in Collect(waits, fetches).entries <==> exists w :: w in waits && Brought(w, fetches, e)
  {
    if waits != [] {
      CollectEntries(waits[1..], fetches, e);
      assert waits == [waits[0]] + waits[1..];
      var rest := Collect(waits[1..], fetches);
      assert e in Collect(waits, fetches).entries <==> e in rest.entries || Brought(waits[0], fetches, e);
    }
  }

  /** A caller is rejected as soon as a fetch it waits on fails, and otherwise gets, for each key it asked
      for, exactly what the fetch it issued or joined brought for that key, and nothing else. */
  lemma AnswersExact(events: seq<Event>, i: nat)
    requires i < |Run(events).calls|
    ensures var s := Run(events);
      var call := s.calls[i];
      var a := AnswerTo(call, s.fetches);
      (a.Rejected? <==> exists w :: w in call.waits && FailedFor(w, s.fetches)) &&
      (a.Resolved? ==> forall e :: e in a.entries <==> exists w :: w in call.waits && Brought(w, s.fetches, e)) &&
      (forall id :: id in call.ids <==> exists w :: w in call.waits && w.id == id) &&
      (forall v, w :: v in call.waits && w in call.waits && v.id == w.id ==> v == w)
  {
    var s := Run(events);
    var call := s.calls[i];
    var a := AnswerTo(call, s.fetches);
    ReachableInv(events);
    assert CallOk(call, s.fetches, s.now);
    CollectFacts(call.waits, s.fetches);
    if a.Resolved? {
      forall e ensures e in a.entries <==> exists w :: w in call.waits && Brought(w, s.fetches, e) {
        CollectEntries(call.waits, s.fetches, e);
      }
    }
    forall id ensures id in call.ids <==> exists w :: w in call.waits && w.id == id {
      IdsMembers(call.waits, id);
    }
    forall v, w | v in call.waits && w in call.waits && v.id == w.id ensures v == w {
      IdsInjective(call.waits, v, w);
    }
  }

  function EntryIds(entries: seq<Entry>): seq<string> {
    if entries == [] then [] else [entries[0].id] + EntryIds(entries[1..])
  }

  lemma {:induction false} CollectInOrder(waits: seq<Wait>, fetches: seq<Fetch>)
    requires Collect(waits, fetches).Resolved?
    ensures Subsequence(EntryIds(Collect(waits, fetches).entries), Ids(waits))
  {
    if waits != [] {
      CollectInOrder(waits[1..], fetches);
      var rest := Collect(waits[1..], fetches).entries;
      var e := ById(OutcomeOf(waits[0], fetches).value.entries, waits[0].id);
      assert Ids(waits)[1..] == Ids(waits[1..]);
      if e.Some? {
        assert ([e.value] + rest)[1..] == rest;
        assert EntryIds([e.value] + rest)[1..] == EntryIds(rest);
      }
    }
  }

  /** An answer lists its entries in the order of the call's waits: first the keys joined, then those sent, each in the order
      they were asked for. */
  lemma AnswerInOrder(events: seq<Event>, ids: seq<string>)
    ensures var s, t := Run(events), Run(events + [Request(ids)]);
      |t.calls| == |s.calls| + 1 && t.calls[|s.calls|].ids == ids &&
      Ids(t.calls[|s.calls|].waits) ==
        Filter(Unique(ids), IsInFlight(s.c.inFlight)) + Filter(Unique(ids), NotInFlight(s.c.inFlight))
    ensures forall fetches ::
      var call := Run(events + [Request(ids)]).calls[|Run(events).calls|];
      AnswerTo(call, fetches).Resolved? ==> Subsequence(EntryIds(AnswerTo(call, fetches).entries), Ids(call.waits))
  {
    var s, t := Run(events), Run(events + [Request(ids)]);
    assert (events + [Request(ids)])[..|events|] == events;
    var call := t.calls[|s.calls|];
    var m, u := s.c.inFlight, Unique(ids);
    JoinsFacts(m, u);
    IssuedFacts(Sent(s.c, ids), |s.fetches|);
    IdsAppend(Joins(m, u), Issued(Sent(s.c, ids), |s.fetches|));
    forall fetches | AnswerTo(call, fetches).Resolved?
      ensures Subsequence(EntryIds(AnswerTo(call, fetches).entries), Ids(call.waits)) {
      CollectInOrder(call.waits, fetches);
    }
  }

  lemma {:induction false} IdsAt(waits: seq<Wait>, i: nat)
    requires i < |waits|
    ensures |Ids(waits)| == |waits| && Ids(waits)[i] == waits[i].id
  {
    if i > 0 {
      IdsAt(waits[1..], i - 1);
    } else if |waits| > 1 {
      IdsAt(waits[1..], 0);
    }
  }

  lemma IdsInjective(waits: seq<Wait>, v: Wait, w: Wait)
    requires Distinct(Ids(waits)) && v in waits && w in waits && v.id == w.id
    ensures v == w
  {
    var i :| 0 <= i < |waits| && waits[i] == v;
    var j :| 0 <= j < |waits| && waits[j] == w;
    IdsAt(waits, i);
    IdsAt(waits, j);
  }

  lemma {:induction false} IdsMembers(waits: seq<Wait>, id: string)
    ensures id in Ids(waits) <==> exists w :: w in waits && w.id == id
  {
    if waits != [] {
      IdsMembers(waits[1..], id);
      assert waits == [waits[0]] + waits[1..];
    }
  }

  /** An answer, once there, never changes. */
  lemma AnswersSettle(events: seq<Event>, e: Event, i: nat)
    requires i < |Run(events).calls|
    ensures var s, t := Run(events), Run(events + [e]);
      i < |t.calls| && t.calls[i] == s.calls[i] &&
      (AnswerTo(s.calls[i], s.fetches).Pending? || AnswerTo(t.calls[i], t.fetches) == AnswerTo(s.calls[i], s.fetches))
  {
    var s, t := Run(events), Run(events + [e]);
    assert (events + [e])[..|events|] == events;
    CollectSettles(s.calls[i].waits, s.fetches, t.fetches);
  }

  lemma {:induction false} CollectSettles(waits: seq<Wait>, a: seq<Fetch>, b: seq<Fetch>)
    requires forall w: Wait :: OutcomeOf(w, a).Some? ==> OutcomeOf(w, b) == OutcomeOf(w, a)
    ensures Collect(waits, a).Pending? || Collect(waits, b) == Collect(waits, a)
  {
    if waits != [] {
      CollectSettles(waits[1..], a, b);
      CollectFacts(waits, a);
      CollectFacts(waits, b);
    }
  }

  // ---- Against a ledger that keeps changing ----

  type History = nat -> map<string, string>

  function At(ledger: History, t: nat, id: string): Option<Entry> {
    if id in ledger(t) then Some(Entry(id, ledger(t)[id])) else None
  }

  ghost predicate TruthfulFetch(f: Fetch, ledger: History) {
    f.readAt.Some? && f.outcome.Some? && f.outcome.value.Fetched? ==>
      forall id :: id in f.ids ==> ById(f.outcome.value.entries, id) == At(ledger, f.readAt.value, id)
  }

  /** Successful fetches bring what the ledger held when it was read for them. */
  ghost predicate Truthful(s: State, ledger: History) {
    forall f :: f in s.fetches ==> TruthfulFetch(f, ledger)
  }

  /** The entry of `id` is the same all the way from `first` to `last`. */
  ghost predicate Steady(ledger: History, id: string, first: nat, last: nat) {
    forall t: nat :: first <= t <= last ==> At(ledger, t, id) == At(ledger, last, id)
  }

  /** The answer for `id` is what a read of the ledger at time `t` gives. */
  ghost predicate ReadsAs(entries: seq<Entry>, id: string, ledger: History, t: nat) {
    forall e: Entry :: e.id == id ==> (e in entries <==> At(ledger, t, id) == Some(e))
  }

  /** An entry that has been replaced does not come back. */
  ghost predicate NoReturn(ledger: History, id: string) {
    forall t: nat, u: nat, v: nat :: t < u < v && At(ledger, u, id) != At(ledger, t, id) ==> At(ledger, v, id) != At(ledger, t, id)
  }

  /** The answer for `id` is what a read of its own, made since `first`, could have brought. */
  ghost predicate Fresh(entries: seq<Entry>, id: string, ledger: History, first: nat, now: nat) {
    exists u: nat :: first <= u < now && ReadsAs(entries, id, ledger, u)
  }

  lemma SameReading(entries: seq<Entry>, id: string, ledger: History, t: nat, u: nat)
    requires ReadsAs(entries, id, ledger, t)
    ensures ReadsAs(entries, id, ledger, u) <==> At(ledger, u, id) == At(ledger, t, id)
  {
    if ReadsAs(entries, id, ledger, u) {
      assert At(ledger, t, id).Some? ==> At(ledger, t, id).value in entries;
      assert At(ledger, u, id).Some? ==> At(ledger, u, id).value in entries;
    }
  }

  /** An answer read at `t` is fresh for a call at `at` exactly when it was read since, or when the entry had not
      changed from the reading to the call. */
  lemma FreshIff(entries: seq<Entry>, id: string, ledger: History, t: nat, at: nat, now: nat)
    requires ReadsAs(entries, id, ledger, t) && t < now && at < now
    ensures t >= at || Steady(ledger, id, t, at) ==> Fresh(entries, id, ledger, at, now)
    ensures NoReturn(ledger, id) && Fresh(entries, id, ledger, at, now) ==> t >= at || Steady(ledger, id, t, at)
  {
    if t < at {
      SameReading(entries, id, ledger, t, at);
    }
    if NoReturn(ledger, id) && t < at && Fresh(entries, id, ledger, at, now) {
      var u: nat :| at <= u < now && ReadsAs(entries, id, ledger, u);
      SameReading(entries, id, ledger, t, u);
      assert forall v: nat :: t < v < u ==> At(ledger, v, id) == At(ledger, t, id);
    }
  }

  /** Every key of an answer holds what the ledger held when its fetch was read, at a time since the fetch was
      issued; for a key that the call sent itself that is since the call. It is what a read of its own
      could have brought exactly when the fetch was read since the call or the entry had not changed
      from the reading to the call. */
  lemma AgreesWithPlainRead(events: seq<Event>, i: nat, w: Wait, ledger: History) returns (t: nat)
    requires Truthful(Run(events), ledger)
    requires i < |Run(events).calls| && w in Run(events).calls[i].waits
    requires AnswerTo(Run(events).calls[i], Run(events).fetches).Resolved?
    ensures w.fetch < |Run(events).fetches| && Run(events).fetches[w.fetch].readAt == Some(t)
    ensures var s := Run(events);
      var call, issuedAt := s.calls[i], s.fetches[w.fetch].issuedAt;
      issuedAt < t < s.now && (issuedAt == call.at ==> t > call.at) &&
      ReadsAs(AnswerTo(call, s.fetches).entries, w.id, ledger, t)
    ensures var s := Run(events);
      var call := s.calls[i];
      (t >= call.at || Steady(ledger, w.id, t, call.at) ==> Fresh(AnswerTo(call, s.fetches).entries, w.id, ledger, call.at, s.now)) &&
      (NoReturn(ledger, w.id) && Fresh(AnswerTo(call, s.fetches).entries, w.id, ledger, call.at, s.now) ==>
        t >= call.at || Steady(ledger, w.id, t, call.at))
  {
    var s := Run(events);
    var call := s.calls[i];
    var a := AnswerTo(call, s.fetches);
    ReachableInv(events);
    AnswersExact(events, i);
    CollectFacts(call.waits, s.fetches);
    assert CallOk(call, s.fetches, s.now) && WaitOk(w, s.fetches, call.at);
    var f := s.fetches[w.fetch];
    assert FetchOk(f, s.now) && TruthfulFetch(f, ledger);
    t := f.readAt.value;
    forall e: Entry | e.id == w.id ensures e in a.entries <==> At(ledger, t, w.id) == Some(e) {
      assert Brought(w, s.fetches, e) <==> At(ledger, t, w.id) == Some(e);
    }
    FreshIff(a.entries, w.id, ledger, t, call.at, s.now);
  }

  const STALE_RUN: seq<Event> :=
    [Request(["key"]), Read(0), Request(["key"]), Settle(0, Fetched([Entry("key", "old")]))]

  /** A caller that joins after the read can be given an entry the ledger no longer held when it called,
      so joined reads are not always fresh. */
  lemma StaleJoin(ledger: History)
    requires forall t: nat :: ledger(t) == map["key" := if t < 2 then "old" else "new"]
    ensures var s := Run(STALE_RUN);
      Truthful(s, ledger) && |s.calls| == 2 && s.calls[1].at == 2 &&
      AnswerTo(s.calls[1], s.fetches) == Resolved([Entry("key", "old")]) &&
      forall u: nat :: u >= 2 ==> !ReadsAs([Entry("key", "old")], "key", ledger, u)
  {
    StaleRunEnd();
    var s := Run(STALE_RUN);
    assert ById([Entry("key", "old")], "key") == Some(Entry("key", "old"));
    assert Collect([Wait("key", 0)][1..], s.fetches) == Resolved([]);
    assert AnswerTo(s.calls[1], s.fetches) == Resolved([Entry("key", "old")]);
    assert TruthfulFetch(s.fetches[0], ledger);
    assert Entry("key", "old") in [Entry("key", "old")];
  }

  lemma StaleRunEnd()
    ensures var s := Run(STALE_RUN);
      s.fetches == [Fetch(["key"], 0, Some(1), Some(Fetched([Entry("key", "old")])), {"key"})] &&
      |s.calls| == 2 && s.calls[1] == Call(["key"], 2, [Wait("key", 0)])
  {
    FirstRequest();
    var s1 := Run([Request(["key"])]);
    var s2 := Run(STALE_RUN[..2]);
    assert STALE_RUN[..2][..1] == [Request(["key"])] && s2 == Step(s1, Read(0));
    SecondRequest(s2.c);
    assert STALE_RUN[..3][..2] == STALE_RUN[..2];
    var s3 := Run(STALE_RUN[..3]);
    assert s3 == Step(s2, Request(["key"])) && s3.fetches == s2.fetches && s3.now == 3;
  }

  lemma FirstRequest()
    ensures var s := Run([Request(["key"])]);
      s.fetches == [Fetch(["key"], 0, None, None, {"key"})] && s.now == 1 && |s.calls| == 1 &&
      s.c.inFlight == [Binding("key", 0)]
  {
    assert [Request(["key"])][..0] == [];
    OneKey();
    assert Sent(INITIAL.c, ["key"]) == ["key"];
    assert (set id | id in ["key"]) == {"key"};
    assert PutAll([], ["key"], 0) == PutAll(Put([], "key", 0), ["key"][1..], 0);
    assert Run([Request(["key"])]) == Step(INITIAL, Request(["key"]));
  }

  lemma OneKey()
    ensures Unique(["key"]) == ["key"]
  {
    assert AddNew([], ["key"]) == AddNew([] + ["key"], ["key"][1..]);
  }

  lemma SecondRequest(c: Coalescer)
    requires c.inFlight == [Binding("key", 0)]
    ensures Sent(c, ["key"]) == [] && Waits(c, ["key"], 1) == [Wait("key", 0)]
  {
    OneKey();
    assert Lookup(c.inFlight, "key") == Some(0);
    assert Joins(c.inFlight, ["key"]) == [Wait("key", 0)] + Joins(c.inFlight, ["key"][1..]);
  }
}
