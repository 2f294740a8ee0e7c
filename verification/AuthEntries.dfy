/** Authorization entries: the ledger keys their invocation trees need, and which to restore. */
module AuthEntries {
  import opened Seqs

  /** A contract, standing for the ledger key of its instance, which is built from its address alone. */
  type Contract = string

  /** An authorized invocation: the contract it calls, unless it is not a contract call, and its
      sub-invocations. */
  datatype Invocation = Invocation(contract: Option<Contract>, subInvocations: seq<Invocation>)

  datatype Entry = Entry(rootInvocation: Invocation)

  /** Each entry comes with the keys it depends on, or with those of them that are archived. */
  datatype Scan = Scan(valid: seq<(Entry, seq<Contract>)>, expired: seq<(Entry, seq<Contract>)>)

  // ---- Walking an invocation tree ----

  function Own(i: Invocation): seq<Contract> { if i.contract.Some? then [i.contract.value] else [] }

  /** The contracts of the tree, a call before its sub-calls. */
  function Walk(i: Invocation): seq<Contract> {
    Own(i) + WalkAll(i.subInvocations)
  }

  function WalkAll(calls: seq<Invocation>): seq<Contract> {
    if calls == [] then [] else Walk(calls[0]) + WalkAll(calls[1..])
  }

  /** The recursive walk, pushing onto a list it is given. */
  method WalkInto(i: Invocation, keys: seq<Contract>) returns (r: seq<Contract>)
    ensures r == keys + Walk(i)
    decreases i
  {
    r := keys;
    if i.contract.Some? {
      r := r + [i.contract.value];
    }
    var subs := i.subInvocations;
    assert r + WalkAll(subs[0..]) == keys + (Own(i) + WalkAll(subs)) by {
      ConcatAssoc(keys, Own(i), WalkAll(subs));
      assert subs[0..] == subs && keys + [] == keys;
    }
    for n := 0 to |subs|
      invariant r + WalkAll(subs[n..]) == keys + Walk(i)
    {
      assert subs[n..][0] == subs[n] && subs[n..][1..] == subs[n + 1..];
      ConcatAssoc(r, Walk(subs[n]), WalkAll(subs[n + 1..]));
      r := WalkInto(subs[n], r);
    }
    assert r + [] == r;
  }

  /** `c` is called by `i` or somewhere beneath it. */
  ghost predicate Calls(i: Invocation, c: Contract) {
    i.contract == Some(c) || exists n :: 0 <= n < |i.subInvocations| && Calls(i.subInvocations[n], c)
  }

  /** The walk visits exactly what is called in the tree. */
  lemma {:induction false} WalkFindsCalls(i: Invocation, c: Contract)
    ensures c in Walk(i) <==> Calls(i, c)
    decreases i, 1, 0
  {
    WalkAllFindsCalls(i, i.subInvocations, c);
  }

  lemma {:induction false} WalkAllFindsCalls(parent: Invocation, calls: seq<Invocation>, c: Contract)
    requires forall i :: i in calls ==> i < parent
    ensures c in WalkAll(calls) <==> exists n :: 0 <= n < |calls| && Calls(calls[n], c)
    decreases parent, 0, |calls|
  {
    if calls != [] {
      assert calls[0] in calls && forall i :: i in calls[1..] ==> i in calls;
      WalkFindsCalls(calls[0], c);
      WalkAllFindsCalls(parent, calls[1..], c);
      if n :| 0 <= n < |calls[1..]| && Calls(calls[1..][n], c) {
        assert calls[n + 1] == calls[1..][n];
      }
      if n :| 0 <= n < |calls| && Calls(calls[n], c) {
        assert n > 0 ==> calls[1..][n - 1] == calls[n];
      }
    }
  }

  // ---- Scanning ----

  function IsIn(archived: set<Contract>): Contract -> bool { (c: Contract) => c in archived }

  function Expired(e: Entry, archived: set<Contract>): seq<Contract> {
    Filter(Walk(e.rootInvocation), IsIn(archived))
  }

  function Detect(entries: seq<Entry>, archived: set<Contract>): Scan {
    if entries == [] then Scan([], [])
    else
      var e, rest := entries[0], Detect(entries[1..], archived);
      if Expired(e, archived) != [] then rest.(expired := [(e, Expired(e, archived))] + rest.expired)
      else rest.(valid := [(e, Walk(e.rootInvocation))] + rest.valid)
  }

  method DetectLoop(entries: seq<Entry>, archived: set<Contract>) returns (scan: Scan)
    ensures scan == Detect(entries, archived)
  {
    var valid: seq<(Entry, seq<Contract>)> := [];
    var expired: seq<(Entry, seq<Contract>)> := [];
    ghost var whole := Detect(entries, archived);
    for n := 0 to |entries|
      invariant var rest := Detect(entries[n..], archived);
        whole.valid == valid + rest.valid && whole.expired == expired + rest.expired
    {
      var e := entries[n];
      assert entries[n..][0] == e && entries[n..][1..] == entries[n + 1..];
      ghost var rest := Detect(entries[n + 1..], archived);
      var keys := WalkInto(e.rootInvocation, []);
      assert [] + Walk(e.rootInvocation) == Walk(e.rootInvocation);
      var expiredKeys := Filter(keys, IsIn(archived));
      ConcatAssoc(expired, [(e, expiredKeys)], rest.expired);
      ConcatAssoc(valid, [(e, keys)], rest.valid);
      if |expiredKeys| > 0 {
        expired := expired + [(e, expiredKeys)];
      } else {
        valid := valid + [(e, keys)];
      }
    }
    scan := Scan(valid, expired);
  }

  function NoneExpired(archived: set<Contract>): Entry -> bool { (e: Entry) => Expired(e, archived) == [] }

  function SomeExpired(archived: set<Contract>): Entry -> bool { (e: Entry) => Expired(e, archived) != [] }

  function Entries(scanned: seq<(Entry, seq<Contract>)>): seq<Entry>
    decreases |scanned|
  {
    if scanned == [] then [] else [scanned[0].0] + Entries(scanned[1..])
  }

  lemma EntriesCons(e: Entry, keys: seq<Contract>, rest: seq<(Entry, seq<Contract>)>)
    ensures Entries([(e, keys)] + rest) == [e] + Entries(rest)
  {
    assert ([(e, keys)] + rest)[1..] == rest;
  }

  lemma MultisetCons(e: Entry, rest: seq<Entry>)
    ensures multiset([e] + rest) == multiset{e} + multiset(rest)
  {
  }

  /** The scan splits the entries in two, in order, by whether any archived contract is called in them. */
  lemma {:induction false} DetectPartitions(entries: seq<Entry>, archived: set<Contract>)
    ensures Entries(Detect(entries, archived).valid) == Filter(entries, NoneExpired(archived))
    ensures Entries(Detect(entries, archived).expired) == Filter(entries, SomeExpired(archived))
  {
    if entries != [] {
      var e, rest := entries[0], Detect(entries[1..], archived);
      DetectPartitions(entries[1..], archived);
      EntriesCons(e, Expired(e, archived), rest.expired);
      EntriesCons(e, Walk(e.rootInvocation), rest.valid);
    }
  }

  /** Each entry ends up on one side, as often as it was given. */
  lemma {:induction false} DetectConserves(entries: seq<Entry>, archived: set<Contract>)
    ensures multiset(Entries(Detect(entries, archived).valid)) + multiset(Entries(Detect(entries, archived).expired))
      == multiset(entries)
  {
    if entries != [] {
      var e, rest := entries[0], Detect(entries[1..], archived);
      DetectConserves(entries[1..], archived);
      assert entries == [e] + entries[1..];
      MultisetCons(e, entries[1..]);
      if Expired(e, archived) != [] {
        EntriesCons(e, Expired(e, archived), rest.expired);
        MultisetCons(e, Entries(rest.expired));
      } else {
        EntriesCons(e, Walk(e.rootInvocation), rest.valid);
        MultisetCons(e, Entries(rest.valid));
      }
    }
  }

  lemma ExpiredIff(e: Entry, archived: set<Contract>, c: Contract)
    ensures c in Expired(e, archived) <==> c in archived && Calls(e.rootInvocation, c)
  {
    FilterMembers(Walk(e.rootInvocation), IsIn(archived));
    WalkFindsCalls(e.rootInvocation, c);
  }

  /** How often `c` is called in the tree. */
  function CallCount(i: Invocation, c: Contract): nat {
    (if i.contract == Some(c) then 1 else 0) + CallCountAll(i.subInvocations, c)
  }

  function CallCountAll(calls: seq<Invocation>, c: Contract): nat {
    if calls == [] then 0 else CallCount(calls[0], c) + CallCountAll(calls[1..], c)
  }

  /** The walk lists every call as often as it occurs, the root's own first. */
  lemma {:induction false} WalkCounts(i: Invocation, c: Contract)
    ensures multiset(Walk(i))[c] == CallCount(i, c)
    ensures i.contract.Some? ==> Walk(i)[0] == i.contract.value
    decreases i, 1, 0
  {
    WalkAllCounts(i, i.subInvocations, c);
    assert multiset(Walk(i)) == multiset(Own(i)) + multiset(WalkAll(i.subInvocations));
  }

  lemma {:induction false} WalkAllCounts(parent: Invocation, calls: seq<Invocation>, c: Contract)
    requires forall i :: i in calls ==> i < parent
    ensures multiset(WalkAll(calls))[c] == CallCountAll(calls, c)
    decreases parent, 0, |calls|
  {
    if calls != [] {
      assert calls[0] in calls && forall i :: i in calls[1..] ==> i in calls;
      WalkCounts(calls[0], c);
      WalkAllCounts(parent, calls[1..], c);
      assert multiset(WalkAll(calls)) == multiset(Walk(calls[0])) + multiset(WalkAll(calls[1..]));
    }
  }

  ghost predicate CarriesCalls(scanned: (Entry, seq<Contract>), archived: set<Contract>, c: Contract) {
    (c in scanned.1 <==> Calls(scanned.0.rootInvocation, c)) && (c in scanned.1 ==> c !in archived)
  }

  ghost predicate CarriesArchived(scanned: (Entry, seq<Contract>), archived: set<Contract>, c: Contract) {
    c in scanned.1 <==> c in archived && Calls(scanned.0.rootInvocation, c)
  }

  /** How much of the walk comes before sub-invocation `n`. */
  function WalkedBefore(calls: seq<Invocation>, n: nat): nat
    requires n <= |calls|
  {
    if n == 0 then 0 else |Walk(calls[0])| + WalkedBefore(calls[1..], n - 1)
  }

  lemma ShiftedSlice(a: seq<Contract>, b: seq<Contract>, lo: nat, hi: nat)
    requires lo <= hi <= |b|
    ensures (a + b)[|a| + lo..|a| + hi] == b[lo..hi]
  {
  }

  /** The walk of each sub-invocation is one stretch, which starts where that of the one before it ends. */
  lemma {:induction false} WalkAllInOrder(calls: seq<Invocation>, n: nat)
    requires n < |calls|
    ensures var lo := WalkedBefore(calls, n); var hi := lo + |Walk(calls[n])|;
      hi <= |WalkAll(calls)| && WalkAll(calls)[lo..hi] == Walk(calls[n])
    decreases n
  {
    var first, rest := Walk(calls[0]), WalkAll(calls[1..]);
    assert WalkAll(calls) == first + rest;
    if n > 0 {
      WalkAllInOrder(calls[1..], n - 1);
      assert calls[1..][n - 1] == calls[n];
      var lo := WalkedBefore(calls[1..], n - 1);
      ShiftedSlice(first, rest, lo, lo + |Walk(calls[n])|);
    }
  }

  /** What comes with the entries: with a valid one every contract called in it, none of them archived, and with an expired
      one those that are archived. */
  lemma {:induction false} ScanCarries(entries: seq<Entry>, archived: set<Contract>, c: Contract)
    ensures forall x :: x in Detect(entries, archived).valid ==> CarriesCalls(x, archived, c)
    ensures forall x :: x in Detect(entries, archived).expired ==> CarriesArchived(x, archived, c)
  {
    if entries != [] {
      var e := entries[0];
      ScanCarries(entries[1..], archived, c);
      ExpiredIff(e, archived, c);
      WalkFindsCalls(e.rootInvocation, c);
      assert Expired(e, archived) == [] ==> CarriesCalls((e, Walk(e.rootInvocation)), archived, c);
      assert CarriesArchived((e, Expired(e, archived)), archived, c);
    }
  }

  // ---- What to restore ----

  function KeysFrom(keys: seq<Contract>, expired: seq<(Entry, seq<Contract>)>): seq<Contract>
    decreases |expired|
  {
    if expired == [] then keys else KeysFrom(AddNew(keys, expired[0].1), expired[1..])
  }

  function KeysToRestore(scan: Scan): seq<Contract> { KeysFrom([], scan.expired) }

  method KeysToRestoreLoop(scan: Scan) returns (keys: seq<Contract>)
    ensures keys == KeysToRestore(scan)
  {
    var seen: set<Contract> := {};
    keys := [];
    for n := 0 to |scan.expired|
      invariant KeysFrom(keys, scan.expired[n..]) == KeysToRestore(scan)
      invariant forall c :: c in seen <==> c in keys
    {
      var expiredKeys := scan.expired[n].1;
      ghost var before := keys;
      assert scan.expired[n..][0] == scan.expired[n] && scan.expired[n..][1..] == scan.expired[n + 1..];
      for m := 0 to |expiredKeys|
        invariant AddNew(keys, expiredKeys[m..]) == AddNew(before, expiredKeys)
        invariant forall c :: c in seen <==> c in keys
      {
        assert expiredKeys[m..][0] == expiredKeys[m] && expiredKeys[m..][1..] == expiredKeys[m + 1..];
        if expiredKeys[m] !in seen {
          seen := seen + {expiredKeys[m]};
          keys := keys + [expiredKeys[m]];
        }
      }
    }
  }

  lemma {:induction false} KeysFromFacts(keys: seq<Contract>, expired: seq<(Entry, seq<Contract>)>, c: Contract)
    requires Distinct(keys)
    ensures Distinct(KeysFrom(keys, expired))
    ensures c in KeysFrom(keys, expired) <==> c in keys || exists n :: 0 <= n < |expired| && c in expired[n].1
    decreases |expired|
  {
    if expired != [] {
      AddNewFacts(keys, expired[0].1, c);
      KeysFromFacts(AddNew(keys, expired[0].1), expired[1..], c);
      if n :| 0 <= n < |expired[1..]| && c in expired[1..][n].1 {
        assert expired[n + 1] == expired[1..][n];
      }
      if n :| 0 <= n < |expired| && c in expired[n].1 {
        assert n > 0 ==> expired[1..][n - 1] == expired[n];
      }
    }
  }

  lemma {:induction false} ExpiredSomewhere(entries: seq<Entry>, archived: set<Contract>, c: Contract)
    ensures var scan := Detect(entries, archived);
      (exists n :: 0 <= n < |scan.expired| && c in scan.expired[n].1) <==>
        exists n :: 0 <= n < |entries| && c in Expired(entries[n], archived)
  {
    if entries != [] {
      var e, rest := entries[0], Detect(entries[1..], archived);
      var scan := Detect(entries, archived);
      ExpiredSomewhere(entries[1..], archived, c);
      if n :| 0 <= n < |rest.expired| && c in rest.expired[n].1 {
        assert scan.expired[if Expired(e, archived) != [] then n + 1 else n] == rest.expired[n];
      }
      if n :| 0 <= n < |entries[1..]| && c in Expired(entries[1..][n], archived) {
        assert entries[n + 1] == entries[1..][n];
      }
      if n :| 0 <= n < |entries| && c in Expired(entries[n], archived) {
        assert n > 0 ==> entries[1..][n - 1] == entries[n];
        assert n == 0 ==> scan.expired[0].1 == Expired(e, archived);
      }
      if n :| 0 <= n < |scan.expired| && c in scan.expired[n].1 {
        assert Expired(e, archived) != [] && n > 0 ==> rest.expired[n - 1] == scan.expired[n];
      }
    }
  }

  /** The keys to restore are listed once each and are exactly the archived contracts called somewhere
      in some entry. */
  lemma KeysExact(entries: seq<Entry>, archived: set<Contract>, c: Contract)
    ensures Distinct(KeysToRestore(Detect(entries, archived)))
    ensures c in KeysToRestore(Detect(entries, archived)) <==>
      (c in archived && exists n :: 0 <= n < |entries| && Calls(entries[n].rootInvocation, c))
  {
    KeysFromFacts([], Detect(entries, archived).expired, c);
    ExpiredSomewhere(entries, archived, c);
    forall n | 0 <= n < |entries|
      ensures c in Expired(entries[n], archived) <==> c in archived && Calls(entries[n].rootInvocation, c)
    {
      ExpiredIff(entries[n], archived, c);
    }
  }

  /** Restoring them is enough: a scan with those keys no longer archived finds every entry valid. */
  lemma RestoreIsFixpoint(entries: seq<Entry>, archived: set<Contract>)
    ensures var restored := set c | c in KeysToRestore(Detect(entries, archived));
      Detect(entries, archived - restored).expired == [] &&
      Entries(Detect(entries, archived - restored).valid) == entries
  {
    var restored := set c | c in KeysToRestore(Detect(entries, archived));
    forall n | 0 <= n < |entries| ensures Expired(entries[n], archived - restored) == [] {
      var left := Expired(entries[n], archived - restored);
      if left != [] {
        ExpiredIff(entries[n], archived - restored, left[0]);
        KeysExact(entries, archived, left[0]);
        assert false;
      }
    }
    NothingExpired(entries, archived - restored);
  }

  lemma {:induction false} NothingExpired(entries: seq<Entry>, archived: set<Contract>)
    requires forall n :: 0 <= n < |entries| ==> Expired(entries[n], archived) == []
    ensures Detect(entries, archived).expired == [] && Entries(Detect(entries, archived).valid) == entries
  {
    if entries != [] {
      assert forall n :: 0 <= n < |entries| - 1 ==> entries[1..][n] == entries[n + 1];
      NothingExpired(entries[1..], archived);
      EntriesCons(entries[0], Walk(entries[0].rootInvocation), Detect(entries[1..], archived).valid);
      assert entries == [entries[0]] + entries[1..];
    }
  }
}
