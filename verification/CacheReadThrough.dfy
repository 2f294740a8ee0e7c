/** The cache as `simulate` uses it, looked up and filled on a miss, and what a larger capacity then does. */
module CacheReadThrough {
  import opened Seqs
  import opened LruModel

  datatype Request<V> = Request(key: string, value: V, now: int)

  /** One request: a hit is answered, a miss fetches the value and sets it. */
  function Serve<V(!new)>(c: Lru<V>, r: Request<V>): Lru<V> {
    var looked := Next(c, Op<V>.Get(r.key, r.now));
    if Hit(c, r.key, r.now) then looked else Next(looked, Op<V>.Set(r.key, r.value, r.now))
  }

  function ServeAll<V(!new)>(c: Lru<V>, rs: seq<Request<V>>): Lru<V> {
    if rs == [] then c else Serve(ServeAll(c, rs[..|rs| - 1]), rs[|rs| - 1])
  }

  function KeysOf<V>(lines: seq<Line<V>>): (ks: seq<string>)
    ensures |ks| == |lines|
    ensures forall i :: 0 <= i < |ks| ==> ks[i] == lines[i].key
  {
    if lines == [] then [] else [lines[0].key] + KeysOf(lines[1..])
  }

  function IsNot(key: string): string -> bool { (k: string) => k != key }

  /** What a request does to the keys, whether or not the line it finds has expired. */
  function Refer(ks: seq<string>, capacity: nat, key: string): seq<string> {
    if key in ks then Filter(ks, IsNot(key)) + [key]
    else (if |ks| >= capacity && ks != [] then ks[1..] else ks) + [key]
  }

  lemma {:induction false} WithoutKeys<V(!new)>(lines: seq<Line<V>>, key: string)
    ensures KeysOf(Without(lines, key)) == Filter(KeysOf(lines), IsNot(key))
  {
    if lines != [] {
      WithoutKeys(lines[1..], key);
      var rest := Without(lines[1..], key);
      assert KeysOf([lines[0]] + rest) == [lines[0].key] + KeysOf(rest) by {
        assert ([lines[0]] + rest)[1..] == rest;
      }
      assert KeysOf(lines)[1..] == KeysOf(lines[1..]);
    }
  }

  lemma KeysSnoc<V>(lines: seq<Line<V>>, l: Line<V>)
    ensures KeysOf(lines + [l]) == KeysOf(lines) + [l.key]
  {
  }

  lemma FindKey<V>(lines: seq<Line<V>>, key: string)
    ensures Find(lines, key).Some? <==> key in KeysOf(lines)
  {
    if key in KeysOf(lines) {
      var i :| 0 <= i < |lines| && KeysOf(lines)[i] == key;
      assert lines[i].key == key;
    }
    if Find(lines, key).Some? {
      var i :| 0 <= i < |lines| && lines[i] == Find(lines, key).value;
      assert KeysOf(lines)[i] == key;
    }
  }

  lemma {:induction false} WithoutAbsent<V(!new)>(lines: seq<Line<V>>, key: string)
    requires Find(lines, key).None?
    ensures Without(lines, key) == lines
  {
    if lines != [] {
      WithoutAbsent(lines[1..], key);
    }
  }

  lemma {:induction false} WithoutPresent<V(!new)>(lines: seq<Line<V>>, key: string)
    ensures Find(Without(lines, key), key).None?
    ensures Find(lines, key).Some? ==> |Without(lines, key)| < |lines|
    ensures |Without(lines, key)| <= |lines|
  {
    if lines != [] {
      WithoutPresent(lines[1..], key);
    }
  }

  /** The lines a request leaves. */
  function Served<V(!new)>(c: Lru<V>, r: Request<V>): seq<Line<V>> {
    var found := Find(c.lines, r.key);
    var fetched := Line(r.key, r.value, r.now + c.ttlMs);
    if found.None? then (if |c.lines| >= c.capacity && c.lines != [] then c.lines[1..] else c.lines) + [fetched]
    else Without(c.lines, r.key) + [if r.now <= found.value.expiresAt then found.value else fetched]
  }

  lemma ServeLines<V(!new)>(c: Lru<V>, r: Request<V>)
    requires |c.lines| <= c.capacity
    ensures Serve(c, r).lines == Served(c, r)
    ensures Serve(c, r).capacity == c.capacity && Serve(c, r).ttlMs == c.ttlMs
  {
    if !Hit(c, r.key, r.now) {
      var rest := Without(c.lines, r.key);
      var looked := Next(c, Op<V>.Get(r.key, r.now));
      assert looked.lines == rest + [] == rest;
      WithoutPresent(c.lines, r.key);
      WithoutAbsent(rest, r.key);
      if Find(c.lines, r.key).None? {
        WithoutAbsent(c.lines, r.key);
      }
    }
  }

  /** A request moves its key to the end, and makes room for a new one. */
  lemma ServeRefers<V(!new)>(c: Lru<V>, r: Request<V>)
    requires |c.lines| <= c.capacity
    ensures KeysOf(Serve(c, r).lines) == Refer(KeysOf(c.lines), c.capacity, r.key)
    ensures Serve(c, r).capacity == c.capacity && Serve(c, r).ttlMs == c.ttlMs
  {
    ServeLines(c, r);
    FindKey(c.lines, r.key);
    WithoutKeys(c.lines, r.key);
    var lines := Served(c, r);
    var last := |lines| - 1;
    KeysSnoc(lines[..last], lines[last]);
    assert lines == lines[..last] + [lines[last]] && lines[last].key == r.key;
  }

  // ---- Two capacities ----

  ghost predicate Suffix(a: seq<string>, b: seq<string>) {
    |a| <= |b| && b[|b| - |a|..] == a
  }

  /** The smaller cache holds the last keys of the larger, as many as it can. */
  ghost predicate Stacked(ks: seq<string>, kl: seq<string>, small: nat, large: nat) {
    Suffix(ks, kl) && |kl| <= large && |ks| == (if |kl| <= small then |kl| else small) && Distinct(kl)
  }

  lemma {:induction false} FilterAbsent(s: seq<string>, key: string)
    requires key !in s
    ensures Filter(s, IsNot(key)) == s
  {
    if s != [] {
      FilterAbsent(s[1..], key);
    }
  }

  lemma {:induction false} FilterOnce(s: seq<string>, key: string)
    requires Distinct(s) && key in s
    ensures |Filter(s, IsNot(key))| == |s| - 1
  {
    if s[0] == key {
      FilterAbsent(s[1..], key);
    } else {
      assert s == [s[0]] + s[1..];
      FilterOnce(s[1..], key);
    }
  }

  lemma ReferDistinct(kl: seq<string>, large: nat, key: string)
    requires Distinct(kl) && |kl| <= large && 1 <= large
    ensures Distinct(Refer(kl, large, key)) && |Refer(kl, large, key)| <= large
    ensures |Refer(kl, large, key)| == if key in kl then |kl| else if |kl| >= large then |kl| else |kl| + 1
  {
    FilterMembers(kl, IsNot(key));
    FilterDistinct(kl, IsNot(key));
    if key in kl {
      FilterOnce(kl, key);
      DistinctConcat(Filter(kl, IsNot(key)), [key]);
    } else {
      var rest := if |kl| >= large && kl != [] then kl[1..] else kl;
      assert forall x :: x in rest ==> x in kl;
      DistinctConcat(rest, [key]);
    }
  }

  lemma SuffixOf(a: seq<string>, b: seq<string>, older: seq<string>)
    requires b == older + a
    ensures Suffix(a, b)
  {
  }

  lemma ReferStaysSuffix(ks: seq<string>, older: seq<string>, small: nat, large: nat, key: string)
    requires 1 <= small <= large && Distinct(older + ks) && |older + ks| <= large
    requires |ks| == small || (older == [] && |ks| < small)
    ensures Suffix(Refer(ks, small, key), Refer(older + ks, large, key))
  {
    FilterAppend(older, ks, IsNot(key));
    if key in ks {
      var j :| 0 <= j < |ks| && ks[j] == key;
      forall i | 0 <= i < |older| ensures older[i] != key {
        assert (older + ks)[i] != (older + ks)[|older| + j];
      }
      FilterAbsent(older, key);
      ConcatAssoc(older, Filter(ks, IsNot(key)), [key]);
      SuffixOf(Refer(ks, small, key), Refer(older + ks, large, key), older);
    } else if older == [] && |ks| < small {
      assert older + ks == ks;
      SuffixOf(Refer(ks, small, key), Refer(older + ks, large, key), []);
    } else {
      assert ks == [ks[0]] + ks[1..];
      FilterAbsent(ks, key);
      var rest := if key in older then Filter(older, IsNot(key)) else if |older + ks| < large then older
        else if older == [] then [] else older[1..];
      AppendedSuffix(ks, older, large, key, rest);
    }
  }

  lemma AppendedSuffix(ks: seq<string>, older: seq<string>, large: nat, key: string, rest: seq<string>)
    requires ks != [] && key !in ks && Filter(older + ks, IsNot(key)) == Filter(older, IsNot(key)) + ks
    requires 1 <= large && |older + ks| <= large
    requires rest == if key in older then Filter(older, IsNot(key)) else if |older + ks| < large then older
      else if older == [] then [] else older[1..]
    ensures Suffix(ks[1..] + [key], Refer(older + ks, large, key))
  {
    assert key in older + ks <==> key in older;
    if key in older || |older + ks| < large {
      assert Refer(older + ks, large, key) == (rest + ks) + [key];
      SuffixAfter(rest, ks, key);
    } else if older == [] {
      assert older + ks == ks;
      SuffixOf(ks[1..] + [key], Refer(older + ks, large, key), []);
    } else {
      DropFirst(older, ks);
      SuffixAfter(rest, ks, key);
    }
  }

  lemma DropFirst(older: seq<string>, ks: seq<string>)
    requires older != []
    ensures (older + ks)[1..] == older[1..] + ks
  {
  }

  lemma SuffixAfter(rest: seq<string>, ks: seq<string>, key: string)
    requires ks != []
    ensures Suffix(ks[1..] + [key], (rest + ks) + [key])
  {
    assert ks == [ks[0]] + ks[1..];
    ConcatAssoc(rest, [ks[0]], ks[1..]);
    ConcatAssoc(rest + [ks[0]], ks[1..], [key]);
    SuffixOf(ks[1..] + [key], (rest + ks) + [key], rest + [ks[0]]);
  }

  lemma ReferStacked(ks: seq<string>, kl: seq<string>, small: nat, large: nat, key: string)
    requires Stacked(ks, kl, small, large) && 1 <= small <= large
    ensures Stacked(Refer(ks, small, key), Refer(kl, large, key), small, large)
  {
    var older := kl[..|kl| - |ks|];
    assert kl == older + ks;
    assert Distinct(ks) by {
      assert forall i :: 0 <= i < |ks| ==> ks[i] == kl[|older| + i];
    }
    ReferDistinct(kl, large, key);
    ReferDistinct(ks, small, key);
    ReferStaysSuffix(ks, older, small, large, key);
    assert |ks| == |kl| ==> ks == kl;
  }

  /** However requests come and whatever has expired, the smaller cache's keys are the last keys of the larger
      one's recency list. */
  lemma {:induction false} ReadThroughStacked<V(!new)>(small: nat, large: nat, ttlMs: int, rs: seq<Request<V>>)
    requires 1 <= small <= large
    ensures var s, l := ServeAll(Empty<V>(small, ttlMs), rs), ServeAll(Empty<V>(large, ttlMs), rs);
      s.capacity == small && l.capacity == large && Stacked(KeysOf(s.lines), KeysOf(l.lines), small, large)
  {
    if rs != [] {
      var before, r := rs[..|rs| - 1], rs[|rs| - 1];
      var s, l := ServeAll(Empty<V>(small, ttlMs), before), ServeAll(Empty<V>(large, ttlMs), before);
      ReadThroughStacked(small, large, ttlMs, before);
      ServeRefers(s, r);
      ServeRefers(l, r);
      ReferStacked(KeysOf(s.lines), KeysOf(l.lines), small, large, r.key);
    }
  }

  // ---- Hits, said of the requests alone ----

  /** The different keys asked for, in the order of their last requests. */
  function Asked<V>(rs: seq<Request<V>>): seq<string> {
    if rs == [] then []
    else
      var key := rs[|rs| - 1].key;
      Filter(Asked(rs[..|rs| - 1]), IsNot(key)) + [key]
  }

  function Last(ks: seq<string>, n: nat): seq<string> { if |ks| <= n then ks else ks[|ks| - n..] }

  /** When `key` was last fetched by a cache of this capacity: at its last request that did not find it among the
      last keys asked for, or found it too old. */
  function FetchedAt<V>(capacity: nat, ttlMs: int, rs: seq<Request<V>>, key: string): int {
    if rs == [] then 0
    else
      var before, r := rs[..|rs| - 1], rs[|rs| - 1];
      var fetchedAt := FetchedAt(capacity, ttlMs, before, key);
      if r.key != key || (key in Last(Asked(before), capacity) && r.now <= fetchedAt + ttlMs) then fetchedAt else r.now
  }

  lemma {:induction false} AskedStacked<V(!new)>(capacity: nat, ttlMs: int, rs: seq<Request<V>>)
    requires 1 <= capacity
    ensures var c := ServeAll(Empty<V>(capacity, ttlMs), rs);
      c.capacity == capacity && c.ttlMs == ttlMs && |Asked(rs)| <= |rs| &&
      forall n: nat :: n >= |rs| + capacity ==> Stacked(KeysOf(c.lines), Asked(rs), capacity, n)
  {
    if rs != [] {
      var before, r := rs[..|rs| - 1], rs[|rs| - 1];
      var c := ServeAll(Empty<V>(capacity, ttlMs), before);
      var asked := Asked(before);
      AskedStacked(capacity, ttlMs, before);
      assert Stacked(KeysOf(c.lines), asked, capacity, |rs| + capacity);
      ServeRefers(c, r);
      if r.key !in asked {
        FilterAbsent(asked, r.key);
      } else {
        FilterMembers(asked, IsNot(r.key));
      }
      forall n: nat | n >= |rs| + capacity
        ensures Stacked(KeysOf(ServeAll(Empty<V>(capacity, ttlMs), rs).lines), Asked(rs), capacity, n)
      {
        assert Stacked(KeysOf(c.lines), asked, capacity, n);
        ReferStacked(KeysOf(c.lines), asked, capacity, n, r.key);
        assert Refer(asked, n, r.key) == Asked(rs);
      }
    }
  }

  /** The cache holds the last keys asked for. */
  lemma HeldKeys<V(!new)>(capacity: nat, ttlMs: int, rs: seq<Request<V>>)
    requires 1 <= capacity
    ensures KeysOf(ServeAll(Empty<V>(capacity, ttlMs), rs).lines) == Last(Asked(rs), capacity)
  {
    AskedStacked(capacity, ttlMs, rs);
    assert Stacked(KeysOf(ServeAll(Empty<V>(capacity, ttlMs), rs).lines), Asked(rs), capacity, |rs| + capacity);
  }

  ghost predicate Dated<V>(lines: seq<Line<V>>, capacity: nat, ttlMs: int, rs: seq<Request<V>>) {
    forall l :: l in lines ==> l.expiresAt == FetchedAt(capacity, ttlMs, rs, l.key) + ttlMs
  }

  /** Every line expires one time to live after its key was fetched. */
  lemma {:induction false} LinesDated<V(!new)>(capacity: nat, ttlMs: int, rs: seq<Request<V>>)
    requires 1 <= capacity
    ensures Dated(ServeAll(Empty<V>(capacity, ttlMs), rs).lines, capacity, ttlMs, rs)
  {
    if rs != [] {
      var before, r := rs[..|rs| - 1], rs[|rs| - 1];
      var c := ServeAll(Empty<V>(capacity, ttlMs), before);
      LinesDated(capacity, ttlMs, before);
      AskedStacked(capacity, ttlMs, before);
      assert Stacked(KeysOf(c.lines), Asked(before), capacity, |before| + capacity);
      HeldKeys(capacity, ttlMs, before);
      ServeLines(c, r);
      forall l | l in Served(c, r) ensures l.expiresAt == FetchedAt(capacity, ttlMs, rs, l.key) + ttlMs {
        ServedDated(c, r, capacity, ttlMs, rs, l);
      }
    }
  }

  lemma {:induction false} ServedDated<V(!new)>(c: Lru<V>, r: Request<V>, capacity: nat, ttlMs: int, rs: seq<Request<V>>, l: Line<V>)
    requires rs != [] && r == rs[|rs| - 1] && c.capacity == capacity && c.ttlMs == ttlMs
    requires Dated(c.lines, capacity, ttlMs, rs[..|rs| - 1]) && KeysOf(c.lines) == Last(Asked(rs[..|rs| - 1]), capacity)
    requires l in Served(c, r)
    ensures l.expiresAt == FetchedAt(capacity, ttlMs, rs, l.key) + ttlMs
  {
    var found := Find(c.lines, r.key);
    FindKey(c.lines, r.key);
    FilterMembers(c.lines, KeyIsNot(r.key));
    if found.None? {
      var kept := if |c.lines| >= c.capacity && c.lines != [] then c.lines[1..] else c.lines;
      assert l in kept ==> l in c.lines;
    }
  }

  /** A request hits if and only if its key is among the last ones asked for, as many as the capacity, and was fetched
      no longer ago than the time to live. */
  lemma HitIff<V(!new)>(capacity: nat, ttlMs: int, rs: seq<Request<V>>, key: string, now: int)
    requires 1 <= capacity
    ensures Hit(ServeAll(Empty<V>(capacity, ttlMs), rs), key, now) <==>
      key in Last(Asked(rs), capacity) && now <= FetchedAt(capacity, ttlMs, rs, key) + ttlMs
  {
    HeldKeys(capacity, ttlMs, rs);
    LinesDated(capacity, ttlMs, rs);
    FindKey(ServeAll(Empty<V>(capacity, ttlMs), rs).lines, key);
  }

  lemma LastOfLast(ks: seq<string>, small: nat, large: nat, key: string)
    requires small <= large && key in Last(ks, small)
    ensures key in Last(ks, large)
  {
    var few, many := Last(ks, small), Last(ks, large);
    assert many == many[..|many| - |few|] + few;
  }

  /** So a larger cache misses where a smaller one hits if and only if the smaller one still holds the key, and the
      larger one fetched it too long ago and the smaller one did not. */
  lemma ReadThroughHits<V(!new)>(small: nat, large: nat, ttlMs: int, rs: seq<Request<V>>, key: string, now: int)
    requires 1 <= small <= large
    ensures Hit(ServeAll(Empty<V>(small, ttlMs), rs), key, now) && !Hit(ServeAll(Empty<V>(large, ttlMs), rs), key, now) <==>
      key in Last(Asked(rs), small) &&
      FetchedAt(large, ttlMs, rs, key) + ttlMs < now <= FetchedAt(small, ttlMs, rs, key) + ttlMs
  {
    HitIff(small, ttlMs, rs, key, now);
    HitIff(large, ttlMs, rs, key, now);
    if key in Last(Asked(rs), small) {
      LastOfLast(Asked(rs), small, large, key);
    }
  }

  /** The larger cache can be the one that misses: it keeps an early line until it expires, which the smaller one
      had to fetch again. */
  lemma LargerCacheMisses(v: string)
    ensures var rs := [Request("a", v, 0), Request("b", v, 5), Request("a", v, 8)];
      Hit(ServeAll(Empty<string>(1, 10), rs), "a", 15) && !Hit(ServeAll(Empty<string>(2, 10), rs), "a", 15)
  {
    var rs := [Request("a", v, 0), Request("b", v, 5), Request("a", v, 8)];
    var a0, b5, a8 := Line("a", v, 10), Line("b", v, 15), Line("a", v, 18);
    assert rs[..2] == [Request("a", v, 0), Request("b", v, 5)];
    FirstTwo(1, v);
    FirstTwo(2, v);
    var s, l := ServeAll(Empty<string>(1, 10), rs[..2]), ServeAll(Empty<string>(2, 10), rs[..2]);
    ServeLines(s, rs[2]);
    ServeLines(l, rs[2]);
    assert [b5][1..] == [] && Served(s, rs[2]) == [] + [a8] == [a8];
    assert Find([a0, b5], "a") == Some(a0);
    assert Without([a0, b5], "a") == Without([a0, b5][1..], "a") && [a0, b5][1..] == [b5];
    assert Without([b5], "a") == [b5] + Without([b5][1..], "a") == [b5];
    assert Served(l, rs[2]) == [b5, a0];
    assert Find([b5, a0], "a") == Find([b5, a0][1..], "a") && [b5, a0][1..] == [a0];
  }

  lemma FirstTwo(capacity: nat, v: string)
    requires 1 <= capacity <= 2
    ensures var c := ServeAll(Empty<string>(capacity, 10), [Request("a", v, 0), Request("b", v, 5)]);
      c.capacity == capacity && c.ttlMs == 10 &&
      c.lines == if capacity == 1 then [Line("b", v, 15)] else [Line("a", v, 10), Line("b", v, 15)]
  {
    var two := [Request("a", v, 0), Request("b", v, 5)];
    var a0, b5 := Line("a", v, 10), Line("b", v, 15);
    var c0 := Empty<string>(capacity, 10);
    assert two[..1] == [two[0]] && [two[0]][..0] == [];
    assert ServeAll(c0, [two[0]]) == Serve(c0, two[0]);
    ServeLines(c0, two[0]);
    assert Served(c0, two[0]) == [] + [a0] == [a0];
    var c1 := ServeAll(c0, [two[0]]);
    ServeLines(c1, two[1]);
    assert Find([a0], "b") == Find([a0][1..], "b") && [a0][1..] == [];
    assert Served(c1, two[1]) == (if capacity == 1 then [] else [a0]) + [b5];
  }
}
