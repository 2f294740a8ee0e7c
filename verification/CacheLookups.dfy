/** What each cache operation does to each lookup and to each counter, said on lookups and times alone. */
module CacheLookups {
  import opened Seqs
  import opened LruModel

  ghost predicate DistinctLines<V>(lines: seq<Line<V>>) {
    forall i, j :: 0 <= i < j < |lines| ==> lines[i].key != lines[j].key
  }

  /** What a lookup of `key` finds when `lines` are the lines, in any order. */
  lemma {:induction false} FindMember<V(!new)>(lines: seq<Line<V>>, l: Line<V>)
    requires DistinctLines(lines) && l in lines
    ensures Find(lines, l.key) == Some(l)
  {
    if lines[0] != l {
      assert lines == [lines[0]] + lines[1..];
      var j :| 0 <= j < |lines| && lines[j] == l;
      assert lines[0].key != lines[j].key;
      FindMember(lines[1..], l);
    }
  }

  lemma {:induction false} FilterDistinctLines<V(!new)>(lines: seq<Line<V>>, p: Line<V> -> bool)
    requires DistinctLines(lines)
    ensures DistinctLines(Filter(lines, p))
  {
    if lines != [] {
      FilterDistinctLines(lines[1..], p);
      FilterMembers(lines[1..], p);
      var rest := Filter(lines[1..], p);
      forall i | 0 <= i < |rest| ensures rest[i].key != lines[0].key {
        assert rest[i] in rest && rest[i] in lines[1..];
        var j :| 0 <= j < |lines[1..]| && lines[1..][j] == rest[i];
        assert lines[j + 1] == lines[1..][j];
      }
    }
  }

  /** After filtering, a lookup finds what it found before, if that passes the filter. */
  lemma FindFiltered<V(!new)>(lines: seq<Line<V>>, p: Line<V> -> bool, key: string)
    requires DistinctLines(lines)
    ensures var before := Find(lines, key);
      Find(Filter(lines, p), key) == if before.Some? && p(before.value) then before else None
  {
    var before, after := Find(lines, key), Find(Filter(lines, p), key);
    FilterMembers(lines, p);
    FilterDistinctLines(lines, p);
    if before.Some? && p(before.value) {
      FindMember(Filter(lines, p), before.value);
    } else if after.Some? {
      FindMember(lines, after.value);
    }
  }

  lemma {:induction false} FindAppended<V(!new)>(lines: seq<Line<V>>, l: Line<V>, key: string)
    ensures Find(lines + [l], key) ==
      if Find(lines, key).Some? then Find(lines, key) else if l.key == key then Some(l) else None
  {
    if lines != [] {
      assert (lines + [l])[1..] == lines[1..] + [l];
      FindAppended(lines[1..], l, key);
    } else {
      assert lines + [l] == [l] && [l][1..] == [];
    }
  }

  /** Unexpired at `now`. */
  ghost predicate Usable<V>(l: Option<Line<V>>, now: int) { l.Some? && now <= l.value.expiresAt }

  /** The key that setting `key` drops: none if `key` is there or there is room, else the least recently used one. */
  ghost predicate Drops<V>(c: Lru<V>, key: string, dropped: string) {
    Find(c.lines, key).None? && |c.lines| >= c.capacity && c.lines != [] && c.lines[0].key == dropped
  }

  /** What a lookup of `key` finds after `op` on `c`. */
  ghost predicate Leaves<V>(c: Lru<V>, op: Op<V>, key: string, after: Option<Line<V>>) {
    var before := Find(c.lines, key);
    match op
    case Get(k, now) => after == if k != key || Usable(before, now) then before else None
    case Set(k, value, now) =>
      after == if k == key then Some(Line(key, value, now + c.ttlMs)) else if Drops(c, k, key) then None else before
    case Has(k, now) => after == if k != key || Usable(before, now) then before else None
    case Invalidate(k) => after == if k == key then None else before
    case InvalidateAll => after == None
    case Clear => after == None
    case ClearExpired(now) => after == if Usable(before, now) then before else None
    case ResetStatistics => after == before
  }

  lemma FindWithout<V(!new)>(lines: seq<Line<V>>, k: string, key: string)
    requires DistinctLines(lines)
    ensures Find(Without(lines, k), key) == if k == key then None else Find(lines, key)
  {
    FindFiltered(lines, KeyIsNot<V>(k), key);
  }

  lemma FindAfterDrop<V(!new)>(lines: seq<Line<V>>, key: string)
    requires DistinctLines(lines) && lines != []
    ensures Find(lines[1..], key) == if lines[0].key == key then None else Find(lines, key)
  {
    var rest := lines[1..];
    assert forall i :: 0 <= i < |rest| ==> rest[i] == lines[i + 1];
  }

  /** What a set keeps of the old lines. */
  lemma SetKeeps<V(!new)>(c: Lru<V>, op: Op<V>, key: string)
    requires DistinctLines(c.lines) && op.Set?
    ensures Find(Kept(c, op), key) == if key == op.key || Drops(c, op.key, key) then None else Find(c.lines, key)
  {
    if Evicts(c, op.key) {
      FindAfterDrop(c.lines, key);
      assert Find(c.lines, op.key).None?;
    } else {
      FindWithout(c.lines, op.key, key);
    }
  }

  lemma SetLeaves<V(!new)>(c: Lru<V>, op: Op<V>, key: string)
    requires DistinctLines(c.lines) && op.Set?
    ensures Leaves(c, op, key, Find(Next(c, op).lines, key))
  {
    var l := Line(op.key, op.value, op.now + c.ttlMs);
    assert Next(c, op).lines == Kept(c, op) + [l];
    FindAppended(Kept(c, op), l, key);
    SetKeeps(c, op, key);
  }

  lemma OpLeaves<V(!new)>(c: Lru<V>, op: Op<V>, key: string)
    requires DistinctLines(c.lines)
    ensures Leaves(c, op, key, Find(Next(c, op).lines, key))
  {
    match op
    case Get(k, now) =>
      FindWithout(c.lines, k, key);
      if Hit(c, k, now) {
        FindAppended(Without(c.lines, k), Find(c.lines, k).value, key);
      } else {
        assert Without(c.lines, k) + [] == Without(c.lines, k);
      }
    case Set(_, _, _) => SetLeaves(c, op, key);
    case Has(k, now) =>
      FindWithout(c.lines, k, key);
      assert Next(c, op).lines == Kept(c, op);
    case Invalidate(k) =>
      FindWithout(c.lines, k, key);
      assert Next(c, op).lines == Kept(c, op);
    case InvalidateAll =>
    case Clear =>
    case ClearExpired(now) =>
      FindFiltered(c.lines, FreshAt<V>(now), key);
      assert Next(c, op).lines == Kept(c, op);
    case ResetStatistics => assert Next(c, op).lines == c.lines;
  }

  lemma ReachableDistinct<V(!new)>(capacity: nat, ttlMs: int, ops: seq<Op<V>>)
    requires capacity >= 1
    ensures DistinctLines(Run(Empty<V>(capacity, ttlMs), ops).lines)
  {
    var c := Empty<V>(capacity, ttlMs);
    RunFacts<V>(capacity, ttlMs, ops);
    var lines := Run(c, ops).lines;
    forall i, j | 0 <= i < j < |lines| ensures lines[i].key != lines[j].key {
      assert TouchRank(c, ops)(lines[i]) < TouchRank(c, ops)(lines[j]);
    }
  }

  /** In every reachable state and for every key, each operation leaves exactly this. */
  lemma LookupAfter<V(!new)>(capacity: nat, ttlMs: int, ops: seq<Op<V>>, op: Op<V>, key: string)
    requires capacity >= 1
    ensures var r := Run(Empty<V>(capacity, ttlMs), ops); Leaves(r, op, key, Find(Next(r, op).lines, key))
  {
    ReachableDistinct<V>(capacity, ttlMs, ops);
    OpLeaves(Run(Empty<V>(capacity, ttlMs), ops), op, key);
  }

  /** So a line that has not expired at the operation's time goes only by an eviction, by a set or an invalidation of its
      own key, or when everything is removed. */
  lemma UnexpiredStays<V(!new)>(capacity: nat, ttlMs: int, ops: seq<Op<V>>, op: Op<V>, key: string)
    requires capacity >= 1
    requires Find(Run(Empty<V>(capacity, ttlMs), ops).lines, key).Some?
    requires op.Get? || op.Has? || op.ClearExpired? ==> Usable(Find(Run(Empty<V>(capacity, ttlMs), ops).lines, key), op.now)
    ensures var r := Run(Empty<V>(capacity, ttlMs), ops);
      Find(Next(r, op).lines, key) == Find(r.lines, key) ||
      (op.Set? && (op.key == key || Drops(r, op.key, key))) || Removes(op, key)
  {
    LookupAfter<V>(capacity, ttlMs, ops, op, key);
  }

  /** The counters after `op`: a get counts as a hit exactly when the key is there and unexpired, else as a miss; an
      eviction counts once; only clearing and resetting set them back. */
  lemma CountersAfter<V(!new)>(c: Lru<V>, op: Op<V>)
    ensures var n := Next(c, op);
      if op.Clear? || op.ResetStatistics? then n.hits == 0 && n.misses == 0 && n.evictions == 0
      else
        n.hits == c.hits + (if op.Get? && Usable(Find(c.lines, op.key), op.now) then 1 else 0) &&
        n.misses == c.misses + (if op.Get? && !Usable(Find(c.lines, op.key), op.now) then 1 else 0) &&
        n.evictions == c.evictions + (if op.Set? && exists dropped :: Drops(c, op.key, dropped) then 1 else 0)
  {
    if op.Set? && c.lines != [] {
      assert Evicts(c, op.key) ==> Drops(c, op.key, c.lines[0].key);
    }
  }
}
