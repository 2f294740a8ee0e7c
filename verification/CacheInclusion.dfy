/** The LRU inclusion property: a larger simulation cache holds everything a smaller one holds. */
module CacheInclusion {
  import opened Seqs
  import opened LruModel

  ghost predicate DistinctKeys<V>(lines: seq<Line<V>>) {
    forall i, j :: 0 <= i < j < |lines| ==> lines[i].key != lines[j].key
  }

  /** `small` is a part of `large`, in the same recency order and with the same values and expiries,
      and the two differ by no more lines than their capacities do. */
  ghost predicate Included<V>(small: Lru<V>, large: Lru<V>) {
    small.ttlMs == large.ttlMs &&
    1 <= small.capacity <= large.capacity &&
    |small.lines| <= small.capacity && |large.lines| <= large.capacity &&
    Subsequence(small.lines, large.lines) &&
    |large.lines| - |small.lines| <= large.capacity - small.capacity &&
    small.hits <= large.hits && small.hits + small.misses == large.hits + large.misses &&
    large.evictions <= small.evictions
  }

  lemma {:induction false} FindUnique<V>(lines: seq<Line<V>>, l: Line<V>)
    requires DistinctKeys(lines) && l in lines
    ensures Find(lines, l.key) == Some(l)
  {
    if lines[0] != l {
      FindUnique(lines[1..], l);
    }
  }

  /** The larger cache finds what the smaller one finds. */
  lemma FindIncluded<V>(small: seq<Line<V>>, large: seq<Line<V>>, key: string)
    requires Subsequence(small, large) && DistinctKeys(large)
    ensures Find(small, key).Some? ==> Find(large, key) == Find(small, key)
  {
    if Find(small, key).Some? {
      SubsequenceMembers(small, large);
      FindUnique(large, Find(small, key).value);
    }
  }

  lemma GetIncluded<V(!new)>(small: Lru<V>, large: Lru<V>, op: Op<V>)
    requires Included(small, large) && DistinctKeys(large.lines) && op.Get?
    ensures Included(Next(small, op), Next(large, op))
  {
    KeptFacts(small, op);
    KeptFacts(large, op);
    FindIncluded(small.lines, large.lines, op.key);
    SubsequenceFilter(small.lines, large.lines, KeyIsNot(op.key));
    WithoutFacts(small.lines, op.key);
    WithoutFacts(large.lines, op.key);
    if Hit(large, op.key, op.now) {
      SubsequenceSnoc(Kept(small, op), Kept(large, op), Find(large.lines, op.key).value);
    }
    assert Kept(small, op) + [] == Kept(small, op) && Kept(large, op) + [] == Kept(large, op);
  }

  lemma SetIncluded<V(!new)>(small: Lru<V>, large: Lru<V>, op: Op<V>)
    requires Included(small, large) && DistinctKeys(large.lines) && op.Set?
    ensures Included(Next(small, op), Next(large, op))
  {
    KeptFacts(small, op);
    KeptFacts(large, op);
    FindIncluded(small.lines, large.lines, op.key);
    SubsequenceFilter(small.lines, large.lines, KeyIsNot(op.key));
    WithoutFacts(small.lines, op.key);
    WithoutFacts(large.lines, op.key);
    if Evicts(large, op.key) {
      assert Evicts(small, op.key);
      SubsequenceDrop(small.lines, large.lines);
    } else if Evicts(small, op.key) {
      SubsequenceDrop(small.lines, Without(large.lines, op.key));
    }
    SubsequenceSnoc(Kept(small, op), Kept(large, op), Touched(large, op)[0]);
  }

  lemma HasIncluded<V(!new)>(small: Lru<V>, large: Lru<V>, op: Op<V>)
    requires Included(small, large) && DistinctKeys(large.lines) && op.Has?
    ensures Included(Next(small, op), Next(large, op))
  {
    KeptFacts(small, op);
    KeptFacts(large, op);
    assert Kept(small, op) + [] == Kept(small, op) && Kept(large, op) + [] == Kept(large, op);
    FindIncluded(small.lines, large.lines, op.key);
    SubsequenceFilter(small.lines, large.lines, KeyIsNot(op.key));
    WithoutFacts(small.lines, op.key);
  }

  lemma RemovalIncluded<V(!new)>(small: Lru<V>, large: Lru<V>, op: Op<V>)
    requires Included(small, large) && !op.Get? && !op.Set? && !op.Has?
    ensures Included(Next(small, op), Next(large, op))
  {
    KeptFacts(small, op);
    KeptFacts(large, op);
    assert Kept(small, op) + [] == Kept(small, op) && Kept(large, op) + [] == Kept(large, op);
    match op
    case Invalidate(key) => SubsequenceFilter(small.lines, large.lines, KeyIsNot(key));
    case InvalidateAll =>
    case Clear =>
    case ClearExpired(now) => SubsequenceFilter(small.lines, large.lines, FreshAt(now));
    case ResetStatistics =>
  }

  /** For any operations on one clock and one time to live: the larger cache holds every line of the
      smaller, in the same order, with no fewer hits and no more evictions. */
  lemma {:induction false} Inclusion<V(!new)>(small: nat, large: nat, ttlMs: int, ops: seq<Op<V>>)
    requires 1 <= small <= large
    ensures Included(Run(Empty<V>(small, ttlMs), ops), Run(Empty<V>(large, ttlMs), ops))
  {
    if ops != [] {
      var before, op := ops[..|ops| - 1], ops[|ops| - 1];
      var s, l := Run(Empty<V>(small, ttlMs), before), Run(Empty<V>(large, ttlMs), before);
      Inclusion<V>(small, large, ttlMs, before);
      RunFacts<V>(large, ttlMs, before);
      assert DistinctKeys(l.lines) by {
        forall i, j | 0 <= i < j < |l.lines| ensures l.lines[i].key != l.lines[j].key {
          var rank := TouchRank(Empty<V>(large, ttlMs), before);
          assert rank(l.lines[i]) < rank(l.lines[j]);
        }
      }
      if op.Get? {
        GetIncluded(s, l, op);
      } else if op.Set? {
        SetIncluded(s, l, op);
      } else if op.Has? {
        HasIncluded(s, l, op);
      } else {
        RemovalIncluded(s, l, op);
      }
    }
  }

  /** So a key that hits in the smaller cache hits in the larger, with the same answer. */
  lemma HitsGrowWithCapacity<V(!new)>(small: nat, large: nat, ttlMs: int, ops: seq<Op<V>>, key: string, now: int)
    requires 1 <= small <= large
    ensures var s, l := Run(Empty<V>(small, ttlMs), ops), Run(Empty<V>(large, ttlMs), ops);
      s.hits <= l.hits && (Hit(s, key, now) ==> Hit(l, key, now) && Find(l.lines, key) == Find(s.lines, key))
  {
    var s, l := Run(Empty<V>(small, ttlMs), ops), Run(Empty<V>(large, ttlMs), ops);
    Inclusion<V>(small, large, ttlMs, ops);
    RunFacts<V>(large, ttlMs, ops);
    var rank := TouchRank(Empty<V>(large, ttlMs), ops);
    assert forall i, j :: 0 <= i < j < |l.lines| ==> rank(l.lines[i]) < rank(l.lines[j]);
    FindIncluded(s.lines, l.lines, key);
  }
}
