/** The simulation cache as written: a `Map` whose iteration order is the recency order. */
module SimulationCache {
  import opened Seqs
  import opened InsertionMap
  import opened LruModel

  datatype CacheEntry<V> = CacheEntry(result: V, expiresAt: int, accessCount: nat, lastAccessedAt: int)

  type Slot<V> = Binding<string, CacheEntry<V>>

  function LineOf<V>(b: Slot<V>): Line<V> { Line(b.key, b.value.result, b.value.expiresAt) }

  function LinesOf<V>(m: seq<Slot<V>>): (r: seq<Line<V>>)
    ensures |r| == |m|
    ensures forall i :: 0 <= i < |m| ==> r[i] == LineOf(m[i])
  {
    seq(|m|, i requires 0 <= i < |m| => LineOf(m[i]))
  }

  lemma {:induction false} FindIsLookup<V>(m: seq<Slot<V>>, key: string)
    ensures Find(LinesOf(m), key) == match Lookup(m, key)
      case None => None
      case Some(e) => Some(Line(key, e.result, e.expiresAt))
  {
    if m != [] {
      FindIsLookup(m[1..], key);
      assert LinesOf(m)[1..] == LinesOf(m[1..]);
    }
  }

  lemma WithoutAt<V(!new)>(lines: seq<Line<V>>, i: nat, key: string)
    requires i < |lines| && forall j :: 0 <= j < |lines| ==> (lines[j].key == key <==> j == i)
    ensures Without(lines, key) == lines[..i] + lines[i + 1..]
  {
    assert lines == lines[..i] + ([lines[i]] + lines[i + 1..]);
    FilterAppend(lines[..i], [lines[i]] + lines[i + 1..], KeyIsNot(key));
    FilterAppend([lines[i]], lines[i + 1..], KeyIsNot(key));
    FilterAll(lines[..i], KeyIsNot(key));
    FilterNone([lines[i]], KeyIsNot(key));
    FilterAll(lines[i + 1..], KeyIsNot(key));
  }

  lemma WithoutIsDelete<V(!new)>(m: seq<Slot<V>>, key: string)
    requires DistinctKeys(m)
    ensures Without(LinesOf(m), key) == LinesOf(Delete(m, key))
  {
    var lines, i := LinesOf(m), IndexOf(m, key);
    if i < |m| {
      WithoutAt(lines, i, key);
      assert LinesOf(m[..i] + m[i + 1..]) == lines[..i] + lines[i + 1..];
    } else {
      FilterAll(lines, KeyIsNot(key));
    }
  }

  /** What `delete` followed by `set` of the same key does to the recency list. */
  lemma Reinsert<V(!new)>(m: seq<Slot<V>>, key: string, e: CacheEntry<V>)
    requires DistinctKeys(m)
    ensures var r := Put(Delete(m, key), key, e);
      DistinctKeys(r) && LinesOf(r) == Without(LinesOf(m), key) + [Line(key, e.result, e.expiresAt)]
  {
    WithoutIsDelete(m, key);
    Reinserted(m, key, e);
  }

  lemma NothingToDrop<V(!new)>(m: seq<Slot<V>>, key: string)
    requires Lookup(m, key).None? && m != []
    ensures Without(LinesOf(m[1..]), key) == LinesOf(m)[1..]
  {
    assert LinesOf(m)[1..] == LinesOf(m[1..]);
    FilterAll(LinesOf(m[1..]), KeyIsNot(key));
  }

  /** What looking a key up finds, and what deleting it leaves, as a recency list. */
  lemma GetEffect<V(!new)>(m: seq<Slot<V>>, key: string)
    requires DistinctKeys(m)
    ensures Find(LinesOf(m), key) ==
      (if Lookup(m, key).None? then None
       else Some(Line(key, Lookup(m, key).value.result, Lookup(m, key).value.expiresAt)))
    ensures DistinctKeys(Delete(m, key)) && LinesOf(Delete(m, key)) == Without(LinesOf(m), key) + []
    ensures Lookup(m, key).None? ==> Delete(m, key) == m
  {
    FindIsLookup(m, key);
    WithoutIsDelete(m, key);
    DeleteDistinct(m, key);
  }

  /** The map that `set` leaves, as a recency list. */
  lemma SetEffect<V(!new)>(m: seq<Slot<V>>, c: Lru<V>, key: string, e: CacheEntry<V>, now: int)
    requires DistinctKeys(m) && c.lines == LinesOf(m) && c.capacity >= 1 && e.expiresAt == now + c.ttlMs
    ensures var full := |m| >= c.capacity && Lookup(m, key).None?;
      var r := Put(Delete(if full then m[1..] else m, key), key, e);
      DistinctKeys(r) &&
      Next(c, Op<V>.Set(key, e.result, now)) == c.(lines := LinesOf(r), evictions := c.evictions + if full then 1 else 0)
  {
    FindIsLookup(m, key);
    if |m| >= c.capacity && Lookup(m, key).None? {
      NothingToDrop(m, key);
      Reinsert(m[1..], key, e);
    } else {
      Reinsert(m, key, e);
    }
  }

  function SlotFreshAt<V>(now: int): Slot<V> -> bool { (b: Slot<V>) => now <= b.value.expiresAt }

  /** One turn of the sweep: the map is what is kept so far followed by what is not yet visited. */
  lemma SweepStep<V>(m: seq<Slot<V>>, kept: seq<Slot<V>>, rest: seq<Slot<V>>, now: int)
    requires DistinctKeys(m) && m == kept + rest && rest != []
    ensures var b, p := rest[0], SlotFreshAt<V>(now);
      if now > b.value.expiresAt then
        DistinctKeys(Delete(m, b.key)) && Delete(m, b.key) == kept + rest[1..] && Filter(rest, p) == Filter(rest[1..], p)
      else
        m == (kept + [b]) + rest[1..] && kept + Filter(rest, p) == (kept + [b]) + Filter(rest[1..], p)
  {
    if now > rest[0].value.expiresAt {
      DeleteMiddle(m, kept, rest);
      DeleteDistinct(m, rest[0].key);
    }
  }

  lemma {:induction false} LinesFilter<V>(m: seq<Slot<V>>, now: int)
    ensures LinesOf(Filter(m, SlotFreshAt(now))) == Filter(LinesOf(m), FreshAt(now))
  {
    if m != [] {
      LinesFilter(m[1..], now);
      assert LinesOf(m)[1..] == LinesOf(m[1..]);
      assert forall t: seq<Slot<V>> :: LinesOf([m[0]] + t) == [LineOf(m[0])] + LinesOf(t);
    }
  }

  class SimulationCache<V(!new)> {
    var cache: seq<Slot<V>>
    const maxSize: nat
    const ttlMs: int
    var hits: nat
    var misses: nat
    var evictions: nat

    ghost predicate Valid() reads this { maxSize >= 1 && DistinctKeys(cache) }

    /** The recency list this object stands for. */
    ghost function Abs(): Lru<V> reads this {
      Lru(maxSize, ttlMs, LinesOf(cache), hits, misses, evictions)
    }

    constructor (maxSize: int, ttlMs: int)
      ensures Valid() && Abs() == Empty<V>(if maxSize < 1 then 1 else maxSize, ttlMs)
    {
      this.maxSize := if maxSize < 1 then 1 else maxSize;
      this.ttlMs := ttlMs;
      cache, hits, misses, evictions := [], 0, 0, 0;
    }

    method Get(key: string, now: int) returns (r: Option<V>)
      requires Valid()
      modifies this
      ensures Valid() && Abs() == Next(old(Abs()), Op<V>.Get(key, now))
      ensures r == if Hit(old(Abs()), key, now) then Some(Find(old(Abs()).lines, key).value.value) else None
    {
      GetEffect(cache, key);
      var found := Lookup(cache, key);
      if found.None? {
        misses := misses + 1;
        return None;
      }
      var entry := found.value;
      if now > entry.expiresAt {
        cache := Delete(cache, key);
        misses := misses + 1;
        return None;
      }
      entry := entry.(accessCount := entry.accessCount + 1, lastAccessedAt := now);
      Reinsert(cache, key, entry);
      cache := Delete(cache, key);
      cache := Put(cache, key, entry);
      hits := hits + 1;
      return Some(entry.result);
    }

    method Set(key: string, result: V, now: int)
      requires Valid()
      modifies this
      ensures Valid() && Abs() == Next(old(Abs()), Op<V>.Set(key, result, now))
    {
      ghost var c := Abs();
      var entry := CacheEntry(result, now + ttlMs, 0, now);
      SetEffect(cache, c, key, entry, now);
      if |cache| >= maxSize && Lookup(cache, key).None? {
        EvictLru();
      }
      cache := Delete(cache, key);
      cache := Put(cache, key, entry);
    }

    /** Drops the first entry in iteration order. */
    method EvictLru()
      requires Valid()
      modifies this
      ensures Valid()
      ensures old(cache) != [] ==> cache == old(cache)[1..] && evictions == old(evictions) + 1
      ensures old(cache) == [] ==> cache == [] && evictions == old(evictions)
      ensures hits == old(hits) && misses == old(misses)
    {
      if cache != [] {
        var lruKey := cache[0].key;
        cache := Delete(cache, lruKey);
        evictions := evictions + 1;
      }
    }

    method Has(key: string, now: int) returns (r: bool)
      requires Valid()
      modifies this
      ensures Valid() && Abs() == Next(old(Abs()), Op<V>.Has(key, now))
      ensures r == Hit(old(Abs()), key, now)
    {
      GetEffect(cache, key);
      assert LinesOf(cache) + [] == LinesOf(cache);
      var found := Lookup(cache, key);
      if found.None? {
        return false;
      }
      if now > found.value.expiresAt {
        cache := Delete(cache, key);
        return false;
      }
      return true;
    }

    method Invalidate(key: string)
      requires Valid()
      modifies this`cache
      ensures Valid() && Abs() == Next(old(Abs()), Op<V>.Invalidate(key))
    {
      GetEffect(cache, key);
      cache := Delete(cache, key);
    }

    /** Deletes the expired entries one by one while iterating. */
    method ClearExpired(now: int)
      requires Valid()
      modifies this`cache
      ensures Valid() && Abs() == Next(old(Abs()), Op<V>.ClearExpired(now))
    {
      var entries := cache;
      ghost var kept: seq<Slot<V>> := [];
      for i := 0 to |entries|
        invariant DistinctKeys(cache) && cache == kept + entries[i..]
        invariant kept + Filter(entries[i..], SlotFreshAt(now)) == Filter(entries, SlotFreshAt(now))
      {
        assert entries[i..][0] == entries[i] && entries[i..][1..] == entries[i + 1..];
        SweepStep(cache, kept, entries[i..], now);
        if now > entries[i].value.expiresAt {
          cache := Delete(cache, entries[i].key);
        } else {
          kept := kept + [entries[i]];
        }
      }
      LinesFilter(entries, now);
      assert cache == kept && kept + [] == kept;
      assert LinesOf(cache) + [] == LinesOf(cache);
    }

    method InvalidateAll()
      requires Valid()
      modifies this`cache
      ensures Valid() && Abs() == Next(old(Abs()), Op<V>.InvalidateAll)
    {
      cache := [];
    }

    method Clear()
      requires Valid()
      modifies this
      ensures Valid() && Abs() == Next(old(Abs()), Op<V>.Clear)
    {
      cache, hits, misses, evictions := [], 0, 0, 0;
    }

    method ResetStatistics()
      requires Valid()
      modifies this
      ensures Valid() && Abs() == Next(old(Abs()), Op<V>.ResetStatistics)
    {
      hits, misses, evictions := 0, 0, 0;
      assert LinesOf(cache) + [] == LinesOf(cache);
    }
  }
}
