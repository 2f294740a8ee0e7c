/** The abstract simulation cache: a recency list with a capacity and a time to live, the operations
    on it, and what holds over every run of operations. */
module LruModel {
  import opened Seqs

  datatype Line<V> = Line(key: string, value: V, expiresAt: int)

  /** `lines` runs from least to most recently used. */
  datatype Lru<V> = Lru(capacity: nat, ttlMs: int, lines: seq<Line<V>>, hits: nat, misses: nat, evictions: nat)

  datatype Op<V> =
    | Get(key: string, now: int)
    | Set(key: string, value: V, now: int)
    | Has(key: string, now: int)
    | Invalidate(key: string)
    | InvalidateAll
    | Clear
    | ClearExpired(now: int)
    | ResetStatistics

  function Empty<V>(capacity: nat, ttlMs: int): Lru<V> { Lru(capacity, ttlMs, [], 0, 0, 0) }

  function Find<V>(lines: seq<Line<V>>, key: string): (r: Option<Line<V>>)
    ensures r.None? ==> forall i :: 0 <= i < |lines| ==> lines[i].key != key
    ensures r.Some? ==> r.value in lines && r.value.key == key
  {
    if lines == [] then None
    else if lines[0].key == key then Some(lines[0])
    else Find(lines[1..], key)
  }

  function KeyIsNot<V>(key: string): Line<V> -> bool { (l: Line<V>) => l.key != key }

  function FreshAt<V>(now: int): Line<V> -> bool { (l: Line<V>) => now <= l.expiresAt }

  function Without<V(!new)>(lines: seq<Line<V>>, key: string): seq<Line<V>> { Filter(lines, KeyIsNot(key)) }

  predicate Hit<V>(c: Lru<V>, key: string, now: int) {
    Find(c.lines, key).Some? && now <= Find(c.lines, key).value.expiresAt
  }

  predicate Evicts<V>(c: Lru<V>, key: string) {
    |c.lines| >= c.capacity && Find(c.lines, key).None? && c.lines != []
  }

  /** The lines an operation leaves in place, in their old order. */
  function Kept<V(!new)>(c: Lru<V>, op: Op<V>): seq<Line<V>> {
    match op
    case Get(key, now) => Without(c.lines, key)
    case Set(key, value, now) => if Evicts(c, key) then c.lines[1..] else Without(c.lines, key)
    case Has(key, now) => if Hit(c, key, now) then c.lines else Without(c.lines, key)
    case Invalidate(key) => Without(c.lines, key)
    case InvalidateAll => []
    case Clear => []
    case ClearExpired(now) => Filter(c.lines, FreshAt(now))
    case ResetStatistics => c.lines
  }

  /** The line an operation makes most recent, if any. */
  function Touched<V>(c: Lru<V>, op: Op<V>): seq<Line<V>> {
    match op
    case Get(key, now) => if Hit(c, key, now) then [Find(c.lines, key).value] else []
    case Set(key, value, now) => [Line(key, value, now + c.ttlMs)]
    case _ => []
  }

  function Next<V(!new)>(c: Lru<V>, op: Op<V>): Lru<V> {
    var lines := Kept(c, op) + Touched(c, op);
    match op
    case Get(key, now) =>
      if Hit(c, key, now) then c.(lines := lines, hits := c.hits + 1) else c.(lines := lines, misses := c.misses + 1)
    case Set(key, value, now) =>
      c.(lines := lines, evictions := c.evictions + if Evicts(c, key) then 1 else 0)
    case Clear => c.(lines := lines, hits := 0, misses := 0, evictions := 0)
    case ResetStatistics => c.(lines := lines, hits := 0, misses := 0, evictions := 0)
    case _ => c.(lines := lines)
  }

  function Run<V(!new)>(c: Lru<V>, ops: seq<Op<V>>): Lru<V> {
    if ops == [] then c else Next(Run(c, ops[..|ops| - 1]), ops[|ops| - 1])
  }

  // ---- What every run keeps ----

  predicate Removes<V>(op: Op<V>, key: string) {
    op.InvalidateAll? || op.Clear? || (op.Invalidate? && op.key == key)
  }

  /** The value and expiry of the last `Set` of `key` not followed by an invalidation of it. */
  function LastSet<V>(ttlMs: int, ops: seq<Op<V>>, key: string): Option<Line<V>> {
    if ops == [] then None
    else
      var before, op := ops[..|ops| - 1], ops[|ops| - 1];
      if op.Set? && op.key == key then Some(Line(key, op.value, op.now + ttlMs))
      else if Removes(op, key) then None
      else LastSet(ttlMs, before, key)
  }

  predicate TouchesKey<V>(c: Lru<V>, op: Op<V>, key: string) {
    (op.Set? && op.key == key) || (op.Get? && op.key == key && Hit(c, key, op.now))
  }

  /** How many operations had run just after `key` was last set or returned as a hit. */
  function LastTouch<V(!new)>(c: Lru<V>, ops: seq<Op<V>>, key: string): (n: nat)
    ensures n <= |ops|
  {
    if ops == [] then 0
    else if TouchesKey(Run(c, ops[..|ops| - 1]), ops[|ops| - 1], key) then |ops|
    else LastTouch(c, ops[..|ops| - 1], key)
  }

  ghost function TouchRank<V(!new)>(c: Lru<V>, ops: seq<Op<V>>): Line<V> -> int {
    (l: Line<V>) => LastTouch(c, ops, l.key)
  }

  /** The number of `Get`s since the statistics were last cleared. */
  function GetsCounted<V>(ops: seq<Op<V>>): nat {
    if ops == [] then 0
    else
      var before, op := ops[..|ops| - 1], ops[|ops| - 1];
      if op.Clear? || op.ResetStatistics? then 0 else GetsCounted(before) + if op.Get? then 1 else 0
  }

  ghost predicate PartOf<V(!new)>(kept: seq<Line<V>>, lines: seq<Line<V>>) {
    Subsequence(kept, lines) && |kept| <= |lines| && forall i :: 0 <= i < |kept| ==> kept[i] in lines
  }

  lemma FilterPartOf<V(!new)>(lines: seq<Line<V>>, p: Line<V> -> bool)
    ensures PartOf(Filter(lines, p), lines)
    ensures forall l :: l in Filter(lines, p) ==> p(l)
  {
    FilterSubsequence(lines, p);
    SubsequenceMembers(Filter(lines, p), lines);
    FilterMembers(lines, p);
  }

  lemma {:induction false} WithoutFacts<V(!new)>(lines: seq<Line<V>>, key: string)
    ensures PartOf(Without(lines, key), lines)
    ensures forall l :: l in Without(lines, key) ==> l.key != key
    ensures Find(lines, key).Some? ==> |Without(lines, key)| < |lines|
    ensures Find(lines, key).None? ==> Without(lines, key) == lines
  {
    FilterPartOf(lines, KeyIsNot(key));
    WithoutLength(lines, key);
  }

  lemma {:induction false} WithoutLength<V(!new)>(lines: seq<Line<V>>, key: string)
    ensures |Without(lines, key)| <= |lines|
    ensures Find(lines, key).Some? ==> |Without(lines, key)| < |lines|
    ensures Find(lines, key).None? ==> Without(lines, key) == lines
  {
    if lines != [] {
      WithoutLength(lines[1..], key);
    }
  }

  lemma SetFacts<V(!new)>(c: Lru<V>, op: Op<V>)
    requires op.Set?
    ensures PartOf(Kept(c, op), c.lines)
    ensures forall l :: l in Kept(c, op) ==> l.key != op.key
    ensures c.capacity >= 1 && |c.lines| <= c.capacity ==> |Kept(c, op)| < c.capacity
  {
    WithoutFacts(c.lines, op.key);
    if Evicts(c, op.key) {
      SubsequenceSelf(c.lines);
      SubsequenceDrop(c.lines, c.lines);
      assert forall l :: l in c.lines[1..] ==> l in c.lines;
    }
  }

  /** An operation keeps a part of the lines, in order, none of them of a key it touches or removes,
      and stays within the capacity. */
  lemma KeptFacts<V(!new)>(c: Lru<V>, op: Op<V>)
    ensures PartOf(Kept(c, op), c.lines)
    ensures forall l, key :: l in Kept(c, op) && TouchesKey(c, op, key) ==> l.key != key
    ensures forall l :: l in Kept(c, op) ==> !Removes(op, l.key)
    ensures c.capacity >= 1 && |c.lines| <= c.capacity ==> |Kept(c, op) + Touched(c, op)| <= c.capacity
  {
    match op
    case Get(key, now) => WithoutFacts(c.lines, key);
    case Set(key, value, now) => SetFacts(c, op);
    case Has(key, now) =>
      WithoutFacts(c.lines, key);
      SubsequenceSelf(c.lines);
    case Invalidate(key) => WithoutFacts(c.lines, key);
    case InvalidateAll =>
    case Clear =>
    case ClearExpired(now) => FilterPartOf(c.lines, FreshAt(now));
    case ResetStatistics => SubsequenceSelf(c.lines);
  }

  /** Every line is exactly what was last set for its key. */
  ghost predicate HoldsLastSets<V>(ttlMs: int, ops: seq<Op<V>>, lines: seq<Line<V>>) {
    forall i :: 0 <= i < |lines| ==> LastSet(ttlMs, ops, lines[i].key) == Some(lines[i])
  }

  lemma KeptHoldLastSets<V(!new)>(c: Lru<V>, before: seq<Op<V>>, op: Op<V>, ops: seq<Op<V>>)
    requires ops == before + [op]
    requires HoldsLastSets(c.ttlMs, before, c.lines)
    ensures HoldsLastSets(c.ttlMs, ops, Kept(c, op) + Touched(c, op))
  {
    assert ops[..|ops| - 1] == before && ops[|ops| - 1] == op;
    var kept, touched := Kept(c, op), Touched(c, op);
    KeptFacts(c, op);
    forall i | 0 <= i < |kept| ensures LastSet(c.ttlMs, ops, kept[i].key) == Some(kept[i]) {
      assert kept[i] in kept && kept[i] in c.lines;
      assert op.Set? ==> TouchesKey(c, op, op.key);
    }
    if op.Get? && touched != [] {
      assert touched[0] in c.lines;
    }
  }

  lemma KeptKeepTouch<V(!new)>(c: Lru<V>, before: seq<Op<V>>, op: Op<V>, ops: seq<Op<V>>)
    requires ops == before + [op]
    ensures var kept := Kept(Run(c, before), op);
      forall i :: 0 <= i < |kept| ==> LastTouch(c, ops, kept[i].key) == LastTouch(c, before, kept[i].key)
  {
    var kept := Kept(Run(c, before), op);
    assert ops[..|ops| - 1] == before;
    KeptFacts(Run(c, before), op);
    assert forall i :: 0 <= i < |kept| ==> kept[i] in kept;
  }

  lemma KeptStayOrdered<V(!new)>(c: Lru<V>, before: seq<Op<V>>, op: Op<V>, ops: seq<Op<V>>)
    requires ops == before + [op]
    requires StrictlySortedBy(Run(c, before).lines, TouchRank(c, before))
    ensures StrictlySortedBy(Kept(Run(c, before), op) + Touched(Run(c, before), op), TouchRank(c, ops))
  {
    var r := Run(c, before);
    assert ops[..|ops| - 1] == before;
    KeptFacts(r, op);
    SubsequenceOrdered(Kept(r, op), r.lines, TouchRank(c, before));
    KeptKeepTouch(c, before, op, ops);
    if Touched(r, op) != [] {
      assert TouchesKey(r, op, Touched(r, op)[0].key);
    }
  }

  /** Every reachable state: the capacity is respected, each line is exactly what was last set for
      its key, the list is in strict order of last touch (so keys are distinct), and the counters
      count the gets. */
  lemma {:induction false} RunFacts<V(!new)>(capacity: nat, ttlMs: int, ops: seq<Op<V>>)
    requires capacity >= 1
    ensures var c := Empty<V>(capacity, ttlMs); var r := Run(c, ops);
      r.capacity == capacity && r.ttlMs == ttlMs && |r.lines| <= capacity &&
      HoldsLastSets(ttlMs, ops, r.lines) &&
      StrictlySortedBy(r.lines, TouchRank(c, ops)) &&
      r.hits + r.misses == GetsCounted(ops)
  {
    if ops != [] {
      var c, before, op := Empty<V>(capacity, ttlMs), ops[..|ops| - 1], ops[|ops| - 1];
      RunFacts<V>(capacity, ttlMs, before);
      KeptFacts(Run(c, before), op);
      KeptStayOrdered(c, before, op, ops);
      KeptHoldLastSets(Run(c, before), before, op, ops);
    }
  }

  /** A hit answers with the value last set for the key and never after its expiry; a set that
      evicts drops exactly the line whose last touch is earliest. */
  lemma HitsAndEvictions<V(!new)>(capacity: nat, ttlMs: int, ops: seq<Op<V>>, key: string, now: int)
    requires capacity >= 1
    ensures var r := Run(Empty<V>(capacity, ttlMs), ops);
      Hit(r, key, now) ==>
        LastSet(ttlMs, ops, key) == Find(r.lines, key) && now <= LastSet(ttlMs, ops, key).value.expiresAt
    ensures var c := Empty<V>(capacity, ttlMs); var r := Run(c, ops);
      Evicts(r, key) ==>
        |r.lines| == capacity &&
        forall v, i :: 0 < i < |r.lines| ==>
          Kept(r, Set(key, v, now))[i - 1] == r.lines[i] &&
          LastTouch(c, ops, r.lines[0].key) < LastTouch(c, ops, r.lines[i].key)
  {
    RunFacts<V>(capacity, ttlMs, ops);
    var c := Empty<V>(capacity, ttlMs);
    var r := Run(c, ops);
    assert forall i :: 0 <= i < |r.lines| ==> TouchRank(c, ops)(r.lines[i]) == LastTouch(c, ops, r.lines[i].key);
  }
}
