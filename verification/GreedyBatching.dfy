/** `batchKeys`: the greedy cut of a key list into restore batches, and its optimality. */
module GreedyBatching {
  import opened Seqs
  import opened Keys

  const MAX_XDR_SIZE_BYTES := 100_000
  const HEADER_OVERHEAD := 200
  const DEFAULT_MAX_BATCH_SIZE := 50

  /** `maxEntries` is None in the core package, which has no entry limit. */
  datatype Limits = Limits(maxEntries: Option<int>, feeBudget: Option<int>, fee: nat -> int)

  /** `config.maxRestoreBatchSize || 50`. */
  function EffectiveMaxEntries(configured: Option<int>): int {
    if configured.Some? && configured.value != 0 then configured.value else DEFAULT_MAX_BATCH_SIZE
  }

  datatype Config = Config(maxRestoreBatchSize: Option<int>, maxRestoreFeeStroops: Option<int>)

  /** The limits of the SDK, which always has an entry limit. */
  function SdkLimits(config: Config, fee: nat -> int): Limits {
    Limits(Some(EffectiveMaxEntries(config.maxRestoreBatchSize)), config.maxRestoreFeeStroops, fee)
  }

  function KeySize(key: ArchivedKey): int { |key.keyBase64| }

  /** The running size of a batch. A batch that is not the first starts from its first key's bare
      size, without that key's header overhead. */
  function BatchSize(first: bool, batch: seq<ArchivedKey>): int {
    Sum(batch, KeySize) + HEADER_OVERHEAD * (if first then |batch| else |batch| - 1)
  }

  /** The rule a batch obeys: one key is always allowed, more only within every limit. */
  predicate Fits(limits: Limits, first: bool, batch: seq<ArchivedKey>) {
    |batch| == 1 ||
    (|batch| > 1 &&
     BatchSize(first, batch) <= MAX_XDR_SIZE_BYTES &&
     (limits.maxEntries.Some? ==> |batch| <= limits.maxEntries.value) &&
     (limits.feeBudget.Some? ==> limits.fee(|batch|) <= limits.feeBudget.value))
  }

  /** A cut of `keys` into consecutive batches, each within the rule. */
  ghost predicate IsPartition(limits: Limits, first: bool, keys: seq<ArchivedKey>, batches: seq<seq<ArchivedKey>>) {
    Flatten(batches) == keys &&
    forall i :: 0 <= i < |batches| ==> Fits(limits, first && i == 0, batches[i])
  }

  ghost predicate MonotoneFee(limits: Limits) {
    forall m: nat, n: nat :: m <= n ==> limits.fee(m) <= limits.fee(n)
  }

  /** The end of the greedy batch that already holds `keys[..n]`. */
  function Grow(limits: Limits, first: bool, keys: seq<ArchivedKey>, n: nat): (r: nat)
    requires 0 < n <= |keys|
    ensures n <= r <= |keys|
    decreases |keys| - n
  {
    if n < |keys| && Fits(limits, first, keys[..n + 1]) then Grow(limits, first, keys, n + 1) else n
  }

  function Greedy(limits: Limits, first: bool, keys: seq<ArchivedKey>): seq<seq<ArchivedKey>>
    decreases |keys|
  {
    if keys == [] then []
    else
      var n := Grow(limits, first, keys, 1);
      [keys[..n]] + Greedy(limits, false, keys[n..])
  }

  function BatchKeys(limits: Limits, keys: seq<ArchivedKey>): seq<seq<ArchivedKey>> {
    Greedy(limits, true, keys)
  }

  /** The batches still to come when `current` is open and `rest` is unread. */
  function Continue(limits: Limits, first: bool, current: seq<ArchivedKey>, rest: seq<ArchivedKey>): seq<seq<ArchivedKey>>
    decreases |rest|
  {
    if rest == [] then [current]
    else if Fits(limits, first, current + [rest[0]]) then Continue(limits, first, current + [rest[0]], rest[1..])
    else [current] + Continue(limits, false, [rest[0]], rest[1..])
  }

  lemma {:induction false} ContinueIsGreedy(limits: Limits, first: bool, keys: seq<ArchivedKey>, n: nat)
    requires 0 < n <= |keys|
    ensures var m := Grow(limits, first, keys, n);
      Continue(limits, first, keys[..n], keys[n..]) == [keys[..m]] + Greedy(limits, false, keys[m..])
    decreases |keys|, |keys| - n
  {
    if n < |keys| {
      assert keys[..n + 1] == keys[..n] + [keys[n]] && keys[n..][1..] == keys[n + 1..];
      if Fits(limits, first, keys[..n + 1]) {
        ContinueIsGreedy(limits, first, keys, n + 1);
      } else {
        ContinueIsGreedy(limits, false, keys[n..], 1);
        assert keys[n..][..1] == [keys[n]];
      }
    } else {
      assert keys[..n] == keys;
    }
  }

  lemma BatchSizeSnoc(first: bool, batch: seq<ArchivedKey>, key: ArchivedKey)
    ensures BatchSize(first, batch + [key]) == BatchSize(first, batch) + KeySize(key) + HEADER_OVERHEAD
    ensures BatchSize(false, [key]) == KeySize(key)
  {
    SumAppend(batch, [key], KeySize);
    SumSingle(key, KeySize);
  }

  /** Whether adding one more key to `count` keys would exceed any limit. */
  predicate StartsNewBatch(limits: Limits, count: nat, estimatedTotalSize: int) {
    var xdrSizeExceeded := estimatedTotalSize > MAX_XDR_SIZE_BYTES && count > 0;
    var batchSizeExceeded := limits.maxEntries.Some? && count >= limits.maxEntries.value;
    var feeBudgetExceeded := limits.feeBudget.Some? && count > 0 && limits.fee(count + 1) > limits.feeBudget.value;
    (xdrSizeExceeded || batchSizeExceeded || feeBudgetExceeded) && count > 0
  }

  /** The loop as written: the size is carried along, and every limit is tested before each key. */
  method BatchKeysLoop(limits: Limits, keys: seq<ArchivedKey>) returns (batches: seq<seq<ArchivedKey>>)
    ensures batches == BatchKeys(limits, keys)
  {
    batches := [];
    var currentBatch: seq<ArchivedKey> := [];
    var currentSize := 0;
    ghost var first := true;
    for i := 0 to |keys|
      invariant currentBatch == [] <==> i == 0
      invariant i == 0 ==> batches == [] && first
      invariant currentSize == BatchSize(first, currentBatch)
      invariant currentBatch != [] ==>
        BatchKeys(limits, keys) == batches + Continue(limits, first, currentBatch, keys[i..])
    {
      var key := keys[i];
      var keySize := |key.keyBase64|;
      var estimatedTotalSize := currentSize + keySize + HEADER_OVERHEAD;
      assert keys[i..][0] == key && keys[i..][1..] == keys[i + 1..];
      BatchSizeSnoc(first, currentBatch, key);
      assert currentBatch != [] ==>
        (StartsNewBatch(limits, |currentBatch|, estimatedTotalSize) <==> !Fits(limits, first, currentBatch + [key]));
      if StartsNewBatch(limits, |currentBatch|, estimatedTotalSize) {
        ghost var later := Continue(limits, false, [key], keys[i + 1..]);
        assert batches + ([currentBatch] + later) == batches + [currentBatch] + later;
        batches := batches + [currentBatch];
        currentBatch := [key];
        currentSize := keySize;
        first := false;
      } else {
        if i == 0 {
          ContinueIsGreedy(limits, true, keys, 1);
          assert keys[..1] == [key] == currentBatch + [key];
          assert BatchKeys(limits, keys) == Continue(limits, true, [key], keys[1..]);
        }
        currentBatch := currentBatch + [key];
        currentSize := estimatedTotalSize;
      }
    }
    if |currentBatch| > 0 {
      batches := batches + [currentBatch];
    }
  }

  lemma {:induction false} GrowFits(limits: Limits, first: bool, keys: seq<ArchivedKey>, n: nat)
    requires 0 < n <= |keys| && Fits(limits, first, keys[..n])
    ensures Fits(limits, first, keys[..Grow(limits, first, keys, n)])
    decreases |keys| - n
  {
    if n < |keys| && Fits(limits, first, keys[..n + 1]) {
      GrowFits(limits, first, keys, n + 1);
    }
  }

  /** The batches are a cut of the keys, in order, that obeys the rule. */
  lemma {:induction false} GreedyIsPartition(limits: Limits, first: bool, keys: seq<ArchivedKey>)
    ensures IsPartition(limits, first, keys, Greedy(limits, first, keys))
    decreases |keys|
  {
    if keys != [] {
      var n := Grow(limits, first, keys, 1);
      GrowFits(limits, first, keys, 1);
      GreedyIsPartition(limits, false, keys[n..]);
      assert keys == keys[..n] + keys[n..];
    }
  }

  lemma SumNonNegative(s: seq<ArchivedKey>)
    ensures Sum(s, KeySize) >= 0
  {
  }

  /** Any non-empty stretch of an allowed batch is allowed, in any position but a worse one. */
  lemma FitsHereditary(limits: Limits, first: bool, batch: seq<ArchivedKey>, lo: nat, hi: nat, first': bool)
    requires MonotoneFee(limits) && Fits(limits, first, batch)
    requires lo < hi <= |batch| && (first' ==> first)
    ensures Fits(limits, first', batch[lo..hi])
  {
    assert batch == batch[..lo] + (batch[lo..hi] + batch[hi..]);
    SumAppend(batch[..lo], batch[lo..hi] + batch[hi..], KeySize);
    SumAppend(batch[lo..hi], batch[hi..], KeySize);
    SumNonNegative(batch[..lo]);
    SumNonNegative(batch[hi..]);
  }

  /** The greedy batch reaches at least as far as any allowed batch with the same start. */
  lemma {:induction false} GrowReaches(limits: Limits, first: bool, keys: seq<ArchivedKey>, n: nat, m: nat)
    requires MonotoneFee(limits)
    requires 0 < n <= m <= |keys| && Fits(limits, first, keys[..m])
    ensures Grow(limits, first, keys, n) >= m
    decreases m - n
  {
    if n < m {
      FitsHereditary(limits, first, keys[..m], 0, n + 1, first);
      assert keys[..m][0..n + 1] == keys[..n + 1];
      GrowReaches(limits, first, keys, n + 1, m);
    }
  }

  lemma {:induction false} SliceOfPrefix(keys: seq<ArchivedKey>, k: nat, a: nat)
    requires k <= a <= |keys|
    ensures keys[k..][..a - k] == keys[..a][k..a]
  {
  }

  lemma {:induction false} DropDrop(keys: seq<ArchivedKey>, a: nat, b: nat)
    requires a + b <= |keys|
    ensures keys[a..][b..] == keys[a + b..]
  {
  }

  /** Started anywhere inside an allowed batch, it reaches at least that batch's end. */
  lemma {:induction false} GrowCovers(limits: Limits, first: bool, keys: seq<ArchivedKey>, k: nat, a: nat, first': bool)
    requires MonotoneFee(limits) && k < a <= |keys| && Fits(limits, first, keys[..a]) && (first' ==> first)
    ensures Grow(limits, first', keys[k..], 1) >= a - k
  {
    FitsHereditary(limits, first, keys[..a], k, a, first');
    SliceOfPrefix(keys, k, a);
    GrowReaches(limits, first', keys[k..], 1, a - k);
  }

  /** The greedy batch from `k` on, and the rest. */
  lemma {:induction false} GreedyFrom(limits: Limits, first: bool, keys: seq<ArchivedKey>, k: nat) returns (next: nat)
    requires k < |keys|
    ensures next == k + Grow(limits, first, keys[k..], 1) && k < next <= |keys|
    ensures |Greedy(limits, first, keys[k..])| == 1 + |Greedy(limits, false, keys[next..])|
  {
    var n := Grow(limits, first, keys[k..], 1);
    next := k + n;
    DropDrop(keys, k, n);
  }

  /** One greedy batch from inside an allowed batch leads past its end. */
  lemma {:induction false} StepPast(limits: Limits, first: bool, keys: seq<ArchivedKey>, k: nat, a: nat, first': bool) returns (m: nat)
    requires MonotoneFee(limits) && k < a <= |keys| && Fits(limits, first, keys[..a]) && (first' ==> first)
    ensures a + m <= |keys|
    ensures |Greedy(limits, first', keys[k..])| == 1 + |Greedy(limits, false, keys[a..][m..])|
  {
    var next := GreedyFrom(limits, first', keys, k);
    GrowCovers(limits, first, keys, k, a, first');
    m := next - a;
    DropDrop(keys, a, m);
  }

  lemma {:induction false} PartitionTail(limits: Limits, first: bool, keys: seq<ArchivedKey>, batches: seq<seq<ArchivedKey>>)
    requires IsPartition(limits, first, keys, batches) && batches != []
    ensures var a := |batches[0]|;
      0 < a <= |keys| && keys[..a] == batches[0] && Fits(limits, first, keys[..a]) &&
      IsPartition(limits, false, keys[a..], batches[1..])
  {
    var a := |batches[0]|;
    assert keys == batches[0] + Flatten(batches[1..]);
    assert keys[a..] == Flatten(batches[1..]) && keys[..a] == batches[0];
  }

  /** Greedy stays ahead: from any later starting point it needs no more batches than any other
      allowed cut of the whole list. */
  lemma {:induction false} GreedyStaysAhead(limits: Limits, first: bool, keys: seq<ArchivedKey>,
                                           other: seq<seq<ArchivedKey>>, k: nat, first': bool)
    requires MonotoneFee(limits)
    requires IsPartition(limits, first, keys, other)
    requires k <= |keys| && (first' ==> first && k == 0)
    ensures |Greedy(limits, first', keys[k..])| <= |other|
    decreases |other|
  {
    if k < |keys| {
      var a := |other[0]|;
      var rest := other[1..];
      PartitionTail(limits, first, keys, other);
      if a <= k {
        DropDrop(keys, a, k - a);
        GreedyStaysAhead(limits, false, keys[a..], rest, k - a, first');
      } else {
        var m := StepPast(limits, first, keys, k, a, first');
        GreedyStaysAhead(limits, false, keys[a..], rest, m, false);
      }
    }
  }

  /** No order-preserving cut that obeys the rule uses fewer batches. */
  lemma BatchKeysOptimal(limits: Limits, keys: seq<ArchivedKey>, other: seq<seq<ArchivedKey>>)
    requires MonotoneFee(limits)
    requires IsPartition(limits, true, keys, other)
    ensures IsPartition(limits, true, keys, BatchKeys(limits, keys))
    ensures |BatchKeys(limits, keys)| <= |other|
  {
    GreedyIsPartition(limits, true, keys);
    GreedyStaysAhead(limits, true, keys, other, 0, true);
    assert keys[0..] == keys;
  }

  /** What a reader may rely on for each batch: it is not empty, and with two or more keys it is
      within the size limit (one header short), the entry limit and the fee budget. */
  lemma BatchBounds(limits: Limits, keys: seq<ArchivedKey>, i: nat)
    requires i < |BatchKeys(limits, keys)|
    ensures var b := BatchKeys(limits, keys)[i];
      b != [] &&
      (|b| > 1 ==> Sum(b, KeySize) + HEADER_OVERHEAD * (|b| - 1) <= MAX_XDR_SIZE_BYTES) &&
      (|b| > 1 && limits.maxEntries.Some? ==> |b| <= limits.maxEntries.value) &&
      (|b| > 1 && limits.feeBudget.Some? ==> limits.fee(|b|) <= limits.feeBudget.value)
  {
    GreedyIsPartition(limits, true, keys);
  }

  /** This batch would break a limit: the size, with one header left out unless it is the first, the entries or the fee. */
  ghost predicate Overfull(limits: Limits, first: bool, batch: seq<ArchivedKey>) {
    Sum(batch, KeySize) + HEADER_OVERHEAD * (|batch| - if first then 0 else 1) > MAX_XDR_SIZE_BYTES ||
    (limits.maxEntries.Some? && |batch| > limits.maxEntries.value) ||
    (limits.feeBudget.Some? && limits.fee(|batch|) > limits.feeBudget.value)
  }

  lemma {:induction false} GrowStops(limits: Limits, first: bool, keys: seq<ArchivedKey>, n: nat)
    requires 0 < n <= |keys|
    ensures var r := Grow(limits, first, keys, n); r < |keys| ==> Overfull(limits, first, keys[..r + 1])
    decreases |keys| - n
  {
    if n < |keys| && Fits(limits, first, keys[..n + 1]) {
      GrowStops(limits, first, keys, n + 1);
    }
  }

  /** A batch ends only where it must: with the first key of the next batch it would break a limit. */
  lemma {:induction false} EndsOnlyWhenFull(limits: Limits, first: bool, keys: seq<ArchivedKey>, i: nat)
    requires i + 1 < |Greedy(limits, first, keys)|
    ensures var batches := Greedy(limits, first, keys);
      batches[i + 1] != [] && Overfull(limits, first && i == 0, batches[i] + [batches[i + 1][0]])
    decreases i
  {
    var n := Grow(limits, first, keys, 1);
    var rest := keys[n..];
    if i == 0 {
      GrowStops(limits, first, keys, 1);
      assert rest != [] && Greedy(limits, false, rest)[0] == rest[..Grow(limits, false, rest, 1)];
      assert keys[..n] + [rest[0]] == keys[..n + 1];
    } else {
      EndsOnlyWhenFull(limits, false, rest, i - 1);
    }
  }

  /** In the SDK no batch has more keys than configured, or than fifty when nothing or zero is; a negative number leaves one
      key to a batch. */
  lemma SdkBatchBounds(config: Config, fee: nat -> int, keys: seq<ArchivedKey>, i: nat)
    requires i < |BatchKeys(SdkLimits(config, fee), keys)|
    ensures var n := |BatchKeys(SdkLimits(config, fee), keys)[i]|;
      match config.maxRestoreBatchSize
      case None => n <= 50
      case Some(max) => if max == 0 then n <= 50 else if max < 0 then n == 1 else n <= max
    ensures var n := |BatchKeys(SdkLimits(config, fee), keys)[i]|;
      config.maxRestoreFeeStroops.Some? && n > 1 ==> fee(n) <= config.maxRestoreFeeStroops.value
  {
    BatchBounds(SdkLimits(config, fee), keys, i);
  }

  // ---- The estimate with every header counted ----

  /** The cut that counts every header in every batch. */
  function FullCut(limits: Limits, keys: seq<ArchivedKey>): seq<seq<ArchivedKey>>
    decreases |keys|
  {
    if keys == [] then []
    else
      var n := Grow(limits, true, keys, 1);
      [keys[..n]] + FullCut(limits, keys[n..])
  }

  /** Every batch of two or more keys is within the limit with every header counted. */
  ghost predicate WithinFullEstimate(batches: seq<seq<ArchivedKey>>) {
    forall b :: b in batches && |b| > 1 ==> BatchSize(true, b) <= MAX_XDR_SIZE_BYTES
  }

  lemma WithinStep(b: seq<ArchivedKey>, rest: seq<seq<ArchivedKey>>)
    ensures WithinFullEstimate([b] + rest) <==>
      (|b| > 1 ==> BatchSize(true, b) <= MAX_XDR_SIZE_BYTES) && WithinFullEstimate(rest)
  {
    assert b in [b] + rest && forall x :: x in rest ==> x in [b] + rest;
  }

  /** The first batches of the two cuts agree exactly when the greedy one is within the full estimate. */
  lemma {:induction false} SameFirstBatch(limits: Limits, first: bool, keys: seq<ArchivedKey>)
    requires MonotoneFee(limits) && keys != []
    ensures var n := Grow(limits, first, keys, 1);
      (|keys[..n]| > 1 ==> BatchSize(true, keys[..n]) <= MAX_XDR_SIZE_BYTES) <==> n == Grow(limits, true, keys, 1)
  {
    var n, m := Grow(limits, first, keys, 1), Grow(limits, true, keys, 1);
    GrowFits(limits, first, keys, 1);
    GrowFits(limits, true, keys, 1);
    FitsHereditary(limits, true, keys[..m], 0, m, first);
    assert keys[..m][0..m] == keys[..m];
    GrowReaches(limits, first, keys, 1, m);
    if |keys[..n]| > 1 ==> BatchSize(true, keys[..n]) <= MAX_XDR_SIZE_BYTES {
      GrowReaches(limits, true, keys, 1, n);
    }
  }

  /** Every batch of two or more keys keeps the estimate with all its headers if and only if the greedy cut is
      the one that counts every header. */
  lemma {:induction false} FullEstimateIff(limits: Limits, first: bool, keys: seq<ArchivedKey>)
    requires MonotoneFee(limits)
    ensures WithinFullEstimate(Greedy(limits, first, keys)) <==> Greedy(limits, first, keys) == FullCut(limits, keys)
    decreases |keys|
  {
    if keys != [] {
      var n, m := Grow(limits, first, keys, 1), Grow(limits, true, keys, 1);
      SameFirstBatch(limits, first, keys);
      WithinStep(keys[..n], Greedy(limits, false, keys[n..]));
      if n == m {
        FullEstimateIff(limits, false, keys[n..]);
        assert Greedy(limits, first, keys)[1..] == Greedy(limits, false, keys[n..]);
        assert FullCut(limits, keys)[1..] == FullCut(limits, keys[n..]);
      } else {
        assert |Greedy(limits, first, keys)[0]| == n && |FullCut(limits, keys)[0]| == m;
      }
    }
  }

  /** No batch of the cut, other than the first, could take its next key if it left a header out. */
  predicate Tight(limits: Limits, first: bool, cut: seq<seq<ArchivedKey>>)
    decreases |cut|
  {
    |cut| <= 1 ||
    ((first || cut[1] == [] || !Fits(limits, false, cut[0] + [cut[1][0]])) && Tight(limits, false, cut[1..]))
  }

  lemma {:induction false} LaxerStops(limits: Limits, keys: seq<ArchivedKey>)
    requires MonotoneFee(limits) && keys != []
    ensures var n := Grow(limits, true, keys, 1);
      Grow(limits, false, keys, 1) == n <==> n == |keys| || !Fits(limits, false, keys[..n + 1])
  {
    var n, g := Grow(limits, true, keys, 1), Grow(limits, false, keys, 1);
    GrowFits(limits, true, keys, 1);
    GrowFits(limits, false, keys, 1);
    FitsHereditary(limits, true, keys[..n], 0, n, false);
    assert keys[..n][0..n] == keys[..n];
    GrowReaches(limits, false, keys, 1, n);
    if n < |keys| && Fits(limits, false, keys[..n + 1]) {
      GrowReaches(limits, false, keys, 1, n + 1);
    }
    if g > n {
      FitsHereditary(limits, false, keys[..g], 0, n + 1, false);
      assert keys[..g][0..n + 1] == keys[..n + 1];
    }
  }

  lemma FullCutHead(limits: Limits, keys: seq<ArchivedKey>)
    requires keys != []
    ensures FullCut(limits, keys) != [] && FullCut(limits, keys)[0] != [] && FullCut(limits, keys)[0][0] == keys[0]
  {
  }

  /** The greedy cut is the one that counts every header if and only if that one is tight: a condition on the full cut
      alone. */
  lemma {:induction false} TightIff(limits: Limits, first: bool, keys: seq<ArchivedKey>)
    requires MonotoneFee(limits)
    ensures Greedy(limits, first, keys) == FullCut(limits, keys) <==> Tight(limits, first, FullCut(limits, keys))
    decreases |keys|
  {
    if keys != [] {
      var n, m := Grow(limits, first, keys, 1), Grow(limits, true, keys, 1);
      var cut, rest := FullCut(limits, keys), FullCut(limits, keys[m..]);
      LaxerStops(limits, keys);
      TightIff(limits, false, keys[m..]);
      assert cut[0] == keys[..m] && cut[1..] == rest;
      if m < |keys| {
        FullCutHead(limits, keys[m..]);
        assert keys[..m] + [rest[0][0]] == keys[..m + 1];
      }
      assert Greedy(limits, first, keys)[0] == keys[..n] && Greedy(limits, first, keys)[1..] == Greedy(limits, false, keys[n..]);
      assert |keys[..n]| == n && |keys[..m]| == m;
    }
  }

  /** So every batch of two or more keys keeps the full estimate if and only if the full cut is tight. */
  lemma FullEstimateTight(limits: Limits, keys: seq<ArchivedKey>)
    requires MonotoneFee(limits)
    ensures WithinFullEstimate(BatchKeys(limits, keys)) <==> Tight(limits, true, FullCut(limits, keys))
  {
    FullEstimateIff(limits, true, keys);
    TightIff(limits, true, keys);
  }

  /** The two cuts do differ: here the second batch exceeds the limit by the one header its restart leaves out. */
  lemma HeaderLeftOut(limits: Limits, a: ArchivedKey, b: ArchivedKey, c: ArchivedKey)
    requires limits.maxEntries.None? && limits.feeBudget.None?
    requires KeySize(a) == 99_000 && KeySize(b) == 50_000 && KeySize(c) == 49_800
    ensures BatchKeys(limits, [a, b, c]) == [[a], [b, c]]
    ensures BatchSize(true, [b, c]) == MAX_XDR_SIZE_BYTES + HEADER_OVERHEAD
  {
    var keys := [a, b, c];
    ContinueIsGreedy(limits, true, keys, 1);
    assert keys[..1] == [a] && keys[1..] == [b, c] && [b, c][1..] == [c];
    BatchSizeSnoc(true, [], a);
    BatchSizeSnoc(true, [a], b);
    BatchSizeSnoc(false, [b], c);
    assert [] + [a] == [a] && [a] + [b] == [a, b] && [b] + [c] == [b, c];
    assert Continue(limits, false, [b], [c]) == [[b, c]];
  }
}
