/** Suppression of repeated events within a time window. */
module EventDeduplicator {
  import opened Seqs
  import opened InsertionMap

  datatype Event = Event(sequence: int, now: int)

  /** When each tracked sequence was last emitted, in insertion order. */
  type Emissions = seq<Binding<int, int>>

  /** Still inside the window that opened at the last emission. */
  predicate Recent(m: Emissions, sequence: int, now: int, windowMs: int) {
    var emittedAt := Lookup(m, sequence);
    emittedAt.Some? && now - emittedAt.value < windowMs
  }

  function InWindow(now: int, windowMs: int): Binding<int, int> -> bool {
    (b: Binding<int, int>) => now - b.value < windowMs
  }

  function Pruned(m: Emissions, now: int, windowMs: int): Emissions { Filter(m, InWindow(now, windowMs)) }

  /** `isDuplicate`: the map afterwards; the answer is `Recent`. */
  function Checked(m: Emissions, e: Event, windowMs: int): Emissions {
    var p := Pruned(m, e.now, windowMs);
    if Recent(p, e.sequence, e.now, windowMs) then p else Put(p, e.sequence, e.now)
  }

  lemma {:induction false} PrunedDistinct(m: Emissions, now: int, windowMs: int)
    requires DistinctKeys(m)
    ensures DistinctKeys(Pruned(m, now, windowMs))
  {
    if m != [] {
      var rest := Pruned(m[1..], now, windowMs);
      PrunedDistinct(m[1..], now, windowMs);
      FilterMembers(m[1..], InWindow(now, windowMs));
      forall i | 0 <= i < |rest| ensures rest[i].key != m[0].key {
        assert rest[i] in m[1..];
        var j :| 0 <= j < |m[1..]| && m[1..][j] == rest[i];
        assert m[j + 1] == m[1..][j];
      }
    }
  }

  /** What a lookup finds once the map is pruned. */
  lemma LookupPruned(m: Emissions, now: int, windowMs: int, sequence: int)
    requires DistinctKeys(m)
    ensures DistinctKeys(Pruned(m, now, windowMs))
    ensures Lookup(Pruned(m, now, windowMs), sequence) ==
      if Recent(m, sequence, now, windowMs) then Lookup(m, sequence) else None
  {
    PrunedDistinct(m, now, windowMs);
    FilterMembers(m, InWindow(now, windowMs));
    var p := Pruned(m, now, windowMs);
    if Lookup(p, sequence).Some? {
      LookupIff(p, sequence, Lookup(p, sequence).value);
      LookupIff(m, sequence, Lookup(p, sequence).value);
    }
    if Recent(m, sequence, now, windowMs) {
      LookupIff(m, sequence, Lookup(m, sequence).value);
      LookupIff(p, sequence, Lookup(m, sequence).value);
    }
  }

  // ---- The reference: the whole past, nothing pruned ----

  /** When `sequence` was last emitted in the course of `events`. */
  function LastEmission(events: seq<Event>, sequence: int, windowMs: int): Option<int>
    decreases |events|, 0
  {
    if events == [] then None
    else
      var before, e := events[..|events| - 1], events[|events| - 1];
      if e.sequence == sequence && !Suppressed(before, e, windowMs) then Some(e.now)
      else LastEmission(before, sequence, windowMs)
  }

  /** Whether `e`, coming after `events`, is suppressed: its sequence was last emitted within the window. */
  predicate Suppressed(events: seq<Event>, e: Event, windowMs: int)
    decreases |events|, 1
  {
    var last := LastEmission(events, e.sequence, windowMs);
    last.Some? && e.now - last.value < windowMs
  }

  /** The tracked map after `events`. */
  function Tracked(events: seq<Event>, windowMs: int): Emissions {
    if events == [] then [] else Checked(Tracked(events[..|events| - 1], windowMs), events[|events| - 1], windowMs)
  }

  ghost predicate Forward(events: seq<Event>) {
    forall i, j :: 0 <= i < j < |events| ==> events[i].now <= events[j].now
  }

  /** The tracked map is the reference without entries that are already out of their window. */
  lemma {:induction false} TrackedFacts(events: seq<Event>, windowMs: int, sequence: int)
    requires Forward(events)
    ensures DistinctKeys(Tracked(events, windowMs))
    ensures var found, last := Lookup(Tracked(events, windowMs), sequence), LastEmission(events, sequence, windowMs);
      (found.Some? ==> last == found) &&
      (last.Some? && found.None? ==> events[|events| - 1].now - last.value >= windowMs) &&
      (last.Some? ==> events != [] && last.value <= events[|events| - 1].now)
  {
    if events != [] {
      var before, e := events[..|events| - 1], events[|events| - 1];
      var m := Tracked(before, windowMs);
      TrackedFacts(before, windowMs, sequence);
      TrackedFacts(before, windowMs, e.sequence);
      LookupPruned(m, e.now, windowMs, sequence);
      LookupPruned(m, e.now, windowMs, e.sequence);
      PutThenLookup(Pruned(m, e.now, windowMs), e.sequence, e.now, sequence);
    }
  }

  /** Under a clock that does not go back, pruning never changes an answer. */
  lemma PruningInvisible(events: seq<Event>, e: Event, windowMs: int)
    requires Forward(events + [e])
    ensures Recent(Tracked(events, windowMs), e.sequence, e.now, windowMs) <==> Suppressed(events, e, windowMs)
  {
    assert forall i :: 0 <= i < |events| ==> (events + [e])[i] == events[i];
    assert (events + [e])[|events|] == e;
    TrackedFacts(events, windowMs, e.sequence);
  }

  ghost predicate Emitted(events: seq<Event>, i: nat, windowMs: int)
    requires i < |events|
  {
    !Suppressed(events[..i], events[i], windowMs)
  }

  /** The last emission is an emission, of that sequence and time. */
  lemma {:induction false} LastEmissionIsEmitted(events: seq<Event>, sequence: int, windowMs: int) returns (i: nat)
    requires LastEmission(events, sequence, windowMs).Some?
    ensures i < |events| && events[i].sequence == sequence && Emitted(events, i, windowMs)
    ensures LastEmission(events, sequence, windowMs) == Some(events[i].now)
  {
    var last := |events| - 1;
    if events[last].sequence == sequence && Emitted(events, last, windowMs) {
      i := last;
    } else {
      i := LastEmissionIsEmitted(events[..last], sequence, windowMs);
      assert events[..last][..i] == events[..i];
    }
  }

  lemma {:induction false} LastEmissionLatest(events: seq<Event>, windowMs: int, i: nat)
    requires Forward(events) && i < |events| && Emitted(events, i, windowMs)
    ensures var last := LastEmission(events, events[i].sequence, windowMs); last.Some? && last.value >= events[i].now
  {
    if i < |events| - 1 {
      var before := events[..|events| - 1];
      assert before[..i] == events[..i];
      LastEmissionLatest(before, windowMs, i);
    }
  }

  /** The answer given to event `i`: whether the tracked map suppresses it. */
  predicate Answer(events: seq<Event>, i: nat, windowMs: int)
    requires i < |events|
  {
    Recent(Tracked(events[..i], windowMs), events[i].sequence, events[i].now, windowMs)
  }

  lemma AnswerIsReference(events: seq<Event>, i: nat, windowMs: int)
    requires Forward(events) && i < |events|
    ensures Answer(events, i, windowMs) <==> !Emitted(events, i, windowMs)
  {
    assert events[..i] + [events[i]] == events[..i + 1];
    PruningInvisible(events[..i], events[i], windowMs);
  }

  /** Two events of one sequence that are both let through are at least a window apart. */
  lemma EmissionsApart(events: seq<Event>, windowMs: int, i: nat, j: nat)
    requires Forward(events) && i < j < |events| && events[i].sequence == events[j].sequence
    requires !Answer(events, i, windowMs) && !Answer(events, j, windowMs)
    ensures events[j].now - events[i].now >= windowMs
  {
    AnswerIsReference(events, i, windowMs);
    AnswerIsReference(events, j, windowMs);
    assert events[..j][..i] == events[..i];
    LastEmissionLatest(events[..j], windowMs, i);
  }

  /** Every suppressed event is within a window of an earlier one that was let through, so suppressing never
      extends the window. */
  lemma SuppressionNearEmission(events: seq<Event>, windowMs: int, j: nat) returns (i: nat)
    requires Forward(events) && j < |events| && Answer(events, j, windowMs)
    ensures i < j && events[i].sequence == events[j].sequence && !Answer(events, i, windowMs)
    ensures events[j].now - events[i].now < windowMs
  {
    AnswerIsReference(events, j, windowMs);
    i := LastEmissionIsEmitted(events[..j], events[j].sequence, windowMs);
    assert events[..j][..i] == events[..i];
    AnswerIsReference(events, i, windowMs);
  }

  class EventDeduplicator {
    var recentSequences: Emissions
    const windowMs: int

    ghost predicate Valid()
      reads this
    {
      DistinctKeys(recentSequences)
    }

    constructor (windowMs: Option<int>)
      ensures Valid() && recentSequences == []
      ensures this.windowMs == if windowMs.Some? then windowMs.value else 2000
    {
      recentSequences := [];
      this.windowMs := if windowMs.Some? then windowMs.value else 2000;
    }

    method PruneOldEntries(now: int)
      requires Valid()
      modifies this`recentSequences
      ensures Valid() && recentSequences == Pruned(old(recentSequences), now, windowMs)
    {
      var entries := recentSequences;
      ghost var kept: Emissions := [];
      for i := 0 to |entries|
        invariant DistinctKeys(recentSequences) && recentSequences == kept + entries[i..]
        invariant kept + Pruned(entries[i..], now, windowMs) == Pruned(entries, now, windowMs)
      {
        assert entries[i..][0] == entries[i] && entries[i..][1..] == entries[i + 1..];
        ConcatAssoc(kept, [entries[i]], entries[i + 1..]);
        ConcatAssoc(kept, [entries[i]], Pruned(entries[i + 1..], now, windowMs));
        if now - entries[i].value >= windowMs {
          DeleteMiddle(recentSequences, kept, entries[i..]);
          DeleteDistinct(recentSequences, entries[i].key);
          recentSequences := Delete(recentSequences, entries[i].key);
        } else {
          kept := kept + [entries[i]];
          assert [entries[i]] + entries[i + 1..] == entries[i..];
        }
      }
      assert kept + [] == kept;
    }

    method IsDuplicate(sequence: int, now: int) returns (duplicate: bool)
      requires Valid()
      modifies this`recentSequences
      ensures Valid() && recentSequences == Checked(old(recentSequences), Event(sequence, now), windowMs)
      ensures duplicate == Recent(old(recentSequences), sequence, now, windowMs)
    {
      LookupPruned(recentSequences, now, windowMs, sequence);
      PruneOldEntries(now);
      PutThenLookup(recentSequences, sequence, now, sequence);
      var emittedAt := Lookup(recentSequences, sequence);
      if emittedAt.Some? {
        if now - emittedAt.value < windowMs {
          return true;
        }
      }
      recentSequences := Put(recentSequences, sequence, now);
      return false;
    }

    method GetSize(now: int) returns (size: nat)
      requires Valid()
      modifies this`recentSequences
      ensures Valid() && recentSequences == Pruned(old(recentSequences), now, windowMs) && size == |recentSequences|
    {
      PruneOldEntries(now);
      return |recentSequences|;
    }

    method Clear()
      modifies this`recentSequences
      ensures Valid() && recentSequences == []
    {
      recentSequences := [];
    }
  }
}
