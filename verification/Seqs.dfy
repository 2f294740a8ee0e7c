/** Sequence vocabulary shared by the models: flattening, filtering, summing, and the
    stable sort that JavaScript's `Array.prototype.sort` performs. */
module Seqs {

  datatype Option<+T> = None | Some(value: T)

  lemma ConcatAssoc<T>(a: seq<T>, b: seq<T>, c: seq<T>)
    ensures a + (b + c) == (a + b) + c
  {
  }

  function Flatten<T>(ss: seq<seq<T>>): seq<T> {
    if ss == [] then [] else ss[0] + Flatten(ss[1..])
  }

  lemma {:induction false} FlattenAppend<T>(a: seq<seq<T>>, b: seq<seq<T>>)
    ensures Flatten(a + b) == Flatten(a) + Flatten(b)
  {
    if a == [] {
      assert a + b == b;
    } else {
      assert (a + b)[1..] == a[1..] + b;
      FlattenAppend(a[1..], b);
    }
  }

  function Filter<T>(s: seq<T>, p: T -> bool): seq<T> {
    if s == [] then [] else if p(s[0]) then [s[0]] + Filter(s[1..], p) else Filter(s[1..], p)
  }

  lemma {:induction false} FilterMembers<T(!new)>(s: seq<T>, p: T -> bool)
    ensures forall x :: x in Filter(s, p) <==> x in s && p(x)
    ensures |Filter(s, p)| <= |s|
  {
    if s != [] {
      FilterMembers(s[1..], p);
      assert s == [s[0]] + s[1..];
    }
  }

  lemma {:induction false} FilterAppend<T>(a: seq<T>, b: seq<T>, p: T -> bool)
    ensures Filter(a + b, p) == Filter(a, p) + Filter(b, p)
  {
    if a == [] {
      assert a + b == b;
    } else {
      assert (a + b)[1..] == a[1..] + b;
      FilterAppend(a[1..], b, p);
    }
  }

  lemma {:induction false} FilterAll<T>(s: seq<T>, p: T -> bool)
    requires forall x :: x in s ==> p(x)
    ensures Filter(s, p) == s
  {
    if s != [] {
      FilterAll(s[1..], p);
    }
  }

  lemma {:induction false} FilterNone<T>(s: seq<T>, p: T -> bool)
    requires forall x :: x in s ==> !p(x)
    ensures Filter(s, p) == []
  {
    if s != [] {
      FilterNone(s[1..], p);
    }
  }

  function Map<S, T>(s: seq<S>, f: S -> T): (r: seq<T>)
    ensures |r| == |s|
    ensures forall i :: 0 <= i < |s| ==> r[i] == f(s[i])
  {
    if s == [] then [] else [f(s[0])] + Map(s[1..], f)
  }

  function Sum<T>(s: seq<T>, f: T -> int): int {
    if s == [] then 0 else f(s[0]) + Sum(s[1..], f)
  }

  lemma {:induction false} SumAppend<T>(a: seq<T>, b: seq<T>, f: T -> int)
    ensures Sum(a + b, f) == Sum(a, f) + Sum(b, f)
  {
    if a == [] {
      assert a + b == b;
    } else {
      assert (a + b)[1..] == a[1..] + b;
      SumAppend(a[1..], b, f);
    }
  }

  lemma SumSingle<T>(x: T, f: T -> int)
    ensures Sum([x], f) == f(x)
  {
  }

  lemma {:induction false} SumUpdate<T>(s: seq<T>, i: nat, x: T, f: T -> int)
    requires i < |s|
    ensures Sum(s[i := x], f) == Sum(s, f) - f(s[i]) + f(x)
  {
    if i == 0 {
      assert s[0 := x][1..] == s[1..];
    } else {
      SumUpdate(s[1..], i - 1, x, f);
      assert s[i := x][1..] == s[1..][i - 1 := x];
    }
  }

  ghost predicate Distinct<T>(s: seq<T>) {
    forall i, j :: 0 <= i < j < |s| ==> s[i] != s[j]
  }

  ghost predicate SortedBy<T>(s: seq<T>, rank: T -> int) {
    forall i, j :: 0 <= i < j < |s| ==> rank(s[i]) <= rank(s[j])
  }

  ghost predicate StrictlySortedBy<T>(s: seq<T>, rank: T -> int) {
    forall i, j :: 0 <= i < j < |s| ==> rank(s[i]) < rank(s[j])
  }

  /** Insertion of `x` after every element that ranks no higher. */
  function Insert<T>(x: T, s: seq<T>, rank: T -> int): seq<T> {
    if s == [] || rank(x) < rank(s[0]) then [x] + s else [s[0]] + Insert(x, s[1..], rank)
  }

  /** The stable sort. `StableSortCharacterised` says it is the only sequence that is ordered by
      rank and keeps the elements of each rank in their original order. */
  function StableSort<T>(s: seq<T>, rank: T -> int): (r: seq<T>) {
    if s == [] then [] else Insert(s[|s| - 1], StableSort(s[..|s| - 1], rank), rank)
  }

  /** The elements of one rank, in order. */
  function OfRank<T>(s: seq<T>, rank: T -> int, k: int): seq<T> {
    if s == [] then [] else (if rank(s[0]) == k then [s[0]] else []) + OfRank(s[1..], rank, k)
  }

  lemma {:induction false} OfRankAppend<T>(a: seq<T>, b: seq<T>, rank: T -> int, k: int)
    ensures OfRank(a + b, rank, k) == OfRank(a, rank, k) + OfRank(b, rank, k)
  {
    if a == [] {
      assert a + b == b;
    } else {
      assert (a + b)[1..] == a[1..] + b;
      OfRankAppend(a[1..], b, rank, k);
      var head := if rank(a[0]) == k then [a[0]] else [];
      assert head + (OfRank(a[1..], rank, k) + OfRank(b, rank, k)) == (head + OfRank(a[1..], rank, k)) + OfRank(b, rank, k);
    }
  }

  lemma {:induction false} OfRankMembers<T>(s: seq<T>, rank: T -> int, k: int)
    ensures forall i :: 0 <= i < |OfRank(s, rank, k)| ==>
      OfRank(s, rank, k)[i] in s && rank(OfRank(s, rank, k)[i]) == k
    ensures (forall i :: 0 <= i < |s| ==> rank(s[i]) != k) ==> OfRank(s, rank, k) == []
  {
    if s != [] {
      OfRankMembers(s[1..], rank, k);
    }
  }

  lemma {:induction false} InsertPermutes<T>(x: T, s: seq<T>, rank: T -> int)
    ensures multiset(Insert(x, s, rank)) == multiset(s) + multiset{x}
  {
    if s != [] && rank(s[0]) <= rank(x) {
      InsertPermutes(x, s[1..], rank);
      assert multiset([s[0]] + Insert(x, s[1..], rank)) == multiset{s[0]} + multiset(Insert(x, s[1..], rank));
      assert multiset([s[0]] + s[1..]) == multiset{s[0]} + multiset(s[1..]) && s == [s[0]] + s[1..];
    } else {
      assert multiset([x] + s) == multiset{x} + multiset(s);
    }
  }

  lemma {:induction false} InsertSorts<T>(x: T, s: seq<T>, rank: T -> int)
    requires SortedBy(s, rank)
    ensures SortedBy(Insert(x, s, rank), rank)
    ensures forall i :: 0 <= i < |Insert(x, s, rank)| ==>
      rank(Insert(x, s, rank)[i]) >= if s == [] || rank(x) < rank(s[0]) then rank(x) else rank(s[0])
  {
    if s != [] && rank(s[0]) <= rank(x) {
      InsertSorts(x, s[1..], rank);
    }
  }

  lemma {:induction false} InsertStable<T>(x: T, s: seq<T>, rank: T -> int, k: int)
    requires SortedBy(s, rank)
    ensures OfRank(Insert(x, s, rank), rank, k) == OfRank(s, rank, k) + OfRank([x], rank, k)
  {
    if s == [] || rank(x) < rank(s[0]) {
      OfRankAppend([x], s, rank, k);
      if k == rank(x) {
        OfRankMembers(s, rank, k);
      }
    } else {
      InsertStable(x, s[1..], rank, k);
      OfRankAppend([s[0]], Insert(x, s[1..], rank), rank, k);
    }
  }

  /** The result is ordered by rank and is a permutation of the input. */
  lemma {:induction false} StableSortSorts<T>(s: seq<T>, rank: T -> int)
    ensures SortedBy(StableSort(s, rank), rank)
    ensures multiset(StableSort(s, rank)) == multiset(s)
    ensures |StableSort(s, rank)| == |s|
  {
    if s != [] {
      var front, x := s[..|s| - 1], s[|s| - 1];
      StableSortSorts(front, rank);
      InsertSorts(x, StableSort(front, rank), rank);
      InsertPermutes(x, StableSort(front, rank), rank);
      assert s == front + [x];
    }
    assert |multiset(StableSort(s, rank))| == |multiset(s)|;
  }

  /** Elements of equal rank keep their relative order. */
  lemma {:induction false} StableSortStable<T>(s: seq<T>, rank: T -> int, k: int)
    ensures OfRank(StableSort(s, rank), rank, k) == OfRank(s, rank, k)
  {
    if s != [] {
      var front, x := s[..|s| - 1], s[|s| - 1];
      StableSortStable(front, rank, k);
      StableSortSorts(front, rank);
      InsertStable(x, StableSort(front, rank), rank, k);
      assert s == front + [x];
      OfRankAppend(front, [x], rank, k);
    }
  }

  /** `a` and `b` hold the same elements of every rank, in the same order. */
  ghost predicate SameRanks<T>(a: seq<T>, b: seq<T>, rank: T -> int) {
    forall k :: OfRank(a, rank, k) == OfRank(b, rank, k)
  }

  lemma SameRanksHead<T>(a: seq<T>, b: seq<T>, rank: T -> int)
    requires a != [] && b != [] && rank(a[0]) == rank(b[0])
    requires SameRanks(a, b, rank)
    ensures a[0] == b[0] && SameRanks(a[1..], b[1..], rank)
  {
    var k0 := rank(a[0]);
    assert OfRank(a, rank, k0) == OfRank(b, rank, k0);
    assert OfRank(a, rank, k0)[0] == a[0] && OfRank(b, rank, k0)[0] == b[0];
    forall k ensures OfRank(a[1..], rank, k) == OfRank(b[1..], rank, k) {
      assert OfRank(a, rank, k) == OfRank(b, rank, k);
      if k == k0 {
        assert OfRank(a[1..], rank, k) == OfRank(a, rank, k)[1..];
        assert OfRank(b[1..], rank, k) == OfRank(b, rank, k)[1..];
      } else {
        assert OfRank(a[1..], rank, k) == OfRank(a, rank, k);
        assert OfRank(b[1..], rank, k) == OfRank(b, rank, k);
      }
    }
  }

  /** Order by rank plus order within each rank determine a sequence. */
  lemma {:induction false} SortedUnique<T>(a: seq<T>, b: seq<T>, rank: T -> int)
    requires SortedBy(a, rank) && SortedBy(b, rank) && SameRanks(a, b, rank)
    ensures a == b
    decreases |a|
  {
    if a != [] {
      OfRankMembers(b, rank, rank(a[0]));
      assert OfRank(a, rank, rank(a[0]))[0] == a[0];
    }
    if b != [] {
      OfRankMembers(a, rank, rank(b[0]));
      assert OfRank(b, rank, rank(b[0]))[0] == b[0];
    }
    if a != [] && b != [] {
      SameRanksHead(a, b, rank);
      SortedUnique(a[1..], b[1..], rank);
    }
  }

  /** `r` is the stable sort of `s` exactly when it is ordered and keeps each rank's order. */
  lemma StableSortCharacterised<T>(s: seq<T>, r: seq<T>, rank: T -> int)
    ensures r == StableSort(s, rank) <==> SortedBy(r, rank) && SameRanks(r, s, rank)
  {
    var t := StableSort(s, rank);
    StableSortSorts(s, rank);
    forall k ensures OfRank(t, rank, k) == OfRank(s, rank, k) {
      StableSortStable(s, rank, k);
    }
    if SortedBy(r, rank) && SameRanks(r, s, rank) {
      SortedUnique(r, t, rank);
    }
  }

  /** Sorting a sequence that is already in order changes nothing. */
  lemma StableSortIdempotent<T>(s: seq<T>, rank: T -> int)
    requires SortedBy(s, rank)
    ensures StableSort(s, rank) == s
  {
    StableSortCharacterised(s, s, rank);
  }

  /** `a` can be obtained from `b` by dropping elements. */
  ghost predicate Subsequence<T>(a: seq<T>, b: seq<T>) {
    a == [] ||
    (b != [] && ((a[0] == b[0] && Subsequence(a[1..], b[1..])) || Subsequence(a, b[1..])))
  }

  lemma {:induction false} SubsequenceSelf<T>(a: seq<T>)
    ensures Subsequence(a, a)
  {
    if a != [] {
      SubsequenceSelf(a[1..]);
    }
  }

  lemma {:induction false} SubsequenceDrop<T>(a: seq<T>, b: seq<T>)
    requires Subsequence(a, b) && a != []
    ensures Subsequence(a[1..], b) && Subsequence(a[1..], b[1..])
  {
    if !(a[0] == b[0] && Subsequence(a[1..], b[1..])) {
      SubsequenceDrop(a, b[1..]);
    }
  }

  lemma {:induction false} SubsequenceMembers<T>(a: seq<T>, b: seq<T>)
    requires Subsequence(a, b)
    ensures forall i :: 0 <= i < |a| ==> a[i] in b
    ensures |a| <= |b|
  {
    if a != [] {
      if a[0] == b[0] && Subsequence(a[1..], b[1..]) {
        SubsequenceMembers(a[1..], b[1..]);
        assert a == [a[0]] + a[1..];
      } else {
        SubsequenceMembers(a, b[1..]);
      }
    }
  }

  lemma {:induction false} SubsequenceSnoc<T>(a: seq<T>, b: seq<T>, x: T)
    requires Subsequence(a, b)
    ensures Subsequence(a + [x], b + [x])
    ensures Subsequence(a, b + [x])
  {
    if b == [] {
      assert a + [x] == [x] && b + [x] == [x];
      SubsequenceSelf([x]);
    } else {
      assert (b + [x])[1..] == b[1..] + [x];
      if a != [] && a[0] == b[0] && Subsequence(a[1..], b[1..]) {
        assert (a + [x])[1..] == a[1..] + [x];
        SubsequenceSnoc(a[1..], b[1..], x);
      } else {
        SubsequenceSnoc(a, b[1..], x);
      }
    }
  }

  /** Filtering keeps inclusion and does not widen the difference in length. */
  lemma {:induction false} SubsequenceFilter<T>(a: seq<T>, b: seq<T>, p: T -> bool)
    requires Subsequence(a, b)
    ensures Subsequence(Filter(a, p), Filter(b, p))
    ensures |Filter(b, p)| - |Filter(a, p)| <= |b| - |a|
  {
    if b != [] {
      var fb := Filter(b[1..], p);
      assert Filter(b, p) == (if p(b[0]) then [b[0]] + fb else fb);
      if a != [] && a[0] == b[0] && Subsequence(a[1..], b[1..]) {
        SubsequenceFilter(a[1..], b[1..], p);
        assert Filter(a, p) == (if p(a[0]) then [a[0]] + Filter(a[1..], p) else Filter(a[1..], p));
        assert p(b[0]) ==> Filter(a, p)[1..] == Filter(a[1..], p) && Filter(b, p)[1..] == fb;
      } else {
        SubsequenceFilter(a, b[1..], p);
        assert p(b[0]) ==> Filter(b, p)[1..] == fb;
      }
    }
  }

  lemma {:induction false} FilterSubsequence<T>(s: seq<T>, p: T -> bool)
    ensures Subsequence(Filter(s, p), s)
  {
    if s != [] {
      FilterSubsequence(s[1..], p);
      assert Filter(s, p) == (if p(s[0]) then [s[0]] else []) + Filter(s[1..], p);
      assert p(s[0]) ==> Filter(s, p)[1..] == Filter(s[1..], p);
      assert !p(s[0]) ==> Filter(s, p) == Filter(s[1..], p);
    }
  }

  /** Dropping elements keeps a strict order by any rank. */
  lemma {:induction false} SubsequenceOrdered<T>(a: seq<T>, b: seq<T>, rank: T -> int)
    requires Subsequence(a, b) && StrictlySortedBy(b, rank)
    ensures StrictlySortedBy(a, rank)
  {
    if a != [] {
      if a[0] == b[0] && Subsequence(a[1..], b[1..]) {
        SubsequenceOrdered(a[1..], b[1..], rank);
        SubsequenceMembers(a[1..], b[1..]);
        forall i | 0 < i < |a| ensures rank(a[0]) < rank(a[i]) {
          assert a[1..][i - 1] == a[i];
        }
      } else {
        SubsequenceOrdered(a, b[1..], rank);
      }
    }
  }

  /** `keys` extended by what is new in `more`, in order of first appearance. */
  function AddNew<T(==)>(keys: seq<T>, more: seq<T>): seq<T>
    decreases |more|
  {
    if more == [] then keys else AddNew(if more[0] in keys then keys else keys + [more[0]], more[1..])
  }

  lemma {:induction false} AddNewFacts<T(!new)>(keys: seq<T>, more: seq<T>, x: T)
    requires Distinct(keys)
    ensures Distinct(AddNew(keys, more))
    ensures x in AddNew(keys, more) <==> x in keys || x in more
    decreases |more|
  {
    if more != [] {
      AddNewFacts(if more[0] in keys then keys else keys + [more[0]], more[1..], x);
      assert more == [more[0]] + more[1..];
    }
  }

  /** Extending by `a` and then by `b` is extending by both, and what is there keeps its place: so the order is that of
      first appearance. */
  lemma {:induction false} AddNewInOrder<T(!new)>(keys: seq<T>, a: seq<T>, b: seq<T>)
    ensures AddNew(keys, a + b) == AddNew(AddNew(keys, a), b)
    ensures keys <= AddNew(keys, a)
    decreases |a|
  {
    if a == [] {
      assert a + b == b;
    } else {
      assert (a + b)[1..] == a[1..] + b;
      AddNewInOrder(if a[0] in keys then keys else keys + [a[0]], a[1..], b);
    }
  }

  lemma {:induction false} FilterDistinct<T(!new)>(s: seq<T>, p: T -> bool)
    requires Distinct(s)
    ensures Distinct(Filter(s, p))
  {
    if s != [] {
      FilterDistinct(s[1..], p);
      FilterMembers(s[1..], p);
      var rest := Filter(s[1..], p);
      forall i | 0 <= i < |rest| ensures rest[i] != s[0] {
        assert rest[i] in s[1..];
        var j :| 0 <= j < |s[1..]| && s[1..][j] == rest[i];
        assert s[j + 1] == s[1..][j];
      }
    }
  }

  lemma DistinctConcat<T>(a: seq<T>, b: seq<T>)
    requires Distinct(a) && Distinct(b) && forall x :: x in a ==> x !in b
    ensures Distinct(a + b)
  {
    forall i, j | 0 <= i < j < |a + b| ensures (a + b)[i] != (a + b)[j] {
      if i < |a| <= j {
        assert a[i] in a && b[j - |a|] in b;
      }
    }
  }

  function Removed<T>(s: seq<T>, i: nat): seq<T>
    requires i < |s|
  {
    s[..i] + s[i + 1..]
  }

  lemma RemovedElements<T>(s: seq<T>, i: nat)
    requires i < |s|
    ensures multiset(Removed(s, i)) == multiset(s) - multiset{s[i]}
  {
    assert s == s[..i] + ([s[i]] + s[i + 1..]);
  }

  function Repeated<T>(n: nat, x: T, step: T -> T): T {
    if n == 0 then x else step(Repeated(n - 1, x, step))
  }

  /** What holds at first, and is kept by a step, holds after any number of steps. */
  lemma {:induction false} RepeatedKeeps<T(!new)>(n: nat, x: T, step: T -> T, holds: T -> bool)
    requires holds(x) && forall y :: holds(y) ==> holds(step(y))
    ensures holds(Repeated(n, x, step))
  {
    if n > 0 {
      RepeatedKeeps(n - 1, x, step, holds);
    }
  }

  /** `good` held before each of `n` steps. */
  ghost predicate GoodSoFar<T(!new)>(n: nat, x: T, step: T -> T, good: T -> bool) {
    forall k: nat :: k < n ==> good(Repeated(k, x, step))
  }

  /** What holds at first with a flag, and is kept by a step that lowers the flag unless `good` held before it,
      holds in the end with the flag saying whether `good` held throughout. */
  lemma {:induction false} RepeatedKeepsFlag<T(!new)>(n: nat, x: T, step: T -> T, flag: bool, good: T -> bool, holds: (T, bool) -> bool)
    requires holds(x, flag) && forall y, f :: holds(y, f) ==> holds(step(y), f && good(y))
    ensures holds(Repeated(n, x, step), flag && GoodSoFar(n, x, step, good))
  {
    if n > 0 {
      RepeatedKeepsFlag(n - 1, x, step, flag, good, holds);
      var before, f := Repeated(n - 1, x, step), flag && GoodSoFar(n - 1, x, step, good);
      assert holds(step(before), f && good(before));
      assert GoodSoFar(n, x, step, good) <==> GoodSoFar(n - 1, x, step, good) && good(before);
    }
  }

  lemma {:induction false} DistinctOnce<T>(s: seq<T>, x: T)
    requires Distinct(s)
    ensures multiset(s)[x] <= 1
  {
    if s != [] {
      DistinctOnce(s[1..], x);
      assert s == [s[0]] + s[1..];
      assert s[0] !in s[1..];
    }
  }

  lemma {:induction false} OnceDistinct<T(!new)>(s: seq<T>)
    requires forall f :: multiset(s)[f] <= 1
    ensures Distinct(s)
  {
    forall i, j | 0 <= i < j < |s| ensures s[i] != s[j] {
      var front, back := s[..i + 1], s[i + 1..];
      assert s == front + back && front[i] == s[i] && back[j - i - 1] == s[j];
      assert multiset(s) == multiset(front) + multiset(back);
      assert multiset(front)[s[i]] >= 1 && multiset(back)[s[j]] >= 1;
      assert multiset(s)[s[j]] == multiset(front)[s[j]] + multiset(back)[s[j]];
    }
  }
}
