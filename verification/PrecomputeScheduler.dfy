/** The in-memory hint table that page requests fill and precompute rounds read. */
module PrecomputeHints {

  datatype Hint = Hint(key: string, at: int)

  const HINT_TTL_MS: int := 15 * 60 * 1000

  function Alive(h: Hint, now: int): bool { now - h.at <= HINT_TTL_MS }

  function Live(hs: seq<Hint>, now: int): seq<Hint> {
    if hs == [] then []
    else (if Alive(hs[0], now) then [hs[0]] else []) + Live(hs[1..], now)
  }

  /** Map.set: an existing key keeps its place, a new key goes last. */
  function Put(hs: seq<Hint>, key: string, now: int): (r: seq<Hint>)
    ensures Hint(key, now) in r
    ensures forall h :: h in r && h.key != key ==> h in hs
    ensures forall h :: h in hs && h.key != key ==> h in r
  {
    if hs == [] then [Hint(key, now)]
    else if hs[0].key == key then [Hint(key, now)] + hs[1..]
    else [hs[0]] + Put(hs[1..], key, now)
  }

  ghost predicate KeysApart(hs: seq<Hint>) { forall i, j :: 0 <= i < j < |hs| ==> hs[i].key != hs[j].key }

  lemma {:induction false} PutAt(hs: seq<Hint>, key: string, now: int, i: nat)
    requires i < |hs| && hs[i].key == key && forall j :: 0 <= j < i ==> hs[j].key != key
    ensures Put(hs, key, now) == hs[i := Hint(key, now)]
    decreases |hs|
  {
    assert hs == [hs[0]] + hs[1..];
    if i > 0 {
      assert forall j :: 0 <= j < i - 1 ==> hs[1..][j] == hs[j + 1];
      PutAt(hs[1..], key, now, i - 1);
      assert [hs[0]] + hs[1..][i - 1 := Hint(key, now)] == hs[i := Hint(key, now)];
    }
  }

  lemma {:induction false} PutBehind(hs: seq<Hint>, key: string, now: int)
    requires forall i :: 0 <= i < |hs| ==> hs[i].key != key
    ensures Put(hs, key, now) == hs + [Hint(key, now)]
    decreases |hs|
  {
    if hs != [] {
      PutBehind(hs[1..], key, now);
      assert hs == [hs[0]] + hs[1..];
    }
  }

  /** A key that is there gets the new time in its place; any other goes behind the rest, so that no key stands twice. */
  lemma {:induction false} PutInPlace(hs: seq<Hint>, key: string, now: int)
    requires KeysApart(hs)
    ensures forall i :: 0 <= i < |hs| && hs[i].key == key ==> Put(hs, key, now) == hs[i := Hint(key, now)]
    ensures (forall i :: 0 <= i < |hs| ==> hs[i].key != key) ==> Put(hs, key, now) == hs + [Hint(key, now)]
    ensures KeysApart(Put(hs, key, now))
  {
    if i :| 0 <= i < |hs| && hs[i].key == key { PutAt(hs, key, now, i); } else { PutBehind(hs, key, now); }
  }

  /** Stable insertion: a hint goes behind every hint that is at least as new. */
  function Insert(sorted: seq<Hint>, h: Hint): seq<Hint> {
    if sorted == [] then [h]
    else if sorted[0].at >= h.at then [sorted[0]] + Insert(sorted[1..], h)
    else [h] + sorted
  }

  function NewestFirst(hs: seq<Hint>): seq<Hint> {
    if hs == [] then [] else Insert(NewestFirst(hs[..|hs| - 1]), hs[|hs| - 1])
  }

  function Keys(hs: seq<Hint>): (ks: seq<string>)
    ensures |ks| == |hs|
  {
    seq(|hs|, i requires 0 <= i < |hs| => hs[i].key)
  }

  function Prefix<T>(s: seq<T>, n: nat): seq<T> { if n < |s| then s[..n] else s }

  ghost predicate Descending(hs: seq<Hint>) {
    forall i, j :: 0 <= i <= j < |hs| ==> hs[i].at >= hs[j].at
  }

  lemma {:induction false} InsertAddsOne(sorted: seq<Hint>, h: Hint)
    ensures multiset(Insert(sorted, h)) == multiset(sorted) + multiset{h}
  {
    if sorted != [] && sorted[0].at >= h.at {
      InsertAddsOne(sorted[1..], h);
      assert sorted == [sorted[0]] + sorted[1..];
    }
  }

  lemma {:induction false} InsertKeepsOrder(sorted: seq<Hint>, h: Hint)
    requires Descending(sorted)
    ensures Descending(Insert(sorted, h))
  {
    if sorted != [] && sorted[0].at >= h.at {
      InsertKeepsOrder(sorted[1..], h);
      InsertAddsOne(sorted[1..], h);
      var rest := Insert(sorted[1..], h);
      forall i | 0 <= i < |rest| ensures rest[i].at <= sorted[0].at {
        assert rest[i] in multiset(sorted[1..]) + multiset{h};
      }
    }
  }

  lemma {:induction false} NewestFirstSorts(hs: seq<Hint>)
    ensures Descending(NewestFirst(hs))
    ensures multiset(NewestFirst(hs)) == multiset(hs)
  {
    if hs != [] {
      NewestFirstSorts(hs[..|hs| - 1]);
      InsertKeepsOrder(NewestFirst(hs[..|hs| - 1]), hs[|hs| - 1]);
      InsertAddsOne(NewestFirst(hs[..|hs| - 1]), hs[|hs| - 1]);
      assert hs == hs[..|hs| - 1] + [hs[|hs| - 1]];
    }
  }

  lemma {:induction false} LiveKeepsExactlyTheLive(hs: seq<Hint>, now: int)
    ensures forall h :: h in Live(hs, now) <==> h in hs && Alive(h, now)
  {
    if hs != [] { LiveKeepsExactlyTheLive(hs[1..], now); }
  }

  /** The hints a round sees: the newest `max` of the live ones, newest first. */
  function Consumed(hs: seq<Hint>, now: int, max: nat): seq<Hint> { Prefix(NewestFirst(Live(hs, now)), max) }

  lemma {:induction false} SortedLive(hs: seq<Hint>, now: int, h: Hint)
    ensures Descending(NewestFirst(Live(hs, now)))
    ensures h in NewestFirst(Live(hs, now)) <==> h in hs && now - h.at <= 900_000
  {
    LiveKeepsExactlyTheLive(hs, now);
    NewestFirstSorts(Live(hs, now));
    assert h in NewestFirst(Live(hs, now)) <==> h in multiset(NewestFirst(Live(hs, now)));
    assert h in Live(hs, now) <==> h in multiset(Live(hs, now));
  }

  lemma {:induction false} PrefixOfDescending(sorted: seq<Hint>, max: nat, h: Hint)
    requires Descending(sorted)
    ensures Descending(Prefix(sorted, max)) && |Prefix(sorted, max)| <= max
    ensures h in Prefix(sorted, max) ==> h in sorted
    ensures h in sorted && h !in Prefix(sorted, max) ==>
              |Prefix(sorted, max)| == max && forall c :: c in Prefix(sorted, max) ==> c.at >= h.at
  {
    if h in sorted && h !in Prefix(sorted, max) {
      var i :| 0 <= i < |sorted| && sorted[i] == h;
      assert max < |sorted|;
      assert forall k :: 0 <= k < max ==> Prefix(sorted, max)[k] == sorted[k];
    }
  }

  /**
   * Only hints of the last quarter of an hour are taken, and one of them is left out only when `max` others that are at least as
   * new were; they come newest first.
   */
  lemma {:induction false} ConsumedAreTheNewest(hs: seq<Hint>, now: int, max: nat, h: Hint)
    ensures h in Consumed(hs, now, max) ==> h in hs && now - h.at <= 900_000
    ensures h in hs && now - h.at <= 900_000 && h !in Consumed(hs, now, max) ==>
              |Consumed(hs, now, max)| == max && forall c :: c in Consumed(hs, now, max) ==> c.at >= h.at
    ensures Descending(Consumed(hs, now, max)) && |Consumed(hs, now, max)| <= max
  {
    SortedLive(hs, now, h);
    PrefixOfDescending(NewestFirst(Live(hs, now)), max, h);
  }

  /** The hints of one moment, in their order. */
  function OfTime(hs: seq<Hint>, at: int): seq<Hint> {
    if hs == [] then [] else (if hs[0].at == at then [hs[0]] else []) + OfTime(hs[1..], at)
  }

  lemma {:induction false} OfTimeNext(h: Hint, rest: seq<Hint>, at: int)
    ensures OfTime([h] + rest, at) == (if h.at == at then [h] else []) + OfTime(rest, at)
  {
    assert ([h] + rest)[1..] == rest;
  }

  lemma {:induction false} Associates(a: seq<Hint>, b: seq<Hint>, c: seq<Hint>)
    ensures a + b + c == a + (b + c)
  {
  }

  lemma {:induction false} OfTimeAppend(hs: seq<Hint>, more: seq<Hint>, at: int)
    ensures OfTime(hs + more, at) == OfTime(hs, at) + OfTime(more, at)
  {
    if hs == [] {
      assert hs + more == more;
    } else {
      OfTimeAppend(hs[1..], more, at);
      OfTimeNext(hs[0], hs[1..], at);
      OfTimeNext(hs[0], hs[1..] + more, at);
      assert hs == [hs[0]] + hs[1..] && hs + more == [hs[0]] + (hs[1..] + more);
      Associates(if hs[0].at == at then [hs[0]] else [], OfTime(hs[1..], at), OfTime(more, at));
    }
  }

  lemma {:induction false} InsertKeepsOfTime(sorted: seq<Hint>, h: Hint, at: int)
    requires Descending(sorted)
    ensures OfTime(Insert(sorted, h), at) == OfTime(sorted, at) + OfTime([h], at)
  {
    assert [h][1..] == [];
    if sorted != [] {
      if sorted[0].at >= h.at {
        InsertKeepsOfTime(sorted[1..], h, at);
        assert ([sorted[0]] + Insert(sorted[1..], h))[1..] == Insert(sorted[1..], h);
      } else {
        assert ([h] + sorted)[1..] == sorted;
        if h.at == at { NoneOfTime(sorted, at); }
      }
    }
  }

  lemma {:induction false} NoneOfTime(hs: seq<Hint>, at: int)
    requires forall i :: 0 <= i < |hs| ==> hs[i].at != at
    ensures OfTime(hs, at) == []
  {
    if hs != [] { NoneOfTime(hs[1..], at); }
  }

  /** Hints of one moment are taken in the order they stand in the table. */
  lemma {:induction false} EqualsKeepTheirOrder(hs: seq<Hint>, at: int)
    ensures OfTime(NewestFirst(hs), at) == OfTime(hs, at)
  {
    if hs != [] {
      var rest, last := hs[..|hs| - 1], hs[|hs| - 1];
      EqualsKeepTheirOrder(rest, at);
      NewestFirstSorts(rest);
      InsertKeepsOfTime(NewestFirst(rest), last, at);
      OfTimeAppend(rest, [last], at);
      assert hs == rest + [last];
    }
  }

  lemma {:induction false} LiveIsStable(hs: seq<Hint>, now: int)
    ensures Live(Live(hs, now), now) == Live(hs, now)
  {
    if hs != [] {
      LiveIsStable(hs[1..], now);
      var rest := Live(hs[1..], now);
      if Alive(hs[0], now) {
        assert ([hs[0]] + rest)[1..] == rest;
      } else {
        assert [] + rest == rest;
      }
    }
  }

  /** Reading hints does not use them up: what a round leaves behind gives the next reader the same keys. */
  lemma ConsumingAgainGivesTheSameHints(hs: seq<Hint>, now: int, max: nat)
    ensures Consumed(Live(hs, now), now, max) == Consumed(hs, now, max)
  {
    LiveIsStable(hs, now);
  }

  class HintTable {
    var entries: seq<Hint>

    constructor ()
      ensures entries == []
    {
      entries := [];
    }

    method HintDashboardPrecompute(cacheKey: string, now: int)
      modifies this
      ensures entries == if cacheKey == "" then old(entries) else Put(old(entries), cacheKey, now)
    {
      if cacheKey == "" { return; }
      entries := Put(entries, cacheKey, now);
    }

    /** Purge what has expired, keep the rest for later rounds, return the newest keys. */
    method ConsumePrecomputeHints(now: int, max: nat) returns (keys: seq<string>)
      modifies this
      ensures entries == Live(old(entries), now)
      ensures keys == Keys(Consumed(old(entries), now, max))
    {
      var kept := [];
      for i := 0 to |entries|
        invariant Live(entries, now) == kept + Live(entries[i..], now)
      {
        assert entries[i..][1..] == entries[i + 1..];
        if now - entries[i].at <= HINT_TTL_MS { kept := kept + [entries[i]]; }
      }
      assert entries[|entries|..] == [];
      entries := kept;
      keys := Keys(Prefix(NewestFirst(kept), max));
    }
  }
}

/**
 * The precompute scheduler: a hint-driven stable partition of the job list, then one rolling slice,
 * then the worker pool.
 */
module PrecomputeScheduler {
  import JobQueue
  import opened MinMax
  import opened RollingBatch

  function Filter<T>(jobs: seq<T>, keep: T -> bool): seq<T> {
    if jobs == [] then [] else (if keep(jobs[0]) then [jobs[0]] else []) + Filter(jobs[1..], keep)
  }

  function Hinted<T>(keyOf: T -> string, hints: seq<string>): T -> bool { job => keyOf(job) in hints }

  function Unhinted<T>(keyOf: T -> string, hints: seq<string>): T -> bool { job => keyOf(job) !in hints }

  function Prioritized<T>(jobs: seq<T>, keyOf: T -> string, hints: seq<string>): seq<T> {
    Filter(jobs, Hinted(keyOf, hints)) + Filter(jobs, Unhinted(keyOf, hints))
  }

  lemma {:induction false} FilterPrefix<T>(jobs: seq<T>, keep: T -> bool, i: nat)
    requires i < |jobs|
    ensures Filter(jobs[..i + 1], keep) == Filter(jobs[..i], keep) + (if keep(jobs[i]) then [jobs[i]] else [])
  {
    if i == 0 {
      assert jobs[..1] == [jobs[0]] && jobs[..1][1..] == [] && jobs[..0] == [];
    } else {
      FilterPrefix(jobs[1..], keep, i - 1);
      assert jobs[..i + 1][1..] == jobs[1..][..i];
      assert jobs[..i][1..] == jobs[1..][..i - 1];
    }
  }

  lemma {:induction false} FilterAll<T>(jobs: seq<T>, keep: T -> bool)
    ensures (forall j :: j in jobs ==> keep(j)) ==> Filter(jobs, keep) == jobs
    ensures (forall j :: j in jobs ==> !keep(j)) ==> Filter(jobs, keep) == []
  {
    if jobs != [] { FilterAll(jobs[1..], keep); }
  }

  method PrioritizeJobs<T>(jobs: seq<T>, keyOf: T -> string, hints: seq<string>) returns (r: seq<T>)
    ensures r == Prioritized(jobs, keyOf, hints)
  {
    if |hints| == 0 {
      FilterAll(jobs, Hinted(keyOf, hints));
      FilterAll(jobs, Unhinted(keyOf, hints));
      return jobs;
    }
    var front, rest := [], [];
    for i := 0 to |jobs|
      invariant front == Filter(jobs[..i], Hinted(keyOf, hints))
      invariant rest == Filter(jobs[..i], Unhinted(keyOf, hints))
    {
      FilterPrefix(jobs, Hinted(keyOf, hints), i);
      FilterPrefix(jobs, Unhinted(keyOf, hints), i);
      if keyOf(jobs[i]) in hints { front := front + [jobs[i]]; } else { rest := rest + [jobs[i]]; }
    }
    assert jobs[..|jobs|] == jobs;
    r := front + rest;
  }

  /** Where each job of a filtered list came from. */
  function Origins<T>(jobs: seq<T>, keep: T -> bool): seq<nat> {
    if jobs == [] then []
    else Origins(jobs[..|jobs| - 1], keep) + (if keep(jobs[|jobs| - 1]) then [|jobs| - 1] else [])
  }

  ghost predicate Increasing(s: seq<nat>) { forall i, j :: 0 <= i < j < |s| ==> s[i] < s[j] }

  lemma {:induction false} OriginsIncreasing<T>(jobs: seq<T>, keep: T -> bool)
    ensures Increasing(Origins(jobs, keep))
    ensures forall i :: i in Origins(jobs, keep) <==> 0 <= i < |jobs| && keep(jobs[i])
  {
    if jobs != [] {
      var n := |jobs| - 1;
      var before := Origins(jobs[..n], keep);
      OriginsIncreasing(jobs[..n], keep);
      assert forall k :: 0 <= k < |before| ==> before[k] in before;
      assert forall i :: i in Origins(jobs, keep) <==> i in before || (i == n && keep(jobs[n]));
    }
  }

  lemma {:induction false} OriginsGiveFilter<T>(jobs: seq<T>, keep: T -> bool)
    ensures |Filter(jobs, keep)| == |Origins(jobs, keep)|
    ensures forall i :: 0 <= i < |Filter(jobs, keep)| ==>
              Origins(jobs, keep)[i] < |jobs| && Filter(jobs, keep)[i] == jobs[Origins(jobs, keep)[i]]
  {
    if jobs != [] {
      var n := |jobs| - 1;
      OriginsGiveFilter(jobs[..n], keep);
      FilterPrefix(jobs, keep, n);
      assert jobs[..n + 1] == jobs;
    }
  }

  lemma OriginsDescribeFilter<T>(jobs: seq<T>, keep: T -> bool)
    ensures Increasing(Origins(jobs, keep))
    ensures forall i :: i in Origins(jobs, keep) <==> 0 <= i < |jobs| && keep(jobs[i])
    ensures |Filter(jobs, keep)| == |Origins(jobs, keep)|
    ensures forall i :: 0 <= i < |Filter(jobs, keep)| ==>
              Origins(jobs, keep)[i] < |jobs| && Filter(jobs, keep)[i] == jobs[Origins(jobs, keep)[i]]
  {
    OriginsIncreasing(jobs, keep);
    OriginsGiveFilter(jobs, keep);
  }

  lemma {:induction false} FilterSplitsMultiset<T>(jobs: seq<T>, keyOf: T -> string, hints: seq<string>)
    ensures multiset(Filter(jobs, Hinted(keyOf, hints))) + multiset(Filter(jobs, Unhinted(keyOf, hints))) == multiset(jobs)
  {
    if jobs != [] {
      FilterSplitsMultiset(jobs[1..], keyOf, hints);
      assert jobs == [jobs[0]] + jobs[1..];
    }
  }

  lemma ConcatGives<T>(jobs: seq<T>, a: seq<T>, b: seq<T>, f: seq<nat>, g: seq<nat>)
    requires |a| == |f| && |b| == |g|
    requires forall i :: 0 <= i < |a| ==> f[i] < |jobs| && a[i] == jobs[f[i]]
    requires forall i :: 0 <= i < |b| ==> g[i] < |jobs| && b[i] == jobs[g[i]]
    ensures forall i :: 0 <= i < |a| + |b| ==> (f + g)[i] < |jobs| && (a + b)[i] == jobs[(f + g)[i]]
  {
  }

  /**
   * Prioritising is a stable partition: it runs the same jobs, hinted ones first, and inside each
   * part the original order is kept.
   */
  lemma PrioritizedIsStablePermutation<T>(jobs: seq<T>, keyOf: T -> string, hints: seq<string>)
    returns (front: seq<nat>, rest: seq<nat>)
    ensures multiset(Prioritized(jobs, keyOf, hints)) == multiset(jobs)
    ensures |Prioritized(jobs, keyOf, hints)| == |jobs| == |front| + |rest|
    ensures Increasing(front) && Increasing(rest)
    ensures forall i :: i in front <==> 0 <= i < |jobs| && keyOf(jobs[i]) in hints
    ensures forall i :: i in rest <==> 0 <= i < |jobs| && keyOf(jobs[i]) !in hints
    ensures forall i :: 0 <= i < |jobs| ==>
              (front + rest)[i] < |jobs| && Prioritized(jobs, keyOf, hints)[i] == jobs[(front + rest)[i]]
  {
    front := Origins(jobs, Hinted(keyOf, hints));
    rest := Origins(jobs, Unhinted(keyOf, hints));
    OriginsDescribeFilter(jobs, Hinted(keyOf, hints));
    OriginsDescribeFilter(jobs, Unhinted(keyOf, hints));
    FilterSplitsMultiset(jobs, keyOf, hints);
    PermutationLength(Prioritized(jobs, keyOf, hints), jobs);
    ConcatGives(jobs, Filter(jobs, Hinted(keyOf, hints)), Filter(jobs, Unhinted(keyOf, hints)), front, rest);
  }

  lemma PermutationLength<T>(a: seq<T>, b: seq<T>)
    requires multiset(a) == multiset(b)
    ensures |a| == |b|
    ensures forall x :: x in a <==> x in b
  {
    assert |multiset(a)| == |a| && |multiset(b)| == |b|;
    assert forall x :: x in a <==> x in multiset(a);
    assert forall x :: x in b <==> x in multiset(b);
  }

  /** A batch as long as the list, taken from cursor 0, is the list itself, and the cursor is back at 0. */
  lemma FullBatchFromZero<T>(jobs: seq<T>)
    requires |jobs| > 0
    ensures Window(jobs, 0, |jobs|) == jobs
    ensures Advance(0, |jobs|, |jobs|) == 0
  {
    forall i | 0 <= i < |jobs| ensures Window(jobs, 0, |jobs|)[i] == jobs[i] {
      ModIsUnique(i, 0, i, |jobs|);
    }
    ModIsUnique(|jobs|, 1, 0, |jobs|);
  }

  /** While the hints stay the same, ceil(total / n) rounds run every job of the matrix. */
  lemma UnchangedHintsCoverTheMatrix<T>(jobs: seq<T>, keyOf: T -> string, hints: seq<string>,
                                        cursor: nat, rounds: nat, batchSize: nat, job: T)
    returns (q: nat)
    requires cursor < |jobs| && job in jobs
    requires rounds * Min(batchSize, |jobs|) >= |jobs|
    ensures q < rounds
    ensures |Prioritized(jobs, keyOf, hints)| == |jobs|
    ensures job in Window(Prioritized(jobs, keyOf, hints), CursorAfter(cursor, q, batchSize, |jobs|), Min(batchSize, |jobs|))
  {
    var list := Prioritized(jobs, keyOf, hints);
    FilterSplitsMultiset(jobs, keyOf, hints);
    PermutationLength(list, jobs);
    var j :| 0 <= j < |list| && list[j] == job;
    q := ConsecutiveRoundsCoverEveryJob(list, cursor, rounds, batchSize, j);
  }

  /**
   * With changing hints the guarantee is lost: the cursor is a position, not a job, so two rounds of
   * one job over a two-job list can run the same job twice and the other one never.
   */
  lemma ChangingHintsCanSkipAJob(keyOf: string -> string)
    requires keyOf("a") != keyOf("b")
    ensures var jobs := ["a", "b"];
            var first := Prioritized(jobs, keyOf, []);
            var second := Prioritized(jobs, keyOf, [keyOf("b")]);
            && |first| == |second| == 2
            && Window(first, 0, 1) + Window(second, Advance(0, 1, 2), 1) == ["a", "a"]
  {
    var jobs := ["a", "b"];
    assert jobs[1..] == ["b"] && jobs[1..][1..] == [];
    var h: seq<string> := [];
    assert Filter(jobs, Hinted(keyOf, h)) == [];
    assert Filter(jobs, Unhinted(keyOf, h)) == ["a", "b"];
    assert Filter(jobs, Hinted(keyOf, [keyOf("b")])) == ["b"];
    assert Filter(jobs, Unhinted(keyOf, [keyOf("b")])) == ["a"];
  }

  // ---------------------------------------------------------------- which hints cover the matrix

  /** The jobs of the prioritized list, by their places in the job list. */
  function Order<T>(jobs: seq<T>, keyOf: T -> string, hints: seq<string>): seq<nat> {
    Origins(jobs, Hinted(keyOf, hints)) + Origins(jobs, Unhinted(keyOf, hints))
  }

  /**
   * Where the x-th job stands in the prioritized list: behind the hinted ones before it, or behind all hinted ones and the
   * others before it.
   */
  function Rank<T>(jobs: seq<T>, keyOf: T -> string, hints: seq<string>, x: nat): nat
    requires x < |jobs|
  {
    if keyOf(jobs[x]) in hints then |Filter(jobs[..x], Hinted(keyOf, hints))|
    else |Filter(jobs, Hinted(keyOf, hints))| + |Filter(jobs[..x], Unhinted(keyOf, hints))|
  }

  lemma {:induction false} OriginPlace<T>(jobs: seq<T>, keep: T -> bool, x: nat)
    requires x < |jobs| && keep(jobs[x])
    ensures |Filter(jobs[..x], keep)| < |Origins(jobs, keep)| && Origins(jobs, keep)[|Filter(jobs[..x], keep)|] == x
    decreases |jobs|
  {
    var n := |jobs| - 1;
    OriginsDescribeFilter(jobs[..n], keep);
    assert jobs[..n][..x] == jobs[..x];
    if x < n { OriginPlace(jobs[..n], keep, x); }
  }

  lemma OriginsIncrease<T>(jobs: seq<T>, keyOf: T -> string, hints: seq<string>)
    ensures |Order(jobs, keyOf, hints)| == |jobs|
    ensures forall i, j :: 0 <= i < j < |jobs| ==> Order(jobs, keyOf, hints)[i] != Order(jobs, keyOf, hints)[j]
  {
    var front, rest := PrioritizedIsStablePermutation(jobs, keyOf, hints);
    var f, r := Origins(jobs, Hinted(keyOf, hints)), Origins(jobs, Unhinted(keyOf, hints));
    OriginsDescribeFilter(jobs, Hinted(keyOf, hints));
    OriginsDescribeFilter(jobs, Unhinted(keyOf, hints));
    forall i, j | 0 <= i < j < |jobs| ensures (f + r)[i] != (f + r)[j] {
      if i < |f| <= j { assert f[i] in f && r[j - |f|] in r; }
    }
  }

  /** The rank is the one place of the job. */
  lemma RankIsThePlace<T>(jobs: seq<T>, keyOf: T -> string, hints: seq<string>, x: nat)
    requires x < |jobs|
    ensures |Order(jobs, keyOf, hints)| == |jobs| && Rank(jobs, keyOf, hints, x) < |jobs|
    ensures forall p :: 0 <= p < |jobs| ==> (Order(jobs, keyOf, hints)[p] == x <==> p == Rank(jobs, keyOf, hints, x))
  {
    OriginsIncrease(jobs, keyOf, hints);
    OriginsDescribeFilter(jobs, Hinted(keyOf, hints));
    var front, place := |Origins(jobs, Hinted(keyOf, hints))|, Rank(jobs, keyOf, hints, x);
    if keyOf(jobs[x]) in hints {
      OriginPlace(jobs, Hinted(keyOf, hints), x);
      assert Order(jobs, keyOf, hints)[place] == Origins(jobs, Hinted(keyOf, hints))[place];
    } else {
      OriginPlace(jobs, Unhinted(keyOf, hints), x);
      assert Order(jobs, keyOf, hints)[place] == Origins(jobs, Unhinted(keyOf, hints))[place - front];
    }
  }

  /** Some slot of the round's window runs the x-th job. */
  predicate RunsJob<T>(jobs: seq<T>, keyOf: T -> string, hints: seq<string>, cursor: nat, n: nat, x: nat)
    requires |Order(jobs, keyOf, hints)| == |jobs| > 0
  {
    exists i :: 0 <= i < n && Order(jobs, keyOf, hints)[Position(cursor, i, |jobs|)] == x
  }

  /** What stands in one place of the prioritized list. */
  lemma AtPlace<T>(jobs: seq<T>, keyOf: T -> string, hints: seq<string>, p: nat)
    requires p < |Order(jobs, keyOf, hints)|
    ensures |Prioritized(jobs, keyOf, hints)| == |Order(jobs, keyOf, hints)|
    ensures var x := Order(jobs, keyOf, hints)[p];
      x < |jobs| && Prioritized(jobs, keyOf, hints)[p] == jobs[x]
  {
    OriginsDescribeFilter(jobs, Hinted(keyOf, hints));
    OriginsDescribeFilter(jobs, Unhinted(keyOf, hints));
  }

  /** What the slots of the window run. */
  lemma WindowByOrder<T>(jobs: seq<T>, keyOf: T -> string, hints: seq<string>, cursor: nat, n: nat, i: nat)
    requires |jobs| > 0 && i < n
    ensures |Prioritized(jobs, keyOf, hints)| == |Order(jobs, keyOf, hints)| == |jobs|
    ensures var x := Order(jobs, keyOf, hints)[Position(cursor, i, |jobs|)];
      x < |jobs| && Window(Prioritized(jobs, keyOf, hints), cursor, n)[i] == jobs[x]
  {
    OriginsIncrease(jobs, keyOf, hints);
    AtPlace(jobs, keyOf, hints, Position(cursor, i, |jobs|));
  }

  lemma WithinWindow(c: nat, p: nat, n: nat, t: nat)
    requires c < t && p < t && n <= t
    ensures (p + t - c) % t < n <==> exists i :: 0 <= i < n && Position(c, i, t) == p
  {
    var d := (p + t - c) % t;
    var k := (p + t - c) / t;
    assert p + t - c == k * t + d;
    assert c + d == (1 - k) * t + p;
    ModIsUnique(c + d, 1 - k, p, t);
    assert Position(c, d, t) == p;
    if i :| 0 <= i < n && Position(c, i, t) == p {
      var q := (c + i) / t;
      assert c + i == q * t + p;
      assert p + t - c == (1 - q) * t + i;
      ModIsUnique(p + t - c, 1 - q, i, t);
    }
  }

  /** A round runs a job exactly when the job's rank is less than a batch ahead of the cursor, going round. */
  lemma RunsJobIff<T>(jobs: seq<T>, keyOf: T -> string, hints: seq<string>, cursor: nat, n: nat, x: nat)
    requires cursor < |jobs| && n <= |jobs| && x < |jobs|
    ensures |Order(jobs, keyOf, hints)| == |jobs|
    ensures RunsJob(jobs, keyOf, hints, cursor, n, x) <==> (Rank(jobs, keyOf, hints, x) + |jobs| - cursor) % |jobs| < n
  {
    RankIsThePlace(jobs, keyOf, hints, x);
    WithinWindow(cursor, Rank(jobs, keyOf, hints, x), n, |jobs|);
  }

  /** Some round of the run, each with its own hints, runs the job. */
  ghost predicate SomeRoundRuns<T>(jobs: seq<T>, keyOf: T -> string, hints: seq<seq<string>>, cursor: nat, batchSize: nat,
                                   x: nat)
    requires |jobs| > 0 && forall q :: 0 <= q < |hints| ==> |Order(jobs, keyOf, hints[q])| == |jobs|
  {
    exists q :: 0 <= q < |hints|
      && RunsJob(jobs, keyOf, hints[q], CursorAfter(cursor, q, batchSize, |jobs|), Min(batchSize, |jobs|), x)
  }

  /** Going round from the cursor, the job's rank is less than a batch ahead. */
  predicate IsAhead<T>(jobs: seq<T>, keyOf: T -> string, hints: seq<string>, cursor: nat, batchSize: nat, x: nat)
    requires x < |jobs| && cursor < |jobs|
  {
    (Rank(jobs, keyOf, hints, x) + |jobs| - cursor) % |jobs| < Min(batchSize, |jobs|)
  }

  /** In some round it is, by the hints and the cursor of that round. */
  ghost predicate SomeRankIsAhead<T>(jobs: seq<T>, keyOf: T -> string, hints: seq<seq<string>>, cursor: nat, batchSize: nat,
                                     x: nat)
    requires x < |jobs| && cursor < |jobs|
  {
    exists q :: 0 <= q < |hints| && IsAhead(jobs, keyOf, hints[q], CursorAfter(cursor, q, batchSize, |jobs|), batchSize, x)
  }

  lemma RoundRunsIff<T>(jobs: seq<T>, keyOf: T -> string, hints: seq<string>, cursor: nat, q: nat, batchSize: nat, x: nat)
    requires cursor < |jobs| && x < |jobs|
    ensures |Order(jobs, keyOf, hints)| == |jobs|
    ensures RunsJob(jobs, keyOf, hints, CursorAfter(cursor, q, batchSize, |jobs|), Min(batchSize, |jobs|), x)
      <==> IsAhead(jobs, keyOf, hints, CursorAfter(cursor, q, batchSize, |jobs|), batchSize, x)
  {
    RunsJobIff(jobs, keyOf, hints, CursorAfter(cursor, q, batchSize, |jobs|), Min(batchSize, |jobs|), x);
  }

  lemma SomeRoundRunsIff<T>(jobs: seq<T>, keyOf: T -> string, hints: seq<seq<string>>, cursor: nat, batchSize: nat, x: nat)
    requires cursor < |jobs| && x < |jobs| && forall q :: 0 <= q < |hints| ==> |Order(jobs, keyOf, hints[q])| == |jobs|
    ensures SomeRoundRuns(jobs, keyOf, hints, cursor, batchSize, x) <==> SomeRankIsAhead(jobs, keyOf, hints, cursor, batchSize, x)
  {
    forall q | 0 <= q < |hints|
      ensures RunsJob(jobs, keyOf, hints[q], CursorAfter(cursor, q, batchSize, |jobs|), Min(batchSize, |jobs|), x)
        <==> IsAhead(jobs, keyOf, hints[q], CursorAfter(cursor, q, batchSize, |jobs|), batchSize, x)
    {
      RoundRunsIff(jobs, keyOf, hints[q], cursor, q, batchSize, x);
    }
  }

  /**
   * Which hints cover the matrix, when they change from round to round: exactly those by which every job has, in some round, a
   * rank less than a batch ahead of that round's cursor.
   */
  lemma ChangingHintsCoverIff<T>(jobs: seq<T>, keyOf: T -> string, hints: seq<seq<string>>, cursor: nat, batchSize: nat)
    requires cursor < |jobs|
    ensures forall q :: 0 <= q < |hints| ==> |Order(jobs, keyOf, hints[q])| == |jobs|
    ensures (forall x :: 0 <= x < |jobs| ==> SomeRoundRuns(jobs, keyOf, hints, cursor, batchSize, x))
      <==> forall x :: 0 <= x < |jobs| ==> SomeRankIsAhead(jobs, keyOf, hints, cursor, batchSize, x)
  {
    forall q | 0 <= q < |hints| ensures |Order(jobs, keyOf, hints[q])| == |jobs| { OriginsIncrease(jobs, keyOf, hints[q]); }
    forall x | 0 <= x < |jobs|
      ensures SomeRoundRuns(jobs, keyOf, hints, cursor, batchSize, x)
        <==> SomeRankIsAhead(jobs, keyOf, hints, cursor, batchSize, x)
    {
      SomeRoundRunsIff(jobs, keyOf, hints, cursor, batchSize, x);
    }
  }

  class Scheduler<!T> {
    var scopeCursor: map<string, nat>

    constructor ()
      ensures scopeCursor == map[]
    {
      scopeCursor := map[];
    }

    /** One round for one scope and tenant; `forceAll` is the daily full run. */
    method RunPrecomputeRoundForTenant(key: string, jobs: seq<T>, keyOf: T -> string, hints: seq<string>,
                                       forceAll: bool, maxJobs: nat, concurrency: int)
      returns (batch: seq<T>, processed: nat, written: nat, skipped: nat, failed: nat, ghost pool: JobQueue.Pool)
      requires |jobs| > 0 && maxJobs > 0
      modifies this
      ensures multiset(Prioritized(jobs, keyOf, hints)) == multiset(jobs) && |Prioritized(jobs, keyOf, hints)| == |jobs|
      ensures var start := if forceAll || key !in old(scopeCursor) then 0 else old(scopeCursor)[key];
              var size := if forceAll then |jobs| else maxJobs;
              && scopeCursor == old(scopeCursor)[key := Advance(start, size, |jobs|)]
              && batch == Window(Prioritized(jobs, keyOf, hints), start, Min(size, |jobs|))
      ensures forceAll ==> multiset(batch) == multiset(jobs) && scopeCursor[key] == 0
      ensures JobQueue.Resolved(pool) && multiset(JobQueue.Indices(pool.finished)) == multiset(JobQueue.Upto(|batch|))
      ensures written == |JobQueue.Ending(pool.finished, JobQueue.Written)|
      ensures skipped == |JobQueue.Ending(pool.finished, JobQueue.Skipped)|
      ensures failed == |JobQueue.Ending(pool.finished, JobQueue.Failed)|
      ensures written + skipped + failed == processed == |batch|
    {
      var list := PrioritizeJobs(jobs, keyOf, hints);
      FilterSplitsMultiset(jobs, keyOf, hints);
      PermutationLength(list, jobs);
      var cursor := if key in scopeCursor then scopeCursor[key] else 0;
      if forceAll { cursor := 0; }
      var size := if forceAll then |list| else maxJobs;
      var batchStart, batchEnd, nextCursor;
      batch, batchStart, batchEnd, nextCursor := SliceBatch(list, cursor, size);
      scopeCursor := scopeCursor[key := nextCursor.value];
      FullBatchFromZero(list);
      ghost var events;
      processed, written, skipped, failed, events, pool := JobQueue.RunJobQueue(|batch|, concurrency, false);
      JobQueue.ResolvedRunHandledEveryJobOnce(|batch|, concurrency, events, pool);
    }
  }
}
