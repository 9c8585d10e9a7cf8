/**
 * Which clocks the limiters can bear: for each property the exact condition on the readings of the clock, whatever keys the
 * requests have and whatever the limit.
 */
module RateLimitClock {
  import opened RateLimit

  function A(x: int): Request { Request(x, "a") }

  /** Requests at these times, the marked ones of key "a" and all others of key "b". */
  function Marked(ts: seq<int>, marks: set<nat>): (trace: seq<Request>)
    ensures Times(trace) == ts
  {
    seq(|ts|, m requires 0 <= m < |ts| => Request(ts[m], if m in marks then "a" else "b"))
  }

  lemma MarkedPrefix(ts: seq<int>, marks: set<nat>, n: nat)
    requires n < |ts|
    ensures Marked(ts, marks)[..n + 1] == Marked(ts, marks)[..n] + [Request(ts[n], if n in marks then "a" else "b")]
  {
  }

  lemma {:induction false} DecisionAt(trace: seq<Request>, lim: Limits, n: nat)
    requires n < |trace|
    ensures |EagerRun(trace, lim).1| == |LazyRun(trace, lim).1| == |ReferenceRun(trace, lim).1| == |trace|
    ensures EagerRun(trace, lim).1[n] == Eager(EagerRun(trace[..n], lim).0, trace[n], lim).1
    ensures LazyRun(trace, lim).1[n] == Lazy(LazyRun(trace[..n], lim).0, trace[n], lim).1
    ensures ReferenceRun(trace, lim).1[n] == Reference(ReferenceRun(trace[..n], lim).0, trace[n], lim).1
  {
    OneDecisionEach(trace, lim);
    var init := trace[..|trace| - 1];
    OneDecisionEach(init, lim);
    if n < |init| {
      DecisionAt(init, lim, n);
      assert init[..n] == trace[..n] && init[n] == trace[n];
    }
  }

  lemma PruneOne(t: int, now: int, w: int)
    ensures Prune([t], now, w) == if now - t < w then [t] else []
  {
    assert [t][..0] == [] && Prune([], now, w) == [];
  }

  /** The bucket of key "a" after one more request. */
  lemma BucketOfA(b: Buckets, r: Request, w: int, t: int)
    requires Get(b, "a") == [] || Get(b, "a") == [t]
    ensures var arr := Get(Eager(b, r, Limits(w, 1)).0, "a");
      && (r.key != "a" ==> arr == [] || (arr == Get(b, "a") && r.at - t < w))
      && (r.key == "a" && Get(b, "a") == [] ==> arr == [r.at])
  {
    EagerGets(b, r, Limits(w, 1), "a");
    PruneOne(t, r.at, w);
    var none: seq<int> := [];
    assert none + [r.at] == [r.at] && Prune(none, r.at, w) == none;
  }

  lemma MarkedBucket(ts: seq<int>, w: int, marks: set<nat>, n: nat, t: int)
    requires n < |ts|
    requires Get(EagerRun(Marked(ts, marks)[..n], Limits(w, 1)).0, "a") in {[], [t]}
    ensures var trace, lim := Marked(ts, marks), Limits(w, 1);
      var before, arr := Get(EagerRun(trace[..n], lim).0, "a"), Get(EagerRun(trace[..n + 1], lim).0, "a");
      && (n !in marks ==> arr == [] || (arr == before && ts[n] - t < w))
      && (n in marks && before == [] ==> arr == [ts[n]])
  {
    var trace, lim := Marked(ts, marks), Limits(w, 1);
    MarkedPrefix(ts, marks, n);
    OneMoreRequest(trace[..n], trace[n], lim);
    BucketOfA(EagerRun(trace[..n], lim).0, trace[n], w, t);
  }

  /** With one request a window allowed: until `k`, the middleware holds of key "a" at most the time of `i`. */
  lemma {:induction false} EagerHoldsOne(ts: seq<int>, w: int, i: nat, k: nat, n: nat)
    requires i < k < |ts| && n <= k
    ensures Get(EagerRun(Marked(ts, {i, k})[..n], Limits(w, 1)).0, "a") in {[], [ts[i]]}
    ensures n <= i ==> Get(EagerRun(Marked(ts, {i, k})[..n], Limits(w, 1)).0, "a") == []
  {
    if n == 0 {
      assert Marked(ts, {i, k})[..0] == [];
    } else {
      EagerHoldsOne(ts, w, i, k, n - 1);
      MarkedBucket(ts, w, {i, k}, n - 1, ts[i]);
    }
  }

  /** Once `j` has come, it has forgotten the time of `i`. */
  lemma {:induction false} EagerForgets(ts: seq<int>, w: int, i: nat, j: nat, k: nat, n: nat)
    requires i < j < n <= k < |ts| && ts[j] - ts[i] >= w
    ensures Get(EagerRun(Marked(ts, {i, k})[..n], Limits(w, 1)).0, "a") == []
  {
    if n == j + 1 { EagerHoldsOne(ts, w, i, k, j); } else { EagerForgets(ts, w, i, j, k, n - 1); }
    MarkedBucket(ts, w, {i, k}, n - 1, ts[i]);
  }

  /** So it admits `i` and `k`. */
  lemma EagerAdmitsBoth(ts: seq<int>, w: int, i: nat, j: nat, k: nat)
    requires i < j < k < |ts| && ts[j] - ts[i] >= w
    ensures var trace, lim := Marked(ts, {i, k}), Limits(w, 1);
      |EagerRun(trace, lim).1| == |trace| && EagerRun(trace, lim).1[i] && EagerRun(trace, lim).1[k]
  {
    var trace, lim := Marked(ts, {i, k}), Limits(w, 1);
    DecisionAt(trace, lim, i);
    DecisionAt(trace, lim, k);
    EagerHoldsOne(ts, w, i, k, i);
    EagerForgets(ts, w, i, j, k, k);
    EagerGets(EagerRun(trace[..i], lim).0, trace[i], lim, "a");
    EagerGets(EagerRun(trace[..k], lim).0, trace[k], lim, "a");
  }

  // The requests of key "a" and the decisions on them, mark by mark.

  lemma MarkedStep(ts: seq<int>, marks: set<nat>, ds: seq<bool>, n: nat)
    requires n < |ts| == |ds|
    ensures var trace := Marked(ts, marks);
      && Only(trace[..n + 1], "a") == Only(trace[..n], "a") + (if n in marks then [A(ts[n])] else [])
      && KeyDecisions(trace[..n + 1], ds[..n + 1], "a")
        == KeyDecisions(trace[..n], ds[..n], "a") + (if n in marks then [ds[n]] else [])
  {
    var trace := Marked(ts, marks);
    assert trace[..n + 1][..n] == trace[..n] && ds[..n + 1][..n] == ds[..n];
  }

  ghost predicate NoneBetween(marks: set<nat>, m: nat, n: nat) { forall x :: m <= x < n ==> x !in marks }

  lemma {:induction false} MarkedGap(ts: seq<int>, marks: set<nat>, ds: seq<bool>, m: nat, n: nat)
    requires m <= n <= |ts| == |ds| && NoneBetween(marks, m, n)
    ensures Only(Marked(ts, marks)[..n], "a") == Only(Marked(ts, marks)[..m], "a")
    ensures KeyDecisions(Marked(ts, marks)[..n], ds[..n], "a") == KeyDecisions(Marked(ts, marks)[..m], ds[..m], "a")
    decreases n
  {
    if m < n {
      MarkedGap(ts, marks, ds, m, n - 1);
      MarkedStep(ts, marks, ds, n - 1);
    }
  }

  /** From one mark to the next, or to the end. */
  lemma NextMark(ts: seq<int>, marks: set<nat>, ds: seq<bool>, m: nat, n: nat)
    requires m < n <= |ts| == |ds| && m in marks && NoneBetween(marks, m + 1, n)
    ensures Only(Marked(ts, marks)[..n], "a") == Only(Marked(ts, marks)[..m], "a") + [A(ts[m])]
    ensures KeyDecisions(Marked(ts, marks)[..n], ds[..n], "a") == KeyDecisions(Marked(ts, marks)[..m], ds[..m], "a") + [ds[m]]
  {
    MarkedStep(ts, marks, ds, m);
    MarkedGap(ts, marks, ds, m + 1, n);
  }

  /** Up to the first mark and on to the next. */
  lemma FirstMark(ts: seq<int>, marks: set<nat>, ds: seq<bool>, i: nat, k: nat)
    requires i < k < |ts| == |ds| && i in marks && NoneBetween(marks, 0, i) && NoneBetween(marks, i + 1, k)
    ensures Only(Marked(ts, marks)[..k], "a") == [A(ts[i])]
    ensures KeyDecisions(Marked(ts, marks)[..k], ds[..k], "a") == [ds[i]]
  {
    MarkedGap(ts, marks, ds, 0, i);
    NextMark(ts, marks, ds, i, k);
  }

  lemma LastMark(ts: seq<int>, marks: set<nat>, ds: seq<bool>, k: nat)
    requires k < |ts| == |ds| && k in marks && NoneBetween(marks, k + 1, |ts|)
    ensures Only(Marked(ts, marks), "a") == Only(Marked(ts, marks)[..k], "a") + [A(ts[k])]
    ensures KeyDecisions(Marked(ts, marks), ds, "a") == KeyDecisions(Marked(ts, marks)[..k], ds[..k], "a") + [ds[k]]
  {
    NextMark(ts, marks, ds, k, |ts|);
    assert Marked(ts, marks)[..|ts|] == Marked(ts, marks) && ds[..|ts|] == ds;
  }

  lemma OfTwo(ts: seq<int>, marks: set<nat>, ds: seq<bool>, i: nat, k: nat)
    requires i < k < |ts| == |ds| && i in marks && k in marks
    requires NoneBetween(marks, 0, i) && NoneBetween(marks, i + 1, k) && NoneBetween(marks, k + 1, |ts|)
    ensures Only(Marked(ts, marks), "a") == [A(ts[i])] + [A(ts[k])]
    ensures KeyDecisions(Marked(ts, marks), ds, "a") == [ds[i]] + [ds[k]]
  {
    FirstMark(ts, marks, ds, i, k);
    LastMark(ts, marks, ds, k);
  }

  lemma TwoMarks(ts: seq<int>, ds: seq<bool>, i: nat, k: nat)
    requires i < k < |ts| == |ds|
    ensures Only(Marked(ts, {i, k}), "a") == [A(ts[i])] + [A(ts[k])]
    ensures KeyDecisions(Marked(ts, {i, k}), ds, "a") == [ds[i]] + [ds[k]]
  {
    var marks := {i, k};
    assert NoneBetween(marks, 0, i) && NoneBetween(marks, i + 1, k) && NoneBetween(marks, k + 1, |ts|);
    OfTwo(ts, marks, ds, i, k);
  }

  lemma OfThree(ts: seq<int>, marks: set<nat>, ds: seq<bool>, i: nat, j: nat, k: nat)
    requires i < j < k < |ts| == |ds| && i in marks && j in marks && k in marks
    requires NoneBetween(marks, 0, i) && NoneBetween(marks, i + 1, j) && NoneBetween(marks, j + 1, k) && NoneBetween(marks, k + 1, |ts|)
    ensures Only(Marked(ts, marks), "a") == [A(ts[i])] + [A(ts[j])] + [A(ts[k])]
  {
    FirstMark(ts, marks, ds, i, j);
    NextMark(ts, marks, ds, j, k);
    LastMark(ts, marks, ds, k);
  }

  lemma ThreeMarks(ts: seq<int>, ds: seq<bool>, i: nat, j: nat, k: nat)
    requires i < j < k < |ts| == |ds|
    ensures Only(Marked(ts, {i, j, k}), "a") == [A(ts[i])] + [A(ts[j])] + [A(ts[k])]
  {
    var marks := {i, j, k};
    assert NoneBetween(marks, 0, i) && NoneBetween(marks, i + 1, j) && NoneBetween(marks, j + 1, k) && NoneBetween(marks, k + 1, |ts|);
    OfThree(ts, marks, ds, i, j, k);
  }

  lemma FourMarks(ts: seq<int>, ds: seq<bool>, a: nat, b: nat, j: nat, k: nat)
    requires a < b < j < k < |ts| == |ds|
    ensures Only(Marked(ts, {a, b, j, k}), "a") == [A(ts[a])] + [A(ts[b])] + [A(ts[j])] + [A(ts[k])]
    ensures KeyDecisions(Marked(ts, {a, b, j, k}), ds, "a") == [ds[a]] + [ds[b]] + [ds[j]] + [ds[k]]
  {
    var marks := {a, b, j, k};
    assert NoneBetween(marks, 0, a) && NoneBetween(marks, a + 1, b) && NoneBetween(marks, b + 1, j) && NoneBetween(marks, j + 1, k)
      && NoneBetween(marks, k + 1, |ts|);
    OfFour(ts, marks, ds, a, b, j, k);
  }

  lemma OfFour(ts: seq<int>, marks: set<nat>, ds: seq<bool>, a: nat, b: nat, j: nat, k: nat)
    requires a < b < j < k < |ts| == |ds| && a in marks && b in marks && j in marks && k in marks
    requires NoneBetween(marks, 0, a) && NoneBetween(marks, a + 1, b) && NoneBetween(marks, b + 1, j) && NoneBetween(marks, j + 1, k)
    requires NoneBetween(marks, k + 1, |ts|)
    ensures Only(Marked(ts, marks), "a") == [A(ts[a])] + [A(ts[b])] + [A(ts[j])] + [A(ts[k])]
    ensures KeyDecisions(Marked(ts, marks), ds, "a") == [ds[a]] + [ds[b]] + [ds[j]] + [ds[k]]
  {
    FirstMark(ts, marks, ds, a, b);
    NextMark(ts, marks, ds, b, j);
    NextMark(ts, marks, ds, j, k);
    LastMark(ts, marks, ds, k);
  }

  // What is decided on two and on three requests of one key.

  lemma NoHistory(key: string, now: int, w: int)
    ensures Counted([], key, now, w) == []
  {
  }

  lemma PruneNone(now: int, w: int)
    ensures Prune([], now, w) == []
  {
  }

  lemma FirstIsAdmitted(x: int, w: int, max: nat)
    requires max >= 1
    ensures var rs, lim := [A(x)], Limits(w, max);
      EagerRun(rs, lim) == (map["a" := [x]], [true]) == LazyRun(rs, lim) && ReferenceRun(rs, lim) == (rs, [true])
  {
    var rs, lim := [A(x)], Limits(w, max);
    assert rs[..0] == [];
    var none: Buckets := map[];
    assert EagerRun([], lim) == (none, []) == LazyRun([], lim) && ReferenceRun([], lim) == ([], []);
    PruneNone(x, w);
    NoHistory("a", x, w);
    assert PruneAll(none, x, w) == none;
    assert [] + [x] == [x] && [] + rs == rs && [] + [true] == [true];
  }

  /** One more request of key "a", when its bucket and the decisions so far are known. */
  lemma LazyNext(rs: seq<Request>, x: int, lim: Limits, arr: seq<int>, ds: seq<bool>)
    requires Get(LazyRun(rs, lim).0, "a") == arr && LazyRun(rs, lim).1 == ds
    ensures var p, l := Prune(arr, x, lim.windowMs), LazyRun(rs + [A(x)], lim);
      (|p| < lim.max ==> Get(l.0, "a") == p + [x]) && l.1 == ds + [|p| < lim.max]
  {
    OneMoreRequest(rs, A(x), lim);
    LazyGets(LazyRun(rs, lim).0, A(x), lim, "a");
  }

  lemma ReferenceNext(rs: seq<Request>, x: int, lim: Limits, log: seq<Request>, ds: seq<bool>)
    requires ReferenceRun(rs, lim) == (log, ds)
    ensures var ok := |Counted(log, "a", x, lim.windowMs)| < lim.max;
      ReferenceRun(rs + [A(x)], lim) == (if ok then log + [A(x)] else log, ds + [ok])
  {
    OneMoreReference(rs, A(x), lim);
  }

  lemma EagerNext(rs: seq<Request>, x: int, lim: Limits, arr: seq<int>, ds: seq<bool>)
    requires Get(EagerRun(rs, lim).0, "a") == arr && EagerRun(rs, lim).1 == ds
    ensures EagerRun(rs + [A(x)], lim).1 == ds + [|Prune(arr, x, lim.windowMs)| < lim.max]
  {
    OneMoreRequest(rs, A(x), lim);
    EagerGets(EagerRun(rs, lim).0, A(x), lim, "a");
  }

  lemma CountedOne(x: int, now: int, w: int)
    ensures Counted([A(x)], "a", now, w) == if now - x < w then [x] else []
  {
    NoHistory("a", now, w);
    CountedAppend([], A(x), "a", now, w);
    assert [] + [A(x)] == [A(x)] && [] + [x] == [x];
  }

  lemma SecondOfTwo(x: int, y: int, w: int)
    requires y - x < w
    ensures EagerRun([A(x)] + [A(y)], Limits(w, 1)).1 == [true] + [false]
    ensures ReferenceRun([A(x)] + [A(y)], Limits(w, 1)).1 == [true] + [false]
  {
    FirstIsAdmitted(x, w, 1);
    PruneOne(x, y, w);
    CountedOne(x, y, w);
    EagerNext([A(x)], y, Limits(w, 1), [x], [true]);
    ReferenceNext([A(x)], y, Limits(w, 1), [A(x)], [true]);
  }

  /** The limit that tells the two apart on three requests, of which the second comes after the window of the first. */
  function Telling(y: int, z: int, w: int): nat { if z - y < w then 2 else 1 }

  lemma SecondAfterWindow(x: int, y: int, w: int, max: nat)
    requires y - x >= w && max >= 1
    ensures var l := LazyRun([A(x)] + [A(y)], Limits(w, max)); Get(l.0, "a") == [y] && l.1 == [true] + [true]
    ensures ReferenceRun([A(x)] + [A(y)], Limits(w, max)) == ([A(x)] + [A(y)], [true] + [true])
  {
    FirstIsAdmitted(x, w, max);
    PruneOne(x, y, w);
    CountedOne(x, y, w);
    LazyNext([A(x)], y, Limits(w, max), [x], [true]);
    ReferenceNext([A(x)], y, Limits(w, max), [A(x)], [true]);
    assert [] + [y] == [y];
  }

  lemma CountedTwo(x: int, y: int, now: int, w: int)
    ensures |Counted([A(x)] + [A(y)], "a", now, w)| == (if now - x < w then 1 else 0) + (if now - y < w then 1 else 0)
  {
    CountedOne(x, now, w);
    CountedAppend([A(x)], A(y), "a", now, w);
  }

  lemma ThirdComesBack(x: int, y: int, z: int, w: int)
    requires y - x >= w && z - x < w
    ensures var rs, lim := [A(x)] + [A(y)] + [A(z)], Limits(w, Telling(y, z, w));
      LazyRun(rs, lim).1 == [true] + [true] + [true] && ReferenceRun(rs, lim).1 == [true] + [true] + [false]
  {
    var two, lim, ds := [A(x)] + [A(y)], Limits(w, Telling(y, z, w)), [true] + [true];
    SecondAfterWindow(x, y, w, lim.max);
    PruneOne(y, z, w);
    CountedTwo(x, y, z, w);
    LazyNext(two, z, lim, [y], ds);
    ReferenceNext(two, z, lim, two, ds);
  }

  // The bound of the operation-log check.

  /** Times in [from, from + w) that are outside the window of `t`. */
  function GoneIn(arr: seq<int>, from: int, w: int, t: int): nat {
    if arr == [] then 0
    else
      var x := arr[|arr| - 1];
      GoneIn(arr[..|arr| - 1], from, w, t) + (if from <= x < from + w && t - x >= w then 1 else 0)
  }

  /** Times from `bound` on. */
  function CountFrom(arr: seq<int>, bound: int): nat {
    if arr == [] then 0 else CountFrom(arr[..|arr| - 1], bound) + (if arr[|arr| - 1] >= bound then 1 else 0)
  }

  lemma CountsAppend(arr: seq<int>, x: int, from: int, w: int, t: int)
    ensures GoneIn(arr + [x], from, w, t) == GoneIn(arr, from, w, t) + (if from <= x < from + w && t - x >= w then 1 else 0)
    ensures CountFrom(arr + [x], from) == CountFrom(arr, from) + (if x >= from then 1 else 0)
  {
    assert (arr + [x])[..|arr|] == arr;
  }

  /** No reading leaves two earlier ones of [from, from + w) behind. */
  ghost predicate OneGone(ts: seq<int>, from: int, w: int) {
    forall a, b, j :: 0 <= a < b < j < |ts| && from <= ts[a] < from + w && from <= ts[b] < from + w ==>
      ts[j] - ts[a] < w || ts[j] - ts[b] < w
  }

  lemma OneGoneAppend(ts: seq<int>, t: int, from: int, w: int)
    requires OneGone(ts + [t], from, w)
    ensures OneGone(ts, from, w) && GoneIn(ts, from, w, t) <= 1
  {
    var us := ts + [t];
    assert forall i :: 0 <= i < |ts| ==> us[i] == ts[i];
    assert us[|ts|] == t;
    AtMostOne(ts, from, w, t);
  }

  lemma {:induction false} GoneIndex(ts: seq<int>, from: int, w: int, t: int) returns (a: nat)
    requires GoneIn(ts, from, w, t) > 0
    ensures a < |ts| && from <= ts[a] < from + w && t - ts[a] >= w
  {
    a := |ts| - 1;
    if !(from <= ts[a] < from + w && t - ts[a] >= w) { a := GoneIndex(ts[..a], from, w, t); }
  }

  lemma {:induction false} AtMostOne(ts: seq<int>, from: int, w: int, t: int)
    requires forall a, b :: 0 <= a < b < |ts| && from <= ts[a] < from + w && from <= ts[b] < from + w ==> t - ts[a] < w || t - ts[b] < w
    ensures GoneIn(ts, from, w, t) <= 1
  {
    if ts != [] {
      var init, x := ts[..|ts| - 1], ts[|ts| - 1];
      AtMostOne(init, from, w, t);
      if from <= x < from + w && t - x >= w && GoneIn(init, from, w, t) > 0 { var a := GoneIndex(init, from, w, t); }
    }
  }

  /** Pruning takes just the gone times out of the window, and none from its end on while `now` is within a window of that. */
  lemma {:induction false} PruneCounts(arr: seq<int>, now: int, from: int, w: int)
    ensures CountIn(Prune(arr, now, w), from, w) == CountIn(arr, from, w) - GoneIn(arr, from, w, now)
    ensures now < from + w + w ==> CountFrom(Prune(arr, now, w), from + w) == CountFrom(arr, from + w)
    ensures from <= now < from + w ==> |Prune(arr, now, w)| >= CountIn(arr, from, w) + CountFrom(arr, from + w)
    ensures now >= from + w + w ==> GoneIn(arr, from, w, now) == CountIn(arr, from, w)
  {
    if arr != [] {
      var init, x := arr[..|arr| - 1], arr[|arr| - 1];
      PruneCounts(init, now, from, w);
      CountAppend(Prune(init, now, w), x, from, w);
      CountsAppend(Prune(init, now, w), x, from + w, w, now);
    }
  }

  /** What a bucket has of a window, and the log, is no more than what came. */
  ghost predicate NoMoreThanCame(arr: seq<int>, n: nat, ts: seq<int>, from: int, w: int) {
    n <= CountIn(ts, from, w) && forall t :: GoneIn(arr, from, w, t) <= GoneIn(ts, from, w, t)
  }

  lemma {:induction false} PruneGone(arr: seq<int>, now: int, from: int, w: int, t: int)
    ensures GoneIn(Prune(arr, now, w), from, w, t) <= GoneIn(arr, from, w, t)
  {
    if arr != [] {
      var init, x := arr[..|arr| - 1], arr[|arr| - 1];
      PruneGone(init, now, from, w, t);
      CountsAppend(Prune(init, now, w), x, from, w, t);
    }
  }

  /** The admitted requests of the window, all but those for whose forgotten time a later time stands in the bucket. */
  ghost predicate StoodFor(arr: seq<int>, n: nat, from: int, w: int) { n <= CountIn(arr, from, w) + CountFrom(arr, from + w) }

  /** One more request of the key, admitted. */
  lemma StoodForStep(arr: seq<int>, n: nat, ts: seq<int>, t: int, from: int, w: int)
    requires StoodFor(arr, n, from, w) && NoMoreThanCame(arr, n, ts, from, w) && GoneIn(ts, from, w, t) <= 1
    ensures StoodFor(Prune(arr, t, w) + [t], n + (if from <= t < from + w then 1 else 0), from, w)
  {
    PruneCounts(arr, t, from, w);
    PruneCounts(ts, t, from, w);
    CountAppend(Prune(arr, t, w), t, from, w);
    CountsAppend(Prune(arr, t, w), t, from + w, w, t);
    assert GoneIn(arr, from, w, t) <= GoneIn(ts, from, w, t);
    if t < from + w { NoneGoneYet(arr, from, w, t); }
  }

  lemma {:induction false} NoneGoneYet(arr: seq<int>, from: int, w: int, t: int)
    requires t < from + w
    ensures GoneIn(arr, from, w, t) == 0
  {
    if arr != [] { NoneGoneYet(arr[..|arr| - 1], from, w, t); }
  }

  lemma NoMoreStep(arr: seq<int>, n: nat, ts: seq<int>, t: int, from: int, w: int)
    requires NoMoreThanCame(arr, n, ts, from, w)
    ensures NoMoreThanCame(arr, n, ts + [t], from, w)
    ensures NoMoreThanCame(Prune(arr, t, w) + [t], n + (if from <= t < from + w then 1 else 0), ts + [t], from, w)
  {
    CountAppend(ts, t, from, w);
    forall x
      ensures GoneIn(arr, from, w, x) <= GoneIn(ts + [t], from, w, x)
      ensures GoneIn(Prune(arr, t, w) + [t], from, w, x) <= GoneIn(ts + [t], from, w, x)
    {
      PruneGone(arr, t, from, w, x);
      CountsAppend(ts, t, from, w, x);
      CountsAppend(Prune(arr, t, w), t, from, w, x);
    }
  }

  lemma LazyGets(b: Buckets, r: Request, lim: Limits, k: string)
    ensures var l := Lazy(b, r, lim);
      && (Get(l.0, k) == if k == r.key && l.1 then Prune(Get(b, k), r.at, lim.windowMs) + [r.at] else Get(b, k))
      && (l.1 <==> |Prune(Get(b, r.key), r.at, lim.windowMs)| < lim.max)
  {
  }

  lemma {:induction false} LazyStoodFor(trace: seq<Request>, lim: Limits, key: string, from: int)
    requires OneGone(Times(trace), from, lim.windowMs)
    ensures |LazyRun(trace, lim).1| == |trace|
    ensures var arr, n := Get(LazyRun(trace, lim).0, key), InWindow(Admitted(trace, LazyRun(trace, lim).1), key, from, lim.windowMs);
      StoodFor(arr, n, from, lim.windowMs) && NoMoreThanCame(arr, n, Times(trace), from, lim.windowMs)
  {
    OneDecisionEach(trace, lim);
    if trace != [] {
      var init, r, w := trace[..|trace| - 1], trace[|trace| - 1], lim.windowMs;
      assert trace == init + [r];
      TimesAppend(init, r);
      OneDecisionEach(init, lim);
      OneGoneAppend(Times(init), r.at, from, w);
      LazyStoodFor(init, lim, key, from);
      var b, ds := LazyRun(init, lim).0, LazyRun(init, lim).1;
      var n := InWindow(Admitted(init, ds), key, from, w);
      OneMoreRequest(init, r, lim);
      LazyGets(b, r, lim, key);
      AdmittedCounts(init, ds, r, Lazy(b, r, lim).1, key, from, w);
      NoMoreStep(Get(b, key), n, Times(init), r.at, from, w);
      StoodForStep(Get(b, key), n, Times(init), r.at, from, w);
    }
  }

  ghost predicate OneWindow(x: int, y: int, z: int, w: int) {
    x - y < w && y - x < w && y - z < w && z - y < w && z - x < w && x - z < w
  }

  /** At `j` both the readings at `a` and `b` were left behind, and that at `k` is in one window with them. */
  ghost predicate NearTwo(ts: seq<int>, w: int, a: nat, b: nat, j: nat, k: nat)
    requires a < b < j < k < |ts|
  {
    ts[j] - ts[a] >= w && ts[j] - ts[b] >= w && OneWindow(ts[a], ts[b], ts[k], w)
  }

  /** The clock never comes back to within a window of two earlier readings that it had left behind both at once. */
  ghost predicate NeverNearTwo(ts: seq<int>, w: int) {
    forall a, b, j, k :: 0 <= a < b < j < k < |ts| ==> !NearTwo(ts, w, a, b, j, k)
  }

  lemma NeverNearTwoAppend(ts: seq<int>, t: int, w: int)
    requires NeverNearTwo(ts + [t], w)
    ensures NeverNearTwo(ts, w)
  {
    var us := ts + [t];
    forall a, b, j, k | 0 <= a < b < j < k < |ts| ensures !NearTwo(ts, w, a, b, j, k) {
      assert !NearTwo(us, w, a, b, j, k);
      assert us[a] == ts[a] && us[b] == ts[b] && us[j] == ts[j] && us[k] == ts[k];
    }
  }

  lemma NearOfNone(ts: seq<int>, t: int, from: int, w: int)
    requires NeverNearTwo(ts + [t], w) && from <= t < from + w
    ensures OneGone(ts, from, w)
  {
    var us := ts + [t];
    forall a, b, j | 0 <= a < b < j < |ts| && from <= ts[a] < from + w && from <= ts[b] < from + w
      ensures ts[j] - ts[a] < w || ts[j] - ts[b] < w
    {
      assert us[a] == ts[a] && us[b] == ts[b] && us[j] == ts[j] && us[|ts|] == t;
      assert !NearTwo(us, w, a, b, j, |ts|);
    }
  }

  lemma LazyRoom(init: seq<Request>, r: Request, lim: Limits, from: int)
    requires OneGone(Times(init), from, lim.windowMs) && from <= r.at < from + lim.windowMs
    requires |LazyRun(init, lim).1| == |init| && Lazy(LazyRun(init, lim).0, r, lim).1
    ensures InWindow(Admitted(init, LazyRun(init, lim).1), r.key, from, lim.windowMs) < lim.max
  {
    LazyGets(LazyRun(init, lim).0, r, lim, r.key);
    LazyStoodFor(init, lim, r.key, from);
    PruneCounts(Get(LazyRun(init, lim).0, r.key), r.at, from, lim.windowMs);
  }

  lemma LazyBoundStep(init: seq<Request>, r: Request, lim: Limits, key: string, from: int)
    requires from <= r.at < from + lim.windowMs ==> OneGone(Times(init), from, lim.windowMs)
    requires |LazyRun(init, lim).1| == |init| && InWindow(Admitted(init, LazyRun(init, lim).1), key, from, lim.windowMs) <= lim.max
    ensures |LazyRun(init + [r], lim).1| == |init + [r]|
    ensures InWindow(Admitted(init + [r], LazyRun(init + [r], lim).1), key, from, lim.windowMs) <= lim.max
  {
    OneMoreRequest(init, r, lim);
    var ok := Lazy(LazyRun(init, lim).0, r, lim).1;
    AdmittedCounts(init, LazyRun(init, lim).1, r, ok, key, from, lim.windowMs);
    if ok && r.key == key && from <= r.at < from + lim.windowMs { LazyRoom(init, r, lim, from); }
  }

  lemma {:induction false} LazyBound(trace: seq<Request>, lim: Limits, key: string, from: int)
    requires NeverNearTwo(Times(trace), lim.windowMs)
    ensures |LazyRun(trace, lim).1| == |trace|
    ensures InWindow(Admitted(trace, LazyRun(trace, lim).1), key, from, lim.windowMs) <= lim.max
  {
    if trace != [] {
      var init, r, w := trace[..|trace| - 1], trace[|trace| - 1], lim.windowMs;
      assert trace == init + [r];
      TimesAppend(init, r);
      NeverNearTwoAppend(Times(init), r.at, w);
      LazyBound(init, lim, key, from);
      if from <= r.at < from + w { NearOfNone(Times(init), r.at, from, w); }
      LazyBoundStep(init, r, lim, key, from);
    }
  }

  // What is decided when a reading comes back near two that were left behind.

  lemma PruneTwo(x1: int, x2: int, now: int, w: int)
    requires now - x1 >= w && now - x2 >= w
    ensures Prune([x2], now, w) == [] == Prune([x1] + [x2], now, w)
  {
    PruneOne(x1, now, w);
    PruneOne(x2, now, w);
    PruneAppend([x1], x2, now, w);
  }

  lemma LazyTwoHeld(x1: int, x2: int, w: int)
    ensures var l := LazyRun([A(x1)] + [A(x2)], Limits(w, 2));
      (Get(l.0, "a") == [x2] || Get(l.0, "a") == [x1] + [x2]) && l.1 == [true] + [true]
  {
    FirstIsAdmitted(x1, w, 2);
    PruneOne(x1, x2, w);
    LazyNext([A(x1)], x2, Limits(w, 2), [x1], [true]);
    assert [] + [x2] == [x2];
  }

  lemma LazyBothGone(x1: int, x2: int, y: int, w: int)
    requires y - x1 >= w && y - x2 >= w
    ensures var l := LazyRun([A(x1)] + [A(x2)] + [A(y)], Limits(w, 2)); Get(l.0, "a") == [y] && l.1 == [true] + [true] + [true]
  {
    var two, lim := [A(x1)] + [A(x2)], Limits(w, 2);
    LazyTwoHeld(x1, x2, w);
    PruneTwo(x1, x2, y, w);
    LazyNext(two, y, lim, Get(LazyRun(two, lim).0, "a"), [true] + [true]);
    assert [] + [y] == [y];
  }

  lemma LazyAdmitsAllFour(x1: int, x2: int, y: int, z: int, w: int)
    requires y - x1 >= w && y - x2 >= w
    ensures LazyRun([A(x1)] + [A(x2)] + [A(y)] + [A(z)], Limits(w, 2)).1 == [true] + [true] + [true] + [true]
  {
    LazyBothGone(x1, x2, y, w);
    PruneOne(y, z, w);
    LazyNext([A(x1)] + [A(x2)] + [A(y)], z, Limits(w, 2), [y], [true] + [true] + [true]);
  }

  lemma {:induction false} SameInWindow(trace: seq<Request>, ds: seq<bool>, key: string, from: int, w: int)
    requires |ds| == |trace|
    ensures |KeyDecisions(trace, ds, key)| == |Only(trace, key)|
    ensures InWindow(Admitted(trace, ds), key, from, w) == InWindow(Admitted(Only(trace, key), KeyDecisions(trace, ds, key)), key, from, w)
  {
    if trace != [] {
      var n := |trace| - 1;
      var init, r, ok := trace[..n], trace[n], ds[n];
      SameInWindow(init, ds[..n], key, from, w);
      assert trace == init + [r] && ds == ds[..n] + [ok];
      AdmittedCounts(init, ds[..n], r, ok, key, from, w);
      if r.key == key { AdmittedCounts(Only(init, key), KeyDecisions(init, ds[..n], key), r, ok, key, from, w); }
    }
  }

  lemma {:induction false} AllAdmitted(rs: seq<Request>, ds: seq<bool>)
    requires |ds| == |rs| && forall i :: 0 <= i < |ds| ==> ds[i]
    ensures Admitted(rs, ds) == rs
  {
    if rs != [] { AllAdmitted(rs[..|rs| - 1], ds[..|rs| - 1]); }
  }

  function Least(x: int, y: int): int { if x < y then x else y }

  lemma OneInWindow(x: int, from: int, w: int)
    ensures InWindow([A(x)], "a", from, w) == if from <= x < from + w then 1 else 0
  {
    InWindowAppend([], A(x), "a", from, w);
    assert [] + [A(x)] == [A(x)];
  }

  lemma TwoInWindow(x: int, z: int, w: int)
    requires x - z < w && z - x < w
    ensures InWindow([A(x)] + [A(z)], "a", Least(x, z), w) == 2
  {
    OneInWindow(x, Least(x, z), w);
    InWindowAppend([A(x)], A(z), "a", Least(x, z), w);
  }

  lemma ThreeInWindow(x1: int, x2: int, y: int, z: int, w: int)
    requires OneWindow(x1, x2, z, w)
    ensures InWindow([A(x1)] + [A(x2)] + [A(y)] + [A(z)], "a", Least(Least(x1, x2), z), w) >= 3
  {
    var from := Least(Least(x1, x2), z);
    OneInWindow(x1, from, w);
    InWindowAppend([A(x1)], A(x2), "a", from, w);
    InWindowAppend([A(x1)] + [A(x2)], A(y), "a", from, w);
    InWindowAppend([A(x1)] + [A(x2)] + [A(y)], A(z), "a", from, w);
  }

  // The exact conditions.  Each is on the readings of the clock alone: requests at these times, with whatever keys and limit.

  lemma NotSteady(ts: seq<int>, w: int) returns (i: nat, j: nat, k: nat)
    requires !Steady(ts, w)
    ensures i < j < k < |ts| && ts[j] - ts[i] >= w && ts[k] - ts[i] < w
  {
    i, j, k :| 0 <= i < j < k < |ts| && ts[j] - ts[i] >= w && ts[k] - ts[i] < w;
  }

  ghost predicate EagerLikeHistory(ts: seq<int>, w: int) {
    forall trace, max :: Times(trace) == ts ==> EagerRun(trace, Limits(w, max)).1 == ReferenceRun(trace, Limits(w, max)).1
  }

  ghost predicate LazyLikeHistory(ts: seq<int>, w: int) {
    forall trace, max :: Times(trace) == ts ==> LazyRun(trace, Limits(w, max)).1 == ReferenceRun(trace, Limits(w, max)).1
  }

  ghost predicate KeysIndependent(trace: seq<Request>, lim: Limits) {
    && |EagerRun(trace, lim).1| == |trace|
    && forall key :: KeyDecisions(trace, EagerRun(trace, lim).1, key) == EagerRun(Only(trace, key), lim).1
  }

  ghost predicate EagerKeysIndependent(ts: seq<int>, w: int) {
    forall trace, max :: Times(trace) == ts ==> KeysIndependent(trace, Limits(w, max))
  }

  ghost predicate Bounded(trace: seq<Request>, decisions: seq<bool>, lim: Limits) {
    |decisions| == |trace| && forall key, from :: InWindow(Admitted(trace, decisions), key, from, lim.windowMs) <= lim.max
  }

  ghost predicate EagerBounded(ts: seq<int>, w: int) {
    forall trace, max :: Times(trace) == ts ==> Bounded(trace, EagerRun(trace, Limits(w, max)).1, Limits(w, max))
  }

  ghost predicate LazyBounded(ts: seq<int>, w: int) {
    forall trace, max :: Times(trace) == ts ==> Bounded(trace, LazyRun(trace, Limits(w, max)).1, Limits(w, max))
  }

  /** Both of the marked requests are admitted by the middleware. */
  lemma TwoDecisions(ts: seq<int>, w: int, i: nat, j: nat, k: nat)
    requires i < j < k < |ts| && ts[j] - ts[i] >= w
    ensures var trace, lim := Marked(ts, {i, k}), Limits(w, 1);
      && Only(trace, "a") == [A(ts[i])] + [A(ts[k])]
      && |EagerRun(trace, lim).1| == |trace| && KeyDecisions(trace, EagerRun(trace, lim).1, "a") == [true] + [true]
  {
    var trace, lim := Marked(ts, {i, k}), Limits(w, 1);
    EagerAdmitsBoth(ts, w, i, j, k);
    TwoMarks(ts, EagerRun(trace, lim).1, i, k);
  }

  /** Alone, or with the full history, the second is refused. */
  lemma SecondRefused(ts: seq<int>, w: int, i: nat, k: nat)
    requires i < k < |ts| && ts[k] - ts[i] < w
    ensures var trace, lim := Marked(ts, {i, k}), Limits(w, 1);
      && EagerRun(Only(trace, "a"), lim).1 == [true] + [false]
      && |ReferenceRun(trace, lim).1| == |trace| && KeyDecisions(trace, ReferenceRun(trace, lim).1, "a") == [true] + [false]
  {
    var trace, lim := Marked(ts, {i, k}), Limits(w, 1);
    OneDecisionEach(trace, lim);
    TwoMarks(ts, ReferenceRun(trace, lim).1, i, k);
    ReferenceKeysApart(trace, lim, "a");
    SecondOfTwo(ts[i], ts[k], w);
  }

  lemma EagerUnlike(ts: seq<int>, w: int, i: nat, j: nat, k: nat)
    requires i < j < k < |ts| && ts[j] - ts[i] >= w && ts[k] - ts[i] < w
    ensures !EagerLikeHistory(ts, w) && !EagerKeysIndependent(ts, w)
  {
    var trace, lim := Marked(ts, {i, k}), Limits(w, 1);
    TwoDecisions(ts, w, i, j, k);
    SecondRefused(ts, w, i, k);
    assert ([true] + [true])[1] && !([true] + [false])[1];
    assert !KeysIndependent(trace, lim) && EagerRun(trace, lim).1 != ReferenceRun(trace, lim).1;
  }

  /** The middleware decides every one of them as the full history would, if and only if the clock is steady. */
  lemma EagerLikeHistoryIff(ts: seq<int>, w: int)
    ensures EagerLikeHistory(ts, w) <==> Steady(ts, w)
  {
    if Steady(ts, w) {
      forall trace, max | Times(trace) == ts ensures EagerRun(trace, Limits(w, max)).1 == ReferenceRun(trace, Limits(w, max)).1 {
        ForgettingNeverChangesADecision(trace, Limits(w, max));
      }
    } else {
      var i, j, k := NotSteady(ts, w);
      EagerUnlike(ts, w, i, j, k);
    }
  }

  lemma LazyUnlike(ts: seq<int>, w: int, i: nat, j: nat, k: nat)
    requires i < j < k < |ts| && ts[j] - ts[i] >= w && ts[k] - ts[i] < w
    ensures !LazyLikeHistory(ts, w)
  {
    var trace, lim := Marked(ts, {i, j, k}), Limits(w, Telling(ts[j], ts[k], w));
    OneDecisionEach(trace, lim);
    ThreeMarks(ts, LazyRun(trace, lim).1, i, j, k);
    LazyKeysApart(trace, lim, "a");
    ReferenceKeysApart(trace, lim, "a");
    ThirdComesBack(ts[i], ts[j], ts[k], w);
    assert ([true] + [true] + [true])[2] && !([true] + [true] + [false])[2];
  }

  /** So does the operation-log check. */
  lemma LazyLikeHistoryIff(ts: seq<int>, w: int)
    ensures LazyLikeHistory(ts, w) <==> Steady(ts, w)
  {
    if Steady(ts, w) {
      forall trace, max | Times(trace) == ts ensures LazyRun(trace, Limits(w, max)).1 == ReferenceRun(trace, Limits(w, max)).1 {
        ForgettingNeverChangesADecision(trace, Limits(w, max));
      }
    } else {
      var i, j, k := NotSteady(ts, w);
      LazyUnlike(ts, w, i, j, k);
    }
  }

  lemma EagerIndependent(trace: seq<Request>, lim: Limits)
    requires Steady(Times(trace), lim.windowMs)
    ensures KeysIndependent(trace, lim)
  {
    OneDecisionEach(trace, lim);
    forall key { OtherKeysNeverMatter(trace, lim, key); }
  }

  /** To the middleware other keys never matter, if and only if the clock is steady. */
  lemma EagerKeysIndependentIff(ts: seq<int>, w: int)
    ensures EagerKeysIndependent(ts, w) <==> Steady(ts, w)
  {
    if Steady(ts, w) {
      forall trace, max | Times(trace) == ts ensures KeysIndependent(trace, Limits(w, max)) {
        EagerIndependent(trace, Limits(w, max));
      }
    } else {
      var i, j, k := NotSteady(ts, w);
      EagerUnlike(ts, w, i, j, k);
    }
  }

  /** A key all of whose requests were admitted, with too many of them in one window. */
  lemma TooMany(trace: seq<Request>, ds: seq<bool>, lim: Limits, from: int)
    requires |ds| == |trace| && forall i :: 0 <= i < |KeyDecisions(trace, ds, "a")| ==> KeyDecisions(trace, ds, "a")[i]
    requires InWindow(Only(trace, "a"), "a", from, lim.windowMs) > lim.max
    ensures !Bounded(trace, ds, lim)
  {
    SameInWindow(trace, ds, "a", from, lim.windowMs);
    AllAdmitted(Only(trace, "a"), KeyDecisions(trace, ds, "a"));
  }

  lemma NotBounded(trace: seq<Request>, w: int, max: nat)
    ensures !Bounded(trace, EagerRun(trace, Limits(w, max)).1, Limits(w, max)) ==> !EagerBounded(Times(trace), w)
    ensures !Bounded(trace, LazyRun(trace, Limits(w, max)).1, Limits(w, max)) ==> !LazyBounded(Times(trace), w)
  {
  }

  lemma EagerTwoInWindow(ts: seq<int>, w: int, i: nat, j: nat, k: nat)
    requires i < j < k < |ts| && ts[j] - ts[i] >= w && ts[k] - ts[i] < w && ts[i] - ts[k] < w
    ensures !EagerBounded(ts, w)
  {
    var trace, lim := Marked(ts, {i, k}), Limits(w, 1);
    TwoDecisions(ts, w, i, j, k);
    TwoInWindow(ts[i], ts[k], w);
    NotBounded(trace, w, 1);
    TooMany(trace, EagerRun(trace, lim).1, lim, Least(ts[i], ts[k]));
  }

  lemma NotNeverNear(ts: seq<int>, w: int) returns (i: nat, j: nat, k: nat)
    requires !NeverNear(ts, w)
    ensures i < j < k < |ts| && ts[j] - ts[i] >= w && ts[k] - ts[i] < w && ts[i] - ts[k] < w
  {
    i, j, k :| 0 <= i < j < k < |ts| && ts[j] - ts[i] >= w && ts[k] - ts[i] < w && ts[i] - ts[k] < w;
  }

  lemma EagerIsBounded(trace: seq<Request>, lim: Limits)
    requires NeverNear(Times(trace), lim.windowMs)
    ensures Bounded(trace, EagerRun(trace, lim).1, lim)
  {
    OneDecisionEach(trace, lim);
    forall key, from { EagerBound(trace, lim, key, from); }
  }

  /** The middleware keeps its limit in every window of length windowMs, if and only if the clock is never near. */
  lemma EagerBoundedIff(ts: seq<int>, w: int)
    ensures EagerBounded(ts, w) <==> NeverNear(ts, w)
  {
    if NeverNear(ts, w) {
      forall trace, max | Times(trace) == ts ensures Bounded(trace, EagerRun(trace, Limits(w, max)).1, Limits(w, max)) {
        EagerIsBounded(trace, Limits(w, max));
      }
    } else {
      var i, j, k := NotNeverNear(ts, w);
      EagerTwoInWindow(ts, w, i, j, k);
    }
  }

  lemma FourDecisions(ts: seq<int>, w: int, a: nat, b: nat, j: nat, k: nat)
    requires a < b < j < k < |ts| && ts[j] - ts[a] >= w && ts[j] - ts[b] >= w
    ensures var trace, lim := Marked(ts, {a, b, j, k}), Limits(w, 2);
      && Only(trace, "a") == [A(ts[a])] + [A(ts[b])] + [A(ts[j])] + [A(ts[k])]
      && |LazyRun(trace, lim).1| == |trace|
      && KeyDecisions(trace, LazyRun(trace, lim).1, "a") == [true] + [true] + [true] + [true]
  {
    var trace, lim := Marked(ts, {a, b, j, k}), Limits(w, 2);
    OneDecisionEach(trace, lim);
    FourMarks(ts, LazyRun(trace, lim).1, a, b, j, k);
    LazyKeysApart(trace, lim, "a");
    LazyAdmitsAllFour(ts[a], ts[b], ts[j], ts[k], w);
  }

  lemma LazyThreeInWindow(ts: seq<int>, w: int, a: nat, b: nat, j: nat, k: nat)
    requires a < b < j < k < |ts| && ts[j] - ts[a] >= w && ts[j] - ts[b] >= w && OneWindow(ts[a], ts[b], ts[k], w)
    ensures !LazyBounded(ts, w)
  {
    var trace, lim := Marked(ts, {a, b, j, k}), Limits(w, 2);
    FourDecisions(ts, w, a, b, j, k);
    ThreeInWindow(ts[a], ts[b], ts[j], ts[k], w);
    NotBounded(trace, w, 2);
    TooMany(trace, LazyRun(trace, lim).1, lim, Least(Least(ts[a], ts[b]), ts[k]));
  }

  lemma NotNeverNearTwo(ts: seq<int>, w: int) returns (a: nat, b: nat, j: nat, k: nat)
    requires !NeverNearTwo(ts, w)
    ensures a < b < j < k < |ts| && ts[j] - ts[a] >= w && ts[j] - ts[b] >= w && OneWindow(ts[a], ts[b], ts[k], w)
  {
    a, b, j, k :| 0 <= a < b < j < k < |ts| && NearTwo(ts, w, a, b, j, k);
  }

  lemma LazyIsBounded(trace: seq<Request>, lim: Limits)
    requires NeverNearTwo(Times(trace), lim.windowMs)
    ensures Bounded(trace, LazyRun(trace, lim).1, lim)
  {
    OneDecisionEach(trace, lim);
    forall key, from { LazyBound(trace, lim, key, from); }
  }

  /** The operation-log check does, if and only if the clock is never near two. */
  lemma LazyBoundedIff(ts: seq<int>, w: int)
    ensures LazyBounded(ts, w) <==> NeverNearTwo(ts, w)
  {
    if NeverNearTwo(ts, w) {
      forall trace, max | Times(trace) == ts ensures Bounded(trace, LazyRun(trace, Limits(w, max)).1, Limits(w, max)) {
        LazyIsBounded(trace, Limits(w, max));
      }
    } else {
      var a, b, j, k := NotNeverNearTwo(ts, w);
      LazyThreeInWindow(ts, w, a, b, j, k);
    }
  }

  /** On a steady clock both limits hold, so on one that never goes back. */
  lemma SteadyIsNeverNear(ts: seq<int>, w: int)
    requires Steady(ts, w)
    ensures NeverNear(ts, w) && NeverNearTwo(ts, w)
  {
    forall a, b, j, k | 0 <= a < b < j < k < |ts| ensures !NearTwo(ts, w, a, b, j, k) {
      if ts[j] - ts[a] >= w { assert ts[k] - ts[a] >= w; }
    }
  }

  /**
   * What a clock that never goes back gives: no window of length windowMs, wherever it starts, holds more than `max` requests
   * of one key that the middleware admitted, nor that the operation-log check admitted.
   */
  lemma AtMostMaxPerWindow(trace: seq<Request>, lim: Limits)
    requires Clocked(Times(trace))
    ensures Bounded(trace, EagerRun(trace, lim).1, lim) && Bounded(trace, LazyRun(trace, lim).1, lim)
  {
    ClockedIsSteady(Times(trace), lim.windowMs);
    SteadyIsNeverNear(Times(trace), lim.windowMs);
    EagerIsBounded(trace, lim);
    LazyIsBounded(trace, lim);
  }
}
