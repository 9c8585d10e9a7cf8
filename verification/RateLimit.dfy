/**
 * In-process sliding-window limiter: the middleware that prunes every bucket on each request, the
 * operation-log check that prunes only the bucket it reads, and the platform cooldown.
 *
 * Both limiters forget expired timestamps.  They are compared with a reference that forgets nothing.
 */
module RateLimit {
  import opened Options

  datatype Request = Request(at: int, key: string)

  type Buckets = map<string, seq<int>>

  datatype Limits = Limits(windowMs: int, max: nat)

  function Get(b: Buckets, key: string): seq<int> { if key in b then b[key] else [] }

  /** `arr.filter(t => now - t < windowMs)` */
  function Prune(arr: seq<int>, now: int, w: int): seq<int> {
    if arr == [] then []
    else
      var t := arr[|arr| - 1];
      var kept := Prune(arr[..|arr| - 1], now, w);
      if now - t < w then kept + [t] else kept
  }

  function PruneAll(b: Buckets, now: int, w: int): Buckets {
    map k | k in b && Prune(b[k], now, w) != [] :: Prune(b[k], now, w)
  }

  // ---------------------------------------------------------------- one request

  /** The middleware: prune all, then admit if the bucket has room. */
  function Eager(b: Buckets, r: Request, lim: Limits): (Buckets, bool) {
    var b' := PruneAll(b, r.at, lim.windowMs);
    var arr := Get(b', r.key);
    if |arr| >= lim.max then (b', false) else (b'[r.key := arr + [r.at]], true)
  }

  /** `checkOperationLogWrite`: prune one bucket, store it back only when the request is admitted. */
  function Lazy(b: Buckets, r: Request, lim: Limits): (Buckets, bool) {
    var arr := Prune(Get(b, r.key), r.at, lim.windowMs);
    if |arr| >= lim.max then (b, false) else (b[r.key := arr + [r.at]], true)
  }

  /** Timestamps in the full log of admitted requests that still count against `key` at time `now`. */
  function Counted(log: seq<Request>, key: string, now: int, w: int): seq<int> {
    if log == [] then []
    else
      var r := log[|log| - 1];
      var earlier := Counted(log[..|log| - 1], key, now, w);
      if r.key == key && now - r.at < w then earlier + [r.at] else earlier
  }

  /** The reference limiter keeps the whole history of admitted requests. */
  function Reference(log: seq<Request>, r: Request, lim: Limits): (seq<Request>, bool) {
    if |Counted(log, r.key, r.at, lim.windowMs)| >= lim.max then (log, false) else (log + [r], true)
  }

  // ---------------------------------------------------------------- whole traces

  function Times(trace: seq<Request>): (ts: seq<int>)
    ensures |ts| == |trace|
  {
    seq(|trace|, i requires 0 <= i < |trace| => trace[i].at)
  }

  /** The clock never goes back. */
  ghost predicate Clocked(ts: seq<int>) { forall i, j :: 0 <= i <= j < |ts| ==> ts[i] <= ts[j] }

  /** What had left the window of some reading of the clock is outside the window of `now` as well. */
  ghost predicate Safe(ts: seq<int>, now: int, w: int) {
    forall i, j :: 0 <= i < j < |ts| && ts[j] - ts[i] >= w ==> now - ts[i] >= w
  }

  /** The clock never goes back so far that a time which had left the window is inside it again. */
  ghost predicate Steady(ts: seq<int>, w: int) {
    forall i, j, k :: 0 <= i < j < k < |ts| && ts[j] - ts[i] >= w ==> ts[k] - ts[i] >= w
  }

  lemma ClockedIsSteady(ts: seq<int>, w: int)
    requires Clocked(ts)
    ensures Steady(ts, w)
  {
  }

  lemma TimesAppend(trace: seq<Request>, r: Request)
    ensures Times(trace + [r]) == Times(trace) + [r.at]
  {
  }

  lemma SafeAppend(ts: seq<int>, t: int, now: int, w: int)
    ensures Safe(ts + [t], now, w) <==> Safe(ts, now, w) && forall x :: x in ts && t - x >= w ==> now - x >= w
  {
    var us := ts + [t];
    assert forall i :: 0 <= i < |ts| ==> us[i] == ts[i];
    if Safe(us, now, w) {
      forall x | x in ts && t - x >= w ensures now - x >= w {
        var i :| 0 <= i < |ts| && ts[i] == x;
        assert us[|ts|] - us[i] >= w;
      }
      assert forall i, j :: 0 <= i < j < |ts| && ts[j] - ts[i] >= w ==> us[j] - us[i] >= w;
    }
    if Safe(ts, now, w) && forall x :: x in ts && t - x >= w ==> now - x >= w {
      forall i, j | 0 <= i < j < |us| && us[j] - us[i] >= w ensures now - us[i] >= w { assert us[i] == ts[i] && ts[i] in ts; }
    }
  }

  lemma SteadyAppend(ts: seq<int>, t: int, w: int)
    ensures Steady(ts + [t], w) <==> Steady(ts, w) && Safe(ts, t, w)
  {
    var us := ts + [t];
    assert forall i :: 0 <= i < |ts| ==> us[i] == ts[i];
    if Steady(us, w) {
      forall i, j | 0 <= i < j < |ts| && ts[j] - ts[i] >= w ensures t - ts[i] >= w { assert us[|ts|] - us[i] >= w; }
      forall i, j, k | 0 <= i < j < k < |ts| && ts[j] - ts[i] >= w ensures ts[k] - ts[i] >= w {
        assert us[j] - us[i] >= w && us[k] == ts[k];
      }
    }
  }

  function EagerRun(trace: seq<Request>, lim: Limits): (Buckets, seq<bool>) {
    if trace == [] then (map[], [])
    else
      var before := EagerRun(trace[..|trace| - 1], lim);
      var (b, ok) := Eager(before.0, trace[|trace| - 1], lim);
      (b, before.1 + [ok])
  }

  function LazyRun(trace: seq<Request>, lim: Limits): (Buckets, seq<bool>) {
    if trace == [] then (map[], [])
    else
      var before := LazyRun(trace[..|trace| - 1], lim);
      var (b, ok) := Lazy(before.0, trace[|trace| - 1], lim);
      (b, before.1 + [ok])
  }

  function ReferenceRun(trace: seq<Request>, lim: Limits): (seq<Request>, seq<bool>) {
    if trace == [] then ([], [])
    else
      var before := ReferenceRun(trace[..|trace| - 1], lim);
      var (log, ok) := Reference(before.0, trace[|trace| - 1], lim);
      (log, before.1 + [ok])
  }

  // ---------------------------------------------------------------- forgetting expired timestamps is harmless

  /** Of these times, those outside the window of `t` are outside that of `now`. */
  ghost predicate GoneForGood(arr: seq<int>, t: int, now: int, w: int) {
    forall i :: 0 <= i < |arr| && t - arr[i] >= w ==> now - arr[i] >= w
  }

  lemma {:induction false} PruneTwice(arr: seq<int>, t: int, now: int, w: int)
    requires GoneForGood(arr, t, now, w)
    ensures Prune(Prune(arr, t, w), now, w) == Prune(arr, now, w)
  {
    if arr != [] {
      var x := arr[|arr| - 1];
      PruneTwice(arr[..|arr| - 1], t, now, w);
      var p := Prune(arr[..|arr| - 1], t, w);
      if t - x < w { assert (p + [x])[..|p|] == p; }
    }
  }

  lemma SafeIsGone(ts: seq<int>, t: int, now: int, w: int, arr: seq<int>)
    requires Safe(ts + [t], now, w) && forall x :: x in arr ==> x in ts
    ensures Safe(ts, now, w) && GoneForGood(arr, t, now, w)
  {
    SafeAppend(ts, t, now, w);
    forall i | 0 <= i < |arr| && t - arr[i] >= w ensures now - arr[i] >= w { assert arr[i] in ts; }
  }

  lemma {:induction false} PruneKeepsSome(arr: seq<int>, now: int, w: int, x: int)
    ensures x in Prune(arr, now, w) <==> x in arr && now - x < w
  {
    if arr != [] {
      PruneKeepsSome(arr[..|arr| - 1], now, w, x);
      assert x in arr <==> x in arr[..|arr| - 1] || x == arr[|arr| - 1];
    }
  }

  lemma PruneAppend(arr: seq<int>, x: int, now: int, w: int)
    ensures Prune(arr + [x], now, w) == if now - x < w then Prune(arr, now, w) + [x] else Prune(arr, now, w)
  {
    assert (arr + [x])[..|arr|] == arr;
  }

  lemma CountedAppend(log: seq<Request>, r: Request, key: string, now: int, w: int)
    ensures Counted(log + [r], key, now, w) ==
              if r.key == key && now - r.at < w then Counted(log, key, now, w) + [r.at] else Counted(log, key, now, w)
  {
    assert (log + [r])[..|log|] == log;
  }

  /** The buckets hold times of requests only. */
  ghost predicate Within(b: Buckets, ts: seq<int>) { forall k, x :: x in Get(b, k) ==> x in ts }

  /** At every time that is safe after the requests so far, the buckets hold what the full log would count. */
  ghost predicate Agrees(b: Buckets, log: seq<Request>, ts: seq<int>, w: int) {
    Within(b, ts) && forall k, t :: Safe(ts, t, w) ==> Prune(Get(b, k), t, w) == Counted(log, k, t, w)
  }

  /** One admission seen from one key: `pruned` is its bucket pruned at the admission time. */
  lemma AdmissionStep(arr: seq<int>, pruned: seq<int>, log: seq<Request>, k: string, r: Request, t: int, w: int)
    requires GoneForGood(arr, r.at, t, w)
    requires pruned == Prune(arr, r.at, w) && Prune(arr, t, w) == Counted(log, k, t, w)
    ensures Prune(pruned, t, w) == Counted(log, k, t, w)
    ensures k == r.key ==> Prune(pruned + [r.at], t, w) == Counted(log + [r], k, t, w)
    ensures k != r.key ==> Counted(log + [r], k, t, w) == Counted(log, k, t, w)
  {
    PruneTwice(arr, r.at, t, w);
    PruneAppend(pruned, r.at, t, w);
    CountedAppend(log, r, k, t, w);
  }

  lemma PruneAllGets(b: Buckets, k: string, now: int, w: int)
    ensures Get(PruneAll(b, now, w), k) == Prune(Get(b, k), now, w)
  {
  }

  /** Pruned buckets, and a new time in one of them, hold times of requests. */
  lemma StillWithin(b: Buckets, b': Buckets, ts: seq<int>, r: Request, w: int)
    requires Within(b, ts)
    requires forall k :: Get(b', k) in {Get(b, k), Prune(Get(b, k), r.at, w), Prune(Get(b, k), r.at, w) + [r.at]}
    ensures Within(b', ts + [r.at])
  {
    forall k, x | x in Get(b', k) ensures x in ts + [r.at] { PruneKeepsSome(Get(b, k), r.at, w, x); }
  }

  lemma EagerGets(b: Buckets, r: Request, lim: Limits, k: string)
    ensures var p, e := Prune(Get(b, k), r.at, lim.windowMs), Eager(b, r, lim);
      Get(e.0, k) == if k == r.key && e.1 then p + [r.at] else p
    ensures Eager(b, r, lim).1 <==> |Prune(Get(b, r.key), r.at, lim.windowMs)| < lim.max
  {
    PruneAllGets(b, k, r.at, lim.windowMs);
    PruneAllGets(b, r.key, r.at, lim.windowMs);
  }

  lemma EagerStep(b: Buckets, log: seq<Request>, ts: seq<int>, r: Request, lim: Limits)
    requires Agrees(b, log, ts, lim.windowMs) && Safe(ts, r.at, lim.windowMs)
    ensures Agrees(Eager(b, r, lim).0, Reference(log, r, lim).0, ts + [r.at], lim.windowMs)
    ensures Eager(b, r, lim).1 == Reference(log, r, lim).1
  {
    var w, b' := lim.windowMs, Eager(b, r, lim).0;
    forall k ensures Get(b', k) in {Prune(Get(b, k), r.at, w), Prune(Get(b, k), r.at, w) + [r.at]} { EagerGets(b, r, lim, k); }
    StillWithin(b, b', ts, r, w);
    EagerGets(b, r, lim, r.key);
    assert Prune(Get(b, r.key), r.at, w) == Counted(log, r.key, r.at, w);
    forall k, t | Safe(ts + [r.at], t, w) ensures Prune(Get(b', k), t, w) == Counted(Reference(log, r, lim).0, k, t, w) {
      SafeIsGone(ts, r.at, t, w, Get(b, k));
      assert Prune(Get(b, k), t, w) == Counted(log, k, t, w);
      EagerGets(b, r, lim, k);
      AdmissionStep(Get(b, k), Prune(Get(b, k), r.at, w), log, k, r, t, w);
    }
  }

  lemma LazyStep(b: Buckets, log: seq<Request>, ts: seq<int>, r: Request, lim: Limits)
    requires Agrees(b, log, ts, lim.windowMs) && Safe(ts, r.at, lim.windowMs)
    ensures Agrees(Lazy(b, r, lim).0, Reference(log, r, lim).0, ts + [r.at], lim.windowMs)
    ensures Lazy(b, r, lim).1 == Reference(log, r, lim).1
  {
    var w, b' := lim.windowMs, Lazy(b, r, lim).0;
    StillWithin(b, b', ts, r, w);
    assert Prune(Get(b, r.key), r.at, w) == Counted(log, r.key, r.at, w);
    forall k, t | Safe(ts + [r.at], t, w) ensures Prune(Get(b', k), t, w) == Counted(Reference(log, r, lim).0, k, t, w) {
      SafeIsGone(ts, r.at, t, w, Get(b, k));
      assert Prune(Get(b, k), t, w) == Counted(log, k, t, w);
      AdmissionStep(Get(b, k), Prune(Get(b, k), r.at, w), log, k, r, t, w);
    }
  }

  lemma {:induction false} RunsAgree(trace: seq<Request>, lim: Limits)
    requires Steady(Times(trace), lim.windowMs)
    ensures EagerRun(trace, lim).1 == ReferenceRun(trace, lim).1 == LazyRun(trace, lim).1
    ensures Agrees(EagerRun(trace, lim).0, ReferenceRun(trace, lim).0, Times(trace), lim.windowMs)
    ensures Agrees(LazyRun(trace, lim).0, ReferenceRun(trace, lim).0, Times(trace), lim.windowMs)
  {
    if trace != [] {
      var init, r := trace[..|trace| - 1], trace[|trace| - 1];
      assert trace == init + [r];
      TimesAppend(init, r);
      SteadyAppend(Times(init), r.at, lim.windowMs);
      RunsAgree(init, lim);
      EagerStep(EagerRun(init, lim).0, ReferenceRun(init, lim).0, Times(init), r, lim);
      LazyStep(LazyRun(init, lim).0, ReferenceRun(init, lim).0, Times(init), r, lim);
    }
  }

  /**
   * On a steady clock, in particular on one that never goes back, the prune-all middleware and the lazy per-key check decide
   * every request of every trace alike, and as a limiter that keeps the whole history would.
   */
  lemma ForgettingNeverChangesADecision(trace: seq<Request>, lim: Limits)
    requires Steady(Times(trace), lim.windowMs)
    ensures EagerRun(trace, lim).1 == ReferenceRun(trace, lim).1
    ensures LazyRun(trace, lim).1 == ReferenceRun(trace, lim).1
  {
    RunsAgree(trace, lim);
  }

  lemma OneMoreRequest(trace: seq<Request>, r: Request, lim: Limits)
    ensures var e := Eager(EagerRun(trace, lim).0, r, lim);
            EagerRun(trace + [r], lim) == (e.0, EagerRun(trace, lim).1 + [e.1])
    ensures var l := Lazy(LazyRun(trace, lim).0, r, lim);
            LazyRun(trace + [r], lim) == (l.0, LazyRun(trace, lim).1 + [l.1])
  {
    assert (trace + [r])[..|trace|] == trace;
  }

  lemma OneMoreReference(trace: seq<Request>, r: Request, lim: Limits)
    ensures var e := Reference(ReferenceRun(trace, lim).0, r, lim);
            ReferenceRun(trace + [r], lim) == (e.0, ReferenceRun(trace, lim).1 + [e.1])
  {
    assert (trace + [r])[..|trace|] == trace;
  }

  // ---------------------------------------------------------------- the bound

  /** Admitted requests for `key` with a timestamp in [from, from + w). */
  function InWindow(log: seq<Request>, key: string, from: int, w: int): nat {
    if log == [] then 0
    else
      var r := log[|log| - 1];
      InWindow(log[..|log| - 1], key, from, w) + (if r.key == key && from <= r.at < from + w then 1 else 0)
  }

  /** Times in [from, from + w). */
  function CountIn(arr: seq<int>, from: int, w: int): nat {
    if arr == [] then 0
    else
      var x := arr[|arr| - 1];
      CountIn(arr[..|arr| - 1], from, w) + (if from <= x < from + w then 1 else 0)
  }

  lemma {:induction false} CountIsSmall(arr: seq<int>, from: int, w: int)
    ensures CountIn(arr, from, w) <= |arr|
  {
    if arr != [] { CountIsSmall(arr[..|arr| - 1], from, w); }
  }

  lemma CountAppend(arr: seq<int>, x: int, from: int, w: int)
    ensures CountIn(arr + [x], from, w) == CountIn(arr, from, w) + (if from <= x < from + w then 1 else 0)
  {
    assert (arr + [x])[..|arr|] == arr;
  }

  lemma InWindowAppend(log: seq<Request>, r: Request, key: string, from: int, w: int)
    ensures InWindow(log + [r], key, from, w)
      == InWindow(log, key, from, w) + (if r.key == key && from <= r.at < from + w then 1 else 0)
  {
    assert (log + [r])[..|log|] == log;
  }

  /** Nothing in the window [from, from + w) is outside the one that ends with `now`. */
  ghost predicate WindowStays(arr: seq<int>, now: int, from: int, w: int) {
    forall i :: 0 <= i < |arr| && from <= arr[i] < from + w ==> now - arr[i] < w
  }

  lemma {:induction false} PruneLeavesWindow(arr: seq<int>, now: int, from: int, w: int)
    requires WindowStays(arr, now, from, w)
    ensures CountIn(Prune(arr, now, w), from, w) == CountIn(arr, from, w)
  {
    if arr != [] {
      var init, x := arr[..|arr| - 1], arr[|arr| - 1];
      PruneLeavesWindow(init, now, from, w);
      CountAppend(Prune(init, now, w), x, from, w);
    }
  }

  /** The requests of the trace that were decided true. */
  function Admitted(trace: seq<Request>, decisions: seq<bool>): seq<Request>
    requires |decisions| == |trace|
  {
    if trace == [] then []
    else
      var n := |trace| - 1;
      var earlier := Admitted(trace[..n], decisions[..n]);
      if decisions[n] then earlier + [trace[n]] else earlier
  }

  lemma {:induction false} OneDecisionEach(trace: seq<Request>, lim: Limits)
    ensures |EagerRun(trace, lim).1| == |LazyRun(trace, lim).1| == |ReferenceRun(trace, lim).1| == |trace|
  {
    if trace != [] { OneDecisionEach(trace[..|trace| - 1], lim); }
  }

  lemma AdmittedAppend(trace: seq<Request>, decisions: seq<bool>, r: Request, ok: bool)
    requires |decisions| == |trace|
    ensures Admitted(trace + [r], decisions + [ok]) == if ok then Admitted(trace, decisions) + [r] else Admitted(trace, decisions)
  {
    assert (trace + [r])[..|trace|] == trace && (decisions + [ok])[..|trace|] == decisions;
  }

  /** The clock never goes back to less than a window after a time that had left the window (nor to just before it). */
  ghost predicate NeverNear(ts: seq<int>, w: int) {
    forall i, j, k :: 0 <= i < j < k < |ts| && ts[j] - ts[i] >= w ==> ts[k] - ts[i] >= w || ts[i] - ts[k] >= w
  }

  /** The same at `now`. */
  ghost predicate Apart(ts: seq<int>, now: int, w: int) {
    forall i, j :: 0 <= i < j < |ts| && ts[j] - ts[i] >= w ==> now - ts[i] >= w || ts[i] - now >= w
  }

  lemma ApartAppend(ts: seq<int>, t: int, now: int, w: int)
    requires Apart(ts + [t], now, w)
    ensures Apart(ts, now, w) && forall x :: x in ts && t - x >= w ==> now - x >= w || x - now >= w
  {
    var us := ts + [t];
    assert forall i :: 0 <= i < |ts| ==> us[i] == ts[i];
    forall x | x in ts && t - x >= w ensures now - x >= w || x - now >= w {
      var i :| 0 <= i < |ts| && ts[i] == x;
      assert us[|ts|] - us[i] >= w;
    }
    assert forall i, j :: 0 <= i < j < |ts| && ts[j] - ts[i] >= w ==> us[j] - us[i] >= w;
  }

  lemma ApartStays(ts: seq<int>, t: int, now: int, from: int, w: int, arr: seq<int>)
    requires Apart(ts + [t], now, w) && from <= now < from + w && forall x :: x in arr ==> x in ts
    ensures WindowStays(arr, t, from, w)
  {
    ApartAppend(ts, t, now, w);
    forall i | 0 <= i < |arr| && from <= arr[i] < from + w ensures t - arr[i] < w { assert arr[i] in ts; }
  }

  lemma NeverNearAppend(ts: seq<int>, t: int, w: int)
    requires NeverNear(ts + [t], w)
    ensures NeverNear(ts, w) && Apart(ts, t, w)
  {
    var us := ts + [t];
    assert forall i :: 0 <= i < |ts| ==> us[i] == ts[i];
    forall i, j | 0 <= i < j < |ts| && ts[j] - ts[i] >= w ensures t - ts[i] >= w || ts[i] - t >= w {
      assert us[j] - us[i] >= w && us[|ts|] == t;
    }
    forall i, j, k | 0 <= i < j < k < |ts| && ts[j] - ts[i] >= w ensures ts[k] - ts[i] >= w || ts[i] - ts[k] >= w {
      assert us[j] - us[i] >= w && us[k] == ts[k];
    }
  }

  lemma {:induction false} BucketsHoldTimes(trace: seq<Request>, lim: Limits)
    ensures Within(EagerRun(trace, lim).0, Times(trace))
  {
    if trace != [] {
      var init, r := trace[..|trace| - 1], trace[|trace| - 1];
      assert trace == init + [r];
      TimesAppend(init, r);
      BucketsHoldTimes(init, lim);
      EagerWithin(EagerRun(init, lim).0, Times(init), r, lim);
    }
  }

  lemma EagerWithin(b: Buckets, ts: seq<int>, r: Request, lim: Limits)
    requires Within(b, ts)
    ensures Within(Eager(b, r, lim).0, ts + [r.at])
  {
    var w, b' := lim.windowMs, Eager(b, r, lim).0;
    forall k ensures Get(b', k) in {Prune(Get(b, k), r.at, w), Prune(Get(b, k), r.at, w) + [r.at]} { EagerGets(b, r, lim, k); }
    StillWithin(b, b', ts, r, w);
  }

  /** One request, seen in one window: what the bucket of a key holds of it grows by the request itself, if it is admitted. */
  lemma EagerCounts(b: Buckets, r: Request, lim: Limits, key: string, from: int)
    requires WindowStays(Get(b, key), r.at, from, lim.windowMs)
    ensures CountIn(Get(Eager(b, r, lim).0, key), from, lim.windowMs) == CountIn(Get(b, key), from, lim.windowMs)
      + (if Eager(b, r, lim).1 && r.key == key && from <= r.at < from + lim.windowMs then 1 else 0)
    ensures Eager(b, r, lim).1 && r.key == key ==> CountIn(Get(b, key), from, lim.windowMs) < lim.max
  {
    var w := lim.windowMs;
    EagerGets(b, r, lim, key);
    PruneLeavesWindow(Get(b, key), r.at, from, w);
    CountAppend(Prune(Get(b, key), r.at, w), r.at, from, w);
    CountIsSmall(Prune(Get(b, key), r.at, w), from, w);
  }

  /** One more admitted request, seen in one window. */
  lemma AdmittedCounts(init: seq<Request>, decisions: seq<bool>, r: Request, ok: bool, key: string, from: int, w: int)
    requires |decisions| == |init|
    ensures InWindow(Admitted(init + [r], decisions + [ok]), key, from, w) == InWindow(Admitted(init, decisions), key, from, w)
      + (if ok && r.key == key && from <= r.at < from + w then 1 else 0)
  {
    AdmittedAppend(init, decisions, r, ok);
    InWindowAppend(Admitted(init, decisions), r, key, from, w);
  }

  /** Of a window that `now` lies in, the bucket has forgotten nothing that was admitted. */
  lemma {:induction false} WindowIsKept(trace: seq<Request>, lim: Limits, key: string, from: int, now: int)
    requires Apart(Times(trace), now, lim.windowMs) && from <= now < from + lim.windowMs
    ensures |EagerRun(trace, lim).1| == |trace|
    ensures CountIn(Get(EagerRun(trace, lim).0, key), from, lim.windowMs)
      == InWindow(Admitted(trace, EagerRun(trace, lim).1), key, from, lim.windowMs)
  {
    OneDecisionEach(trace, lim);
    if trace != [] {
      var init, r, w := trace[..|trace| - 1], trace[|trace| - 1], lim.windowMs;
      assert trace == init + [r];
      TimesAppend(init, r);
      OneDecisionEach(init, lim);
      ApartAppend(Times(init), r.at, now, w);
      WindowIsKept(init, lim, key, from, now);
      BucketsHoldTimes(init, lim);
      var b := EagerRun(init, lim).0;
      ApartStays(Times(init), r.at, now, from, w, Get(b, key));
      EagerCounts(b, r, lim, key, from);
      OneMoreRequest(init, r, lim);
      AdmittedCounts(init, EagerRun(init, lim).1, r, Eager(b, r, lim).1, key, from, w);
    }
  }

  /** On such a clock no window of length windowMs, wherever it starts, holds more than `max` admitted requests of one key. */
  lemma {:induction false} EagerBound(trace: seq<Request>, lim: Limits, key: string, from: int)
    requires NeverNear(Times(trace), lim.windowMs)
    ensures |EagerRun(trace, lim).1| == |trace|
    ensures InWindow(Admitted(trace, EagerRun(trace, lim).1), key, from, lim.windowMs) <= lim.max
  {
    OneDecisionEach(trace, lim);
    if trace != [] {
      var init, r, w := trace[..|trace| - 1], trace[|trace| - 1], lim.windowMs;
      assert trace == init + [r];
      TimesAppend(init, r);
      OneDecisionEach(init, lim);
      NeverNearAppend(Times(init), r.at, w);
      EagerBound(init, lim, key, from);
      var b := EagerRun(init, lim).0;
      OneMoreRequest(init, r, lim);
      AdmittedCounts(init, EagerRun(init, lim).1, r, Eager(b, r, lim).1, key, from, w);
      if from <= r.at < from + w {
        WindowIsKept(init, lim, key, from, r.at);
        EagerCounts(b, r, lim, key, from);
      }
    }
  }

  // ---------------------------------------------------------------- keys do not interfere

  function Only(trace: seq<Request>, key: string): seq<Request> {
    if trace == [] then []
    else
      var r := trace[|trace| - 1];
      var earlier := Only(trace[..|trace| - 1], key);
      if r.key == key then earlier + [r] else earlier
  }

  lemma OnlyAppend(trace: seq<Request>, r: Request, key: string)
    ensures Only(trace + [r], key) == if r.key == key then Only(trace, key) + [r] else Only(trace, key)
  {
    assert (trace + [r])[..|trace|] == trace;
  }

  lemma {:induction false} CountedOnly(log: seq<Request>, key: string, now: int, w: int)
    ensures Counted(Only(log, key), key, now, w) == Counted(log, key, now, w)
  {
    if log != [] {
      var init := log[..|log| - 1];
      CountedOnly(init, key, now, w);
      if log[|log| - 1].key == key { CountedAppend(Only(init, key), log[|log| - 1], key, now, w); }
    }
  }

  /** The decisions on one key's requests, in their order. */
  function KeyDecisions(trace: seq<Request>, decisions: seq<bool>, key: string): seq<bool>
    requires |decisions| == |trace|
  {
    if trace == [] then []
    else
      var n := |trace| - 1;
      var earlier := KeyDecisions(trace[..n], decisions[..n], key);
      if trace[n].key == key then earlier + [decisions[n]] else earlier
  }

  lemma {:induction false} ReferenceKeysApart(trace: seq<Request>, lim: Limits, key: string)
    ensures |ReferenceRun(trace, lim).1| == |trace|
    ensures Only(ReferenceRun(trace, lim).0, key) == ReferenceRun(Only(trace, key), lim).0
    ensures KeyDecisions(trace, ReferenceRun(trace, lim).1, key) == ReferenceRun(Only(trace, key), lim).1
  {
    OneDecisionEach(trace, lim);
    if trace != [] {
      var init, r := trace[..|trace| - 1], trace[|trace| - 1];
      var log := ReferenceRun(init, lim).0;
      ReferenceKeysApart(init, lim, key);
      assert ReferenceRun(trace, lim).1[..|init|] == ReferenceRun(init, lim).1;
      OnlyAppend(log, r, key);
      if r.key == key {
        CountedOnly(log, key, r.at, lim.windowMs);
        assert (Only(init, key) + [r])[..|Only(init, key)|] == Only(init, key);
      }
    }
  }

  lemma {:induction false} SafeOfOnly(trace: seq<Request>, key: string, now: int, w: int)
    requires Safe(Times(trace), now, w)
    ensures Safe(Times(Only(trace, key)), now, w) && forall x :: x in Times(Only(trace, key)) ==> x in Times(trace)
  {
    if trace != [] {
      var init, r := trace[..|trace| - 1], trace[|trace| - 1];
      assert trace == init + [r];
      TimesAppend(init, r);
      SafeAppend(Times(init), r.at, now, w);
      SafeOfOnly(init, key, now, w);
      if r.key == key {
        TimesAppend(Only(init, key), r);
        SafeAppend(Times(Only(init, key)), r.at, now, w);
      }
    }
  }

  lemma {:induction false} SteadyOfOnly(trace: seq<Request>, key: string, w: int)
    requires Steady(Times(trace), w)
    ensures Steady(Times(Only(trace, key)), w)
  {
    if trace != [] {
      var init, r := trace[..|trace| - 1], trace[|trace| - 1];
      assert trace == init + [r];
      TimesAppend(init, r);
      SteadyAppend(Times(init), r.at, w);
      SteadyOfOnly(init, key, w);
      if r.key == key {
        SafeOfOnly(init, key, r.at, w);
        TimesAppend(Only(init, key), r);
        SteadyAppend(Times(Only(init, key)), r.at, w);
      }
    }
  }

  /** The operation-log check looks at one bucket, so what it decides on a key needs nothing of the clock. */
  lemma {:induction false} LazyKeysApart(trace: seq<Request>, lim: Limits, key: string)
    ensures |LazyRun(trace, lim).1| == |trace|
    ensures Get(LazyRun(trace, lim).0, key) == Get(LazyRun(Only(trace, key), lim).0, key)
    ensures KeyDecisions(trace, LazyRun(trace, lim).1, key) == LazyRun(Only(trace, key), lim).1
  {
    OneDecisionEach(trace, lim);
    if trace != [] {
      var init, r := trace[..|trace| - 1], trace[|trace| - 1];
      LazyKeysApart(init, lim, key);
      assert LazyRun(trace, lim).1[..|init|] == LazyRun(init, lim).1;
      if r.key == key { OneMoreRequest(Only(init, key), r, lim); }
    }
  }

  /**
   * What is decided on a key's requests is what would be decided on them had no other key sent anything: by the middleware on
   * a steady clock, by the operation-log check on any.
   */
  lemma OtherKeysNeverMatter(trace: seq<Request>, lim: Limits, key: string)
    ensures |EagerRun(trace, lim).1| == |LazyRun(trace, lim).1| == |trace|
    ensures Steady(Times(trace), lim.windowMs) ==>
      KeyDecisions(trace, EagerRun(trace, lim).1, key) == EagerRun(Only(trace, key), lim).1
    ensures KeyDecisions(trace, LazyRun(trace, lim).1, key) == LazyRun(Only(trace, key), lim).1
  {
    OneDecisionEach(trace, lim);
    LazyKeysApart(trace, lim, key);
    if Steady(Times(trace), lim.windowMs) {
      SteadyOfOnly(trace, key, lim.windowMs);
      ForgettingNeverChangesADecision(trace, lim);
      ForgettingNeverChangesADecision(Only(trace, key), lim);
      ReferenceKeysApart(trace, lim, key);
    }
  }

  // ---------------------------------------------------------------- the stateful limiters

  class RateLimiter {
    const lim: Limits
    var buckets: Buckets

    /** An option that is missing or 0 takes its default; then the window is at least a second and the limit at least 1. */
    constructor (windowMs: Option<int>, max: Option<int>)
      ensures windowMs in {None, Some(0)} ==> lim.windowMs == 60_000
      ensures windowMs !in {None, Some(0)} ==> lim.windowMs == if windowMs.value < 1000 then 1000 else windowMs.value
      ensures max in {None, Some(0)} ==> lim.max == 10
      ensures max !in {None, Some(0)} ==> lim.max == if max.value < 1 then 1 else max.value
      ensures buckets == map[]
    {
      var w := if windowMs.Some? && windowMs.value != 0 then windowMs.value else 60_000;
      var m := if max.Some? && max.value != 0 then max.value else 10;
      lim := Limits(if w < 1000 then 1000 else w, if m < 1 then 1 else m);
      buckets := map[];
    }

    method PruneBuckets(now: int)
      modifies this
      ensures buckets == PruneAll(old(buckets), now, lim.windowMs)
    {
      var todo := buckets.Keys;
      ghost var before := buckets;
      while todo != {}
        invariant todo <= before.Keys
        invariant forall k :: k in todo ==> k in buckets && buckets[k] == before[k]
        invariant forall k :: k !in todo ==>
                    (k in buckets <==> k in PruneAll(before, now, lim.windowMs))
                    && (k in buckets ==> buckets[k] == PruneAll(before, now, lim.windowMs)[k])
        decreases todo
      {
        var k :| k in todo;
        var kept := Prune(buckets[k], now, lim.windowMs);
        if kept == [] { buckets := buckets - {k}; } else { buckets := buckets[k := kept]; }
        todo := todo - {k};
      }
    }

    method RateLimitMiddleware(now: int, key: string) returns (admitted: bool)
      modifies this
      ensures (buckets, admitted) == Eager(old(buckets), Request(now, key), lim)
    {
      PruneBuckets(now);
      var arr := if key in buckets then buckets[key] else [];
      if |arr| >= lim.max { return false; }
      buckets := buckets[key := arr + [now]];
      return true;
    }
  }

  class OperationLogLimiter {
    const lim: Limits
    var buckets: Buckets

    constructor (max: nat)
      ensures lim == Limits(60_000, max) && buckets == map[]
    {
      lim := Limits(60_000, max);
      buckets := map[];
    }

    method CheckOperationLogWrite(now: int, key: string) returns (admitted: bool)
      modifies this
      ensures (buckets, admitted) == Lazy(old(buckets), Request(now, key), lim)
    {
      var arr := Prune(if key in buckets then buckets[key] else [], now, lim.windowMs);
      if |arr| >= lim.max { return false; }
      buckets := buckets[key := arr + [now]];
      return true;
    }
  }

  // ---------------------------------------------------------------- platform cooldown

  const PLATFORM_OP_WINDOW_MS: int := 300_000

  /** Times at which a platform operation is allowed, given the last allowed time. */
  function AllowedTimes(last: int, calls: seq<int>): seq<int>
    decreases |calls|
  {
    if calls == [] then []
    else if calls[0] - last < PLATFORM_OP_WINDOW_MS then AllowedTimes(last, calls[1..])
    else [calls[0]] + AllowedTimes(calls[0], calls[1..])
  }

  /** Two allowed platform operations are never closer than the window. */
  lemma {:induction false} AllowedTimesAreSpaced(last: int, calls: seq<int>, i: nat, j: nat)
    requires i < j < |AllowedTimes(last, calls)|
    ensures AllowedTimes(last, calls)[0] - last >= PLATFORM_OP_WINDOW_MS
    ensures AllowedTimes(last, calls)[j] - AllowedTimes(last, calls)[i] >= PLATFORM_OP_WINDOW_MS
    decreases |calls|, j
  {
    if calls[0] - last < PLATFORM_OP_WINDOW_MS {
      AllowedTimesAreSpaced(last, calls[1..], i, j);
    } else {
      var rest := AllowedTimes(calls[0], calls[1..]);
      if i > 0 {
        AllowedTimesAreSpaced(calls[0], calls[1..], i - 1, j - 1);
      } else {
        FirstAllowed(calls[0], calls[1..]);
        if j > 1 { AllowedTimesAreSpaced(calls[0], calls[1..], 0, j - 1); }
      }
    }
  }

  /** The last time allowed before: that of an earlier call, or the one remembered from before. */
  function LastAllowed(last: int, calls: seq<int>): int {
    var allowed := AllowedTimes(last, calls);
    if allowed == [] then last else allowed[|allowed| - 1]
  }

  /** Which calls are allowed: each exactly when it comes at least the window after the last one allowed before it. */
  lemma {:induction false} AllowedIff(last: int, calls: seq<int>, now: int)
    ensures AllowedTimes(last, calls + [now])
      == AllowedTimes(last, calls) + (if now - LastAllowed(last, calls) >= PLATFORM_OP_WINDOW_MS then [now] else [])
    decreases |calls|
  {
    var all := calls + [now];
    if calls == [] {
      assert all[1..] == [] && AllowedTimes(now, []) == [];
    } else {
      assert all[0] == calls[0] && all[1..] == calls[1..] + [now];
      if calls[0] - last < PLATFORM_OP_WINDOW_MS { AllowedIff(last, calls[1..], now); } else { AllowedIff(calls[0], calls[1..], now); }
    }
  }

  lemma {:induction false} FirstAllowed(last: int, calls: seq<int>)
    requires AllowedTimes(last, calls) != []
    ensures AllowedTimes(last, calls)[0] - last >= PLATFORM_OP_WINDOW_MS
    decreases |calls|
  {
    if calls[0] - last < PLATFORM_OP_WINDOW_MS { FirstAllowed(last, calls[1..]); }
  }

  class PlatformCooldown {
    var lastAt: int

    constructor ()
      ensures lastAt == 0
    {
      lastAt := 0;
    }

    method AssertPlatformOpAllowed(now: int) returns (allowed: bool)
      modifies this
      ensures allowed <==> now - old(lastAt) >= PLATFORM_OP_WINDOW_MS
      ensures AllowedTimes(old(lastAt), [now]) == if allowed then [now] else []
      ensures lastAt == if allowed then now else old(lastAt)
    {
      assert [now][1..] == [];
      if now - lastAt < PLATFORM_OP_WINDOW_MS { return false; }
      lastAt := now;
      return true;
    }
  }
}
