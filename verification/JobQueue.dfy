/**
 * The fixed worker pool of the snapshot warm-up scheduler and of the precompute round.
 *
 * A run is a sequence of atomic steps: a worker claims the next index of the shared counter, or the
 * handler a worker is waiting for settles.  Which worker moves next and how each handler ends are
 * chosen by the environment, so a statement about every run is a statement about every interleaving
 * and every pattern of handler failures.
 */
module JobQueue {
  import opened MinMax

  /** How one handler call ended; `Threw` is a rejected or throwing handler. */
  datatype Outcome = Written | Skipped | Failed | Threw

  datatype Worker = Ready | Busy(index: nat) | Returned

  datatype Pool = Pool(
    total: nat,
    claimIndex: nat,
    workers: seq<Worker>,
    started: seq<nat>,                 // handler calls, in call order
    finished: seq<(nat, Outcome)>)     // handler completions, in completion order
  {
    function Handled(): nat { |finished| }
  }

  datatype Event = Claim(worker: nat) | Settle(worker: nat, outcome: Outcome)

  function WorkerCount(total: nat, concurrency: int): nat { Min(Max(1, concurrency), total) }

  function Init(total: nat, concurrency: int): Pool {
    Pool(total, 0, seq(WorkerCount(total, concurrency), _ => Ready), [], [])
  }

  predicate Enabled(p: Pool, e: Event) {
    && e.worker < |p.workers|
    && match e
       case Claim(w) => p.workers[w].Ready?
       case Settle(w, _) => p.workers[w].Busy?
  }

  function Apply(p: Pool, e: Event): Pool
    requires Enabled(p, e)
  {
    match e
    case Claim(w) =>
      var i := p.claimIndex;
      var q := p.(claimIndex := i + 1);
      if i >= p.total then q.(workers := p.workers[w := Returned])
      else q.(workers := p.workers[w := Busy(i)], started := p.started + [i])
    case Settle(w, outcome) =>
      p.(workers := p.workers[w := Ready], finished := p.finished + [(p.workers[w].index, outcome)])
  }

  ghost predicate Run(p: Pool, events: seq<Event>, q: Pool)
    decreases |events|
  {
    if events == [] then p == q
    else Enabled(p, events[0]) && Run(Apply(p, events[0]), events[1..], q)
  }

  /** No step is possible: every `drainWorker` has returned and `Promise.all` resolves. */
  ghost predicate Resolved(p: Pool) { forall e :: !Enabled(p, e) }

  // ---------------------------------------------------------------- what is counted

  function Upto(n: nat): (s: seq<nat>) { seq(n, i => i) }

  function Running(w: Worker): multiset<nat> { if w.Busy? then multiset{w.index} else multiset{} }

  function InFlight(ws: seq<Worker>): multiset<nat> {
    if ws == [] then multiset{} else Running(ws[0]) + InFlight(ws[1..])
  }

  function ReturnedCount(ws: seq<Worker>): nat {
    if ws == [] then 0 else (if ws[0].Returned? then 1 else 0) + ReturnedCount(ws[1..])
  }

  function Indices(finished: seq<(nat, Outcome)>): (s: seq<nat>)
    ensures |s| == |finished|
  {
    seq(|finished|, i requires 0 <= i < |finished| => finished[i].0)
  }

  /** Steps a pool still has to take: two per unclaimed job, one per running handler, one per live worker. */
  function Remaining(p: Pool): int {
    2 * (p.total - |p.started|) + |InFlight(p.workers)| + |p.workers| - ReturnedCount(p.workers)
  }

  ghost predicate Inv(p: Pool) {
    && |p.started| == Min(p.claimIndex, p.total)
    && p.started == Upto(|p.started|)
    && multiset(Indices(p.finished)) + InFlight(p.workers) == multiset(p.started)
    && p.claimIndex == |p.started| + ReturnedCount(p.workers)
    && (p.total > 0 ==> |p.workers| > 0)
  }

  // ---------------------------------------------------------------- counting lemmas

  lemma MultisetPrepend(r: multiset<nat>, a: multiset<nat>, x: multiset<nat>, b: multiset<nat>, y: multiset<nat>)
    requires a + x == b + y
    ensures (r + a) + x == (r + b) + y
  {
    assert (r + a) + x == r + (a + x);
    assert (r + b) + y == r + (b + y);
  }

  lemma MultisetSwap(a: multiset<nat>, rest: multiset<nat>, x: multiset<nat>)
    ensures (x + rest) + a == (a + rest) + x
  {
  }

  lemma InFlightFirst(ws: seq<Worker>)
    requires ws != []
    ensures InFlight(ws) == Running(ws[0]) + InFlight(ws[1..])
  {
  }

  lemma {:induction false} InFlightUpdate(ws: seq<Worker>, w: nat, x: Worker)
    requires w < |ws|
    ensures InFlight(ws[w := x]) + Running(ws[w]) == InFlight(ws) + Running(x)
    decreases w
  {
    var us := ws[w := x];
    InFlightFirst(us);
    InFlightFirst(ws);
    if w == 0 {
      assert us[1..] == ws[1..];
      MultisetSwap(Running(ws[0]), InFlight(ws[1..]), Running(x));
    } else {
      InFlightUpdate(ws[1..], w - 1, x);
      assert us[1..] == ws[1..][w - 1 := x];
      MultisetPrepend(Running(ws[0]), InFlight(us[1..]), Running(ws[w]), InFlight(ws[1..]), Running(x));
    }
  }

  lemma {:induction false} ReturnedUpdate(ws: seq<Worker>, w: nat, x: Worker)
    requires w < |ws|
    ensures ReturnedCount(ws[w := x]) + (if ws[w].Returned? then 1 else 0)
         == ReturnedCount(ws) + (if x.Returned? then 1 else 0)
  {
    var us := ws[w := x];
    if w == 0 {
      assert us[1..] == ws[1..];
    } else {
      ReturnedUpdate(ws[1..], w - 1, x);
      assert us[1..] == ws[1..][w - 1 := x];
    }
  }

  lemma {:induction false} CountBounds(ws: seq<Worker>)
    ensures |InFlight(ws)| + ReturnedCount(ws) <= |ws|
    ensures (forall w :: 0 <= w < |ws| ==> ws[w].Returned?) ==> InFlight(ws) == multiset{} && ReturnedCount(ws) == |ws|
    ensures (forall w :: 0 <= w < |ws| ==> ws[w].Ready?) ==> InFlight(ws) == multiset{} && ReturnedCount(ws) == 0
  {
    if ws != [] { CountBounds(ws[1..]); }
  }

  lemma InitInv(total: nat, concurrency: int)
    ensures Inv(Init(total, concurrency))
    ensures Remaining(Init(total, concurrency)) == 2 * total + WorkerCount(total, concurrency)
  {
    CountBounds(Init(total, concurrency).workers);
  }

  lemma MultisetMove(a: multiset<nat>, b: multiset<nat>, b': multiset<nat>, c: multiset<nat>, x: nat)
    requires a + b == c
    ensures b' == b + multiset{x} ==> a + b' == c + multiset{x}
    ensures b' + multiset{x} == b ==> (a + multiset{x}) + b' == c
  {
  }

  lemma MultisetSame(b: multiset<nat>, b': multiset<nat>)
    requires b + multiset{} == b' + multiset{}
    ensures b == b'
  {
    assert forall x :: (b + multiset{})[x] == b[x];
    assert forall x :: (b' + multiset{})[x] == b'[x];
    assert forall x :: b[x] == b'[x];
  }

  lemma ClaimInv(p: Pool, w: nat)
    requires Inv(p) && Enabled(p, Claim(w))
    ensures Inv(Apply(p, Claim(w)))
    ensures Remaining(Apply(p, Claim(w))) == Remaining(p) - 1
  {
    var q := Apply(p, Claim(w));
    InFlightUpdate(p.workers, w, q.workers[w]);
    ReturnedUpdate(p.workers, w, q.workers[w]);
    if p.claimIndex < p.total {
      assert Upto(|p.started| + 1) == Upto(|p.started|) + [|p.started|];
      MultisetMove(multiset(Indices(p.finished)), InFlight(p.workers), InFlight(q.workers), multiset(p.started), p.claimIndex);
      assert |InFlight(q.workers)| == |InFlight(p.workers) + multiset{p.claimIndex}|;
    } else {
      MultisetSame(InFlight(p.workers), InFlight(q.workers));
    }
  }

  lemma FinishedOneMore(finished: seq<(nat, Outcome)>, i: nat, outcome: Outcome)
    ensures multiset(Indices(finished + [(i, outcome)])) == multiset(Indices(finished)) + multiset{i}
  {
    assert Indices(finished + [(i, outcome)]) == Indices(finished) + [i];
  }

  lemma SettleInv(p: Pool, w: nat, outcome: Outcome)
    requires Inv(p) && Enabled(p, Settle(w, outcome))
    ensures Inv(Apply(p, Settle(w, outcome)))
    ensures Remaining(Apply(p, Settle(w, outcome))) == Remaining(p) - 1
  {
    var q := Apply(p, Settle(w, outcome));
    var i := p.workers[w].index;
    InFlightUpdate(p.workers, w, Ready);
    ReturnedUpdate(p.workers, w, Ready);
    FinishedOneMore(p.finished, i, outcome);
    MultisetMove(multiset(Indices(p.finished)), InFlight(p.workers), InFlight(q.workers), multiset(p.started), i);
    assert |InFlight(p.workers)| == |InFlight(q.workers) + multiset{i}|;
  }

  lemma StepInv(p: Pool, e: Event)
    requires Inv(p) && Enabled(p, e)
    ensures Inv(Apply(p, e))
    ensures Remaining(Apply(p, e)) == Remaining(p) - 1
  {
    match e
    case Claim(w) => ClaimInv(p, w);
    case Settle(w, outcome) => SettleInv(p, w, outcome);
  }

  // ---------------------------------------------------------------- every run

  /** Every interleaving: what holds after any sequence of steps from the initial pool. */
  lemma {:induction false} RunInv(p: Pool, events: seq<Event>, q: Pool)
    requires Inv(p) && Run(p, events, q)
    ensures Inv(q) && q.total == p.total && |q.workers| == |p.workers|
    ensures Remaining(q) == Remaining(p) - |events|
    decreases |events|
  {
    if events != [] {
      StepInv(p, events[0]);
      RunInv(Apply(p, events[0]), events[1..], q);
    }
  }

  /** The handler is called for 0, 1, 2, ... in that order, never twice, and never on more than the pool's width. */
  lemma CalledOnceInOrderWithinWidth(total: nat, concurrency: int, events: seq<Event>, q: Pool)
    requires Run(Init(total, concurrency), events, q)
    ensures q.started == Upto(Min(q.claimIndex, total))
    ensures |InFlight(q.workers)| <= Min(Max(1, concurrency), total)
    ensures multiset(Indices(q.finished)) + InFlight(q.workers) == multiset(q.started)
  {
    InitInv(total, concurrency);
    RunInv(Init(total, concurrency), events, q);
    CountBounds(q.workers);
  }

  lemma RemainingIsNonNegative(p: Pool)
    requires Inv(p)
    ensures Remaining(p) >= 0
    ensures Remaining(p) == 0 <==> forall w :: 0 <= w < |p.workers| ==> p.workers[w].Returned?
  {
    CountBounds(p.workers);
    if Remaining(p) == 0 && exists w :: 0 <= w < |p.workers| && !p.workers[w].Returned? {
      var w :| 0 <= w < |p.workers| && !p.workers[w].Returned?;
      var us := p.workers[w := Returned];
      InFlightUpdate(p.workers, w, Returned);
      ReturnedUpdate(p.workers, w, Returned);
      CountBounds(us);
    }
    if (forall w :: 0 <= w < |p.workers| ==> p.workers[w].Returned?) && p.total > 0 {
      assert p.workers[0].Returned?;
    }
  }

  /** A pool that cannot step is one whose workers have all returned; otherwise some step is possible. */
  lemma ResolvedIffAllReturned(p: Pool)
    ensures Resolved(p) <==> forall w :: 0 <= w < |p.workers| ==> p.workers[w].Returned?
  {
    if Resolved(p) {
      forall w | 0 <= w < |p.workers| ensures p.workers[w].Returned? {
        assert !Enabled(p, Claim(w));
        assert !Enabled(p, Settle(w, Written));
      }
    }
  }

  /** Every run stops after exactly two steps per job and one per worker, and only then. */
  lemma EveryRunStops(total: nat, concurrency: int, events: seq<Event>, q: Pool)
    requires Run(Init(total, concurrency), events, q)
    ensures |events| <= 2 * total + WorkerCount(total, concurrency)
    ensures Resolved(q) <==> |events| == 2 * total + WorkerCount(total, concurrency)
  {
    InitInv(total, concurrency);
    RunInv(Init(total, concurrency), events, q);
    RemainingIsNonNegative(q);
    ResolvedIffAllReturned(q);
  }

  /**
   * When `Promise.all` resolves: each index was handled exactly once whatever the handlers did, the
   * returned count is the job count, and the counter was pushed past the end once by every worker.
   * The queue-incomplete warning is therefore never reached.
   */
  lemma ResolvedRunHandledEveryJobOnce(total: nat, concurrency: int, events: seq<Event>, q: Pool)
    requires Run(Init(total, concurrency), events, q) && Resolved(q)
    ensures multiset(Indices(q.finished)) == multiset(Upto(total))
    ensures q.started == Upto(total)
    ensures q.Handled() == total
    ensures q.claimIndex == total + WorkerCount(total, concurrency)
  {
    InitInv(total, concurrency);
    RunInv(Init(total, concurrency), events, q);
    ResolvedIffAllReturned(q);
    CountBounds(q.workers);
    if total > 0 {
      assert q.claimIndex > |q.started|;
    }
    assert |multiset(Indices(q.finished))| == |Indices(q.finished)|;
    assert |multiset(q.started)| == |q.started|;
  }

  // ---------------------------------------------------------------- outcome counters

  function Tally(finished: seq<(nat, Outcome)>, o: Outcome): nat {
    if finished == [] then 0
    else Tally(finished[..|finished| - 1], o) + (if finished[|finished| - 1].1 == o then 1 else 0)
  }

  /** The places of the completions that ended in this way. */
  ghost function Ending(finished: seq<(nat, Outcome)>, o: Outcome): set<nat> {
    set n | 0 <= n < |finished| && finished[n].1 == o
  }

  /** Counting one by one gives their number. */
  lemma {:induction false} TallyIsCount(finished: seq<(nat, Outcome)>, o: Outcome)
    ensures Tally(finished, o) == |Ending(finished, o)|
  {
    if finished != [] {
      var n := |finished| - 1;
      TallyIsCount(finished[..n], o);
      var before := Ending(finished[..n], o);
      if finished[n].1 == o {
        assert Ending(finished, o) == before + {n};
      } else {
        assert Ending(finished, o) == before;
      }
    }
  }

  /** The round counters partition the completions. */
  lemma {:induction false} TalliesPartition(finished: seq<(nat, Outcome)>)
    ensures Tally(finished, Written) + Tally(finished, Skipped) + Tally(finished, Failed) + Tally(finished, Threw)
         == |finished|
  {
    if finished != [] { TalliesPartition(finished[..|finished| - 1]); }
  }

  // ---------------------------------------------------------------- the shared counters, updated in place

  /** The closure state shared by the `drainWorker` calls of one queue. */
  class Queue {
    const total: nat
    var claimIndex: nat
    var handled: nat
    var workers: seq<Worker>
    ghost var started: seq<nat>
    ghost var finished: seq<(nat, Outcome)>
    var written: nat
    var skipped: nat
    var failed: nat

    ghost function Model(): Pool
      reads this
    {
      Pool(total, claimIndex, workers, started, finished)
    }

    ghost predicate Valid()
      reads this
    {
      && handled == |finished|
      && written == Tally(finished, Written)
      && skipped == Tally(finished, Skipped)
      && failed == Tally(finished, Failed)
    }

    constructor (total: nat, concurrency: int)
      ensures Valid() && Model() == Init(total, concurrency)
    {
      this.total := total;
      claimIndex, handled := 0, 0;
      written, skipped, failed := 0, 0, 0;
      workers := seq(WorkerCount(total, concurrency), _ => Ready);
      started, finished := [], [];
    }

    /** One pass of the claim part of the worker loop: take an index, then call the handler or return. */
    method ClaimNext(w: nat)
      requires Valid() && Enabled(Model(), Claim(w))
      modifies this
      ensures Valid() && Model() == Apply(old(Model()), Claim(w))
    {
      var i := claimIndex;
      claimIndex := claimIndex + 1;
      if i >= total {
        workers := workers[w := Returned];
      } else {
        workers := workers[w := Busy(i)];
        started := started + [i];
      }
    }

    /** The awaited handler settles; a throw is caught and still counted as handled. */
    method HandlerSettled(w: nat, outcome: Outcome)
      requires Valid() && Enabled(Model(), Settle(w, outcome))
      modifies this
      ensures Valid() && Model() == Apply(old(Model()), Settle(w, outcome))
    {
      ghost var done := (workers[w].index, outcome);
      assert (finished + [done])[..|finished|] == finished;
      match outcome {
        case Written => written := written + 1;
        case Skipped => skipped := skipped + 1;
        case Failed => failed := failed + 1;
        case Threw =>
      }
      workers := workers[w := Ready];
      finished := finished + [done];
      handled := handled + 1;
    }

    /** The scheduler resumes one worker that has not returned; a handler rejects only if it is `throwing`. */
    method Step(w: nat, throwing: bool) returns (ghost e: Event)
      requires Valid() && w < |workers| && !workers[w].Returned?
      modifies this
      ensures Enabled(old(Model()), e)
      ensures !throwing ==> Tally(finished, Threw) == old(Tally(finished, Threw))
      ensures Valid() && Model() == Apply(old(Model()), e)
    {
      if workers[w].Ready? {
        e := Claim(w);
        ClaimNext(w);
      } else {
        var outcome: Outcome := *;
        if !throwing && outcome.Threw? { outcome := Failed; }
        e := Settle(w, outcome);
        assert (finished + [(workers[w].index, outcome)])[..|finished|] == finished;
        HandlerSettled(w, outcome);
      }
    }
  }

  lemma {:induction false} RunAppend(p: Pool, events: seq<Event>, q: Pool, e: Event)
    requires Run(p, events, q) && Enabled(q, e)
    ensures Run(p, events + [e], Apply(q, e))
    decreases |events|
  {
    if events == [] {
      assert (events + [e])[1..] == [];
    } else {
      RunAppend(Apply(p, events[0]), events[1..], q, e);
      assert (events + [e])[1..] == events[1..] + [e];
    }
  }

  /** Drive one queue under an arbitrary scheduler with arbitrary handler outcomes until it resolves. */
  method RunJobQueue(total: nat, concurrency: int, throwing: bool)
    returns (handled: nat, written: nat, skipped: nat, failed: nat, ghost events: seq<Event>, ghost last: Pool)
    ensures Run(Init(total, concurrency), events, last) && Resolved(last)
    ensures handled == total
    ensures written == |Ending(last.finished, Written)|
    ensures skipped == |Ending(last.finished, Skipped)|
    ensures failed == |Ending(last.finished, Failed)|
    ensures written + skipped + failed + |Ending(last.finished, Threw)| == total
    ensures !throwing ==> Ending(last.finished, Threw) == {}
  {
    var q := new Queue(total, concurrency);
    events := [];
    var live := total != 0;
    InitInv(total, concurrency);
    while live
      invariant q.Valid() && fresh(q) && Inv(q.Model())
      invariant Run(Init(total, concurrency), events, q.Model())
      invariant !live && total > 0 ==> Resolved(q.Model())
      invariant !throwing ==> Tally(q.finished, Threw) == 0
      decreases live, Remaining(q.Model())
    {
      RemainingIsNonNegative(q.Model());
      if w :| 0 <= w < |q.workers| && !q.workers[w].Returned? {
        ghost var before := q.Model();
        ghost var e := q.Step(w, throwing);
        StepInv(before, e);
        RunAppend(Init(total, concurrency), events, before, e);
        events := events + [e];
      } else {
        ResolvedIffAllReturned(q.Model());
        live := false;
      }
    }
    last := q.Model();
    ResolvedIffAllReturned(last);
    ResolvedRunHandledEveryJobOnce(total, concurrency, events, last);
    TalliesPartition(q.finished);
    TallyIsCount(q.finished, Written);
    TallyIsCount(q.finished, Skipped);
    TallyIsCount(q.finished, Failed);
    TallyIsCount(q.finished, Threw);
    return q.handled, q.written, q.skipped, q.failed, events, last;
  }
}
