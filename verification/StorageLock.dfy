/**
 * The lock file shared by any number of processes: exclusive create, breaking of stale files by waiters,
 * unconditional unlink on release.
 *
 * A `Proc` is one call of the acquire function, together with the critical section it admits; a run has any
 * number of them. Every file operation is one step of one call; steps of different calls interleave freely,
 * time passes between any two of them, and the process making a call may die at any point.
 */
module StorageLock {
  import opened Options

  datatype LockFile = LockFile(owner: nat, mtime: int)

  datatype Proc =
    | Idle                               // not called yet
    | Looping(start: int)                // about to test the waiting time
    | Opening(start: int)                // about to create the file exclusively
    | Creating                           // created it, not yet written and closed
    | Holding
    | Released
    | Checking(start: int)               // create failed with EEXIST, about to stat
    | Breaking(start: int)               // saw a stale file, about to unlink
    | Sleeping(start: int, until: int)
    | TimedOut(waited: int)              // threw storage_lock_timeout
    | Failed                             // threw another error before creating the file
    | FailedAfterCreate                  // threw while writing the file it had created
    | Dead

  datatype State = State(now: int, lock: Option<LockFile>, procs: seq<Proc>)

  /** `pauseMs` is the shortest pause between two attempts. */
  datatype Limits = Limits(waitMs: nat, staleMs: nat, pauseMs: Pause)

  type Pause = n: int | n > 0 witness 1

  datatype Event =
    | Start(p: nat)
    | TestTime(p: nat)
    | Open(p: nat)
    | OpenFails(p: nat)
    | Written(p: nat)
    | WriteFails(p: nat)
    | Stat(p: nat, pause: nat)
    | Unlink(p: nat, pause: nat)
    | Wake(p: nat)
    | Release(p: nat)
    | Die(p: nat)
    | Tick(ms: nat)

  function Init(now: int, calls: nat): State { State(now, None, seq(calls, _ => Idle)) }

  predicate Enabled(s: State, e: Event, lim: Limits) {
    match e
    case Tick(_) => true
    case Start(p) => p < |s.procs| && s.procs[p].Idle?
    case TestTime(p) => p < |s.procs| && s.procs[p].Looping?
    case Open(p) => p < |s.procs| && s.procs[p].Opening?
    case OpenFails(p) => p < |s.procs| && s.procs[p].Opening?
    case Written(p) => p < |s.procs| && s.procs[p].Creating?
    case WriteFails(p) => p < |s.procs| && s.procs[p].Creating?
    case Stat(p, pause) => p < |s.procs| && s.procs[p].Checking? && pause >= lim.pauseMs
    case Unlink(p, pause) => p < |s.procs| && s.procs[p].Breaking? && pause >= lim.pauseMs
    case Wake(p) => p < |s.procs| && s.procs[p].Sleeping? && s.procs[p].until <= s.now
    case Release(p) => p < |s.procs| && s.procs[p].Holding?
    case Die(p) => p < |s.procs|
  }

  function Become(s: State, p: nat, proc: Proc): State
    requires p < |s.procs|
  {
    s.(procs := s.procs[p := proc])
  }

  function Apply(s: State, e: Event, lim: Limits): State
    requires Enabled(s, e, lim)
  {
    match e
    case Tick(ms) => s.(now := s.now + ms)
    case Start(p) => Become(s, p, Looping(s.now))
    case TestTime(p) =>
      var start := s.procs[p].start;
      Become(s, p, if s.now - start < lim.waitMs then Opening(start) else TimedOut(s.now - start))
    case Open(p) =>
      if s.lock.None? then Become(s, p, Creating).(lock := Some(LockFile(p, s.now)))
      else Become(s, p, Checking(s.procs[p].start))
    case OpenFails(p) => Become(s, p, Failed)
    case Written(p) =>
      // the write goes to the created file, wherever its name now points
      var s' := Become(s, p, Holding);
      if s.lock.Some? && s.lock.value.owner == p then s'.(lock := Some(LockFile(p, s.now))) else s'
    case WriteFails(p) => Become(s, p, FailedAfterCreate)
    case Stat(p, pause) =>
      if s.lock.Some? && s.now - s.lock.value.mtime > lim.staleMs then Become(s, p, Breaking(s.procs[p].start))
      else Become(s, p, Sleeping(s.procs[p].start, s.now + pause))
    case Unlink(p, pause) => Become(s, p, Sleeping(s.procs[p].start, s.now + pause)).(lock := None)
    case Wake(p) => Become(s, p, Looping(s.procs[p].start))
    case Release(p) => Become(s, p, Released).(lock := None)
    case Die(p) => Become(s, p, Dead)
  }

  ghost predicate Run(s: State, events: seq<Event>, t: State, lim: Limits)
    decreases |events|
  {
    if events == [] then s == t
    else Enabled(s, events[0], lim) && Run(Apply(s, events[0], lim), events[1..], t, lim)
  }

  /** The call has created the file and neither released it nor died nor failed. */
  predicate Live(proc: Proc) { proc.Creating? || proc.Holding? }

  /** Removing the file now would take it from a call that still counts on it. */
  predicate HeldByLive(s: State) {
    s.lock.Some? && s.lock.value.owner < |s.procs| && Live(s.procs[s.lock.value.owner])
  }

  predicate Stale(s: State, lim: Limits) { s.lock.Some? && s.now - s.lock.value.mtime > lim.staleMs }

  ghost predicate MutualExclusion(s: State) {
    forall p, q :: 0 <= p < |s.procs| && 0 <= q < |s.procs| && Live(s.procs[p]) && Live(s.procs[q]) ==> p == q
  }

  // ---------------------------------------------------------------- runs that break no live lock

  /** No waiter unlinks the file of a live call. */
  ghost predicate BreaksNoLiveLock(s: State, events: seq<Event>, lim: Limits)
    decreases |events|
  {
    events == [] ||
    (Enabled(s, events[0], lim) ==>
      && (events[0].Unlink? ==> !HeldByLive(s))
      && BreaksNoLiveLock(Apply(s, events[0], lim), events[1..], lim))
  }

  /** The call whose name is on the file is live, or its process died, or it failed right after the create. */
  predicate MayOwn(proc: Proc) { Live(proc) || proc.Dead? || proc.FailedAfterCreate? }

  ghost predicate Inv(s: State) {
    && (forall p :: 0 <= p < |s.procs| && Live(s.procs[p]) ==> s.lock.Some? && s.lock.value.owner == p)
    && (s.lock.Some? ==> s.lock.value.owner < |s.procs| && MayOwn(s.procs[s.lock.value.owner]))
  }

  lemma StepInv(s: State, e: Event, lim: Limits)
    requires Inv(s) && Enabled(s, e, lim)
    requires e.Unlink? ==> !HeldByLive(s)
    ensures Inv(Apply(s, e, lim))
  {
  }

  lemma {:induction false} RunInv(s: State, events: seq<Event>, t: State, lim: Limits)
    requires Inv(s) && Run(s, events, t, lim) && BreaksNoLiveLock(s, events, lim)
    ensures Inv(t)
    decreases |events|
  {
    if events != [] {
      StepInv(s, events[0], lim);
      RunInv(Apply(s, events[0], lim), events[1..], t, lim);
    }
  }

  /**
   * As long as no waiter unlinks a live call's file, at most one call holds the lock, the file on disk is its
   * file, and a call that timed out, failed to create or released has left no file behind.
   */
  lemma NoLiveBreakMeansMutualExclusion(now: int, n: nat, events: seq<Event>, t: State, lim: Limits)
    requires Run(Init(now, n), events, t, lim) && BreaksNoLiveLock(Init(now, n), events, lim)
    ensures MutualExclusion(t)
    ensures forall p :: 0 <= p < |t.procs| && Live(t.procs[p]) ==> t.lock.Some? && t.lock.value.owner == p
    ensures t.lock.Some? ==> t.lock.value.owner < |t.procs| && MayOwn(t.procs[t.lock.value.owner])
  {
    RunInv(Init(now, n), events, t, lim);
  }

  // ---------------------------------------------------------------- the converse: a live break lets a second call in

  lemma RunOne(s: State, e: Event, events: seq<Event>, t: State, lim: Limits)
    requires Enabled(s, e, lim) && Run(Apply(s, e, lim), events, t, lim)
    ensures Run(s, [e] + events, t, lim)
  {
    assert ([e] + events)[1..] == events;
  }

  /**
   * The condition cannot be dropped: whenever a waiter is about to unlink the file of a live call, letting it
   * do so and then making one more call puts two calls in the critical section at once.
   */
  lemma LiveBreakAdmitsASecondHolder(s: State, p: nat, newcomer: nat, lim: Limits) returns (t: State)
    requires Inv(s) && HeldByLive(s) && lim.waitMs > 0
    requires p < |s.procs| && s.procs[p].Breaking?
    requires newcomer < |s.procs| && s.procs[newcomer].Idle?
    ensures Run(s, [Unlink(p, lim.pauseMs)] + ([Start(newcomer)] + ([TestTime(newcomer)] + ([Open(newcomer)] + []))), t, lim)
    ensures !MutualExclusion(t)
  {
    var victim := s.lock.value.owner;
    var s1 := Apply(s, Unlink(p, lim.pauseMs), lim);
    var s2 := Apply(s1, Start(newcomer), lim);
    var s3 := Apply(s2, TestTime(newcomer), lim);
    t := Apply(s3, Open(newcomer), lim);
    RunOne(s3, Open(newcomer), [], t, lim);
    RunOne(s2, TestTime(newcomer), [Open(newcomer)] + [], t, lim);
    RunOne(s1, Start(newcomer), [TestTime(newcomer)] + ([Open(newcomer)] + []), t, lim);
    RunOne(s, Unlink(p, lim.pauseMs), [Start(newcomer)] + ([TestTime(newcomer)] + ([Open(newcomer)] + [])), t, lim);
    assert Live(t.procs[newcomer]) && Live(t.procs[victim]) && victim != newcomer;
  }

  // ---------------------------------------------------------------- prompt release, without crashes

  predicate Crash(e: Event) { e.Die? || e.WriteFails? }

  /** Every live call's file is younger than the stale limit, throughout the run. */
  ghost predicate ReleasedInTime(s: State, events: seq<Event>, lim: Limits)
    decreases |events|
  {
    && (HeldByLive(s) ==> !Stale(s, lim))
    && (events != [] && Enabled(s, events[0], lim) ==> ReleasedInTime(Apply(s, events[0], lim), events[1..], lim))
  }

  ghost predicate NobodyBreaking(s: State) { forall p :: 0 <= p < |s.procs| ==> !s.procs[p].Breaking? }

  lemma {:induction false} PromptNeverBreaks(s: State, events: seq<Event>, t: State, lim: Limits)
    requires Inv(s) && NobodyBreaking(s) && (s.lock.Some? ==> HeldByLive(s))
    requires Run(s, events, t, lim) && ReleasedInTime(s, events, lim)
    requires forall e :: e in events ==> !Crash(e)
    ensures BreaksNoLiveLock(s, events, lim)
    ensures forall e :: e in events ==> !e.Unlink?
    decreases |events|
  {
    if events != [] {
      assert events[0] in events;
      StepInv(s, events[0], lim);
      PromptNeverBreaks(Apply(s, events[0], lim), events[1..], t, lim);
      assert events == [events[0]] + events[1..];
    }
  }

  /**
   * If no process dies or fails to write, and every holder releases before its file is stale, then at most one
   * call holds the lock at any time, and no file is ever broken.
   */
  lemma PromptReleaseMeansMutualExclusion(now: int, n: nat, events: seq<Event>, t: State, lim: Limits)
    requires Run(Init(now, n), events, t, lim) && ReleasedInTime(Init(now, n), events, lim)
    requires forall e :: e in events ==> !Crash(e)
    ensures MutualExclusion(t)
    ensures forall e :: e in events ==> !e.Unlink?
  {
    PromptNeverBreaks(Init(now, n), events, t, lim);
    NoLiveBreakMeansMutualExclusion(now, n, events, t, lim);
  }

  // ---------------------------------------------------------------- prompt release, with crashes

  /** Between a waiter's look at a stale file and its unlink, nobody creates the file anew. */
  ghost predicate NoCreateDuringABreak(s: State, events: seq<Event>, lim: Limits)
    decreases |events|
  {
    events == [] ||
    (Enabled(s, events[0], lim) ==>
      && (events[0].Open? && s.lock.None? ==> NobodyBreaking(s))
      && NoCreateDuringABreak(Apply(s, events[0], lim), events[1..], lim))
  }

  /** While somebody is about to break, the file it saw is an abandoned one, or is gone. */
  ghost predicate BreaksOnlyAbandoned(s: State) { HeldByLive(s) ==> NobodyBreaking(s) }

  lemma {:induction false} GuardedNeverBreaksLive(s: State, events: seq<Event>, t: State, lim: Limits)
    requires Inv(s) && BreaksOnlyAbandoned(s)
    requires Run(s, events, t, lim) && ReleasedInTime(s, events, lim) && NoCreateDuringABreak(s, events, lim)
    ensures BreaksNoLiveLock(s, events, lim)
    decreases |events|
  {
    if events != [] {
      StepInv(s, events[0], lim);
      GuardedNeverBreaksLive(Apply(s, events[0], lim), events[1..], t, lim);
    }
  }

  /** With crashes, prompt release is enough once no file is created while some waiter is about to unlink. */
  lemma GuardedBreaksMeanMutualExclusion(now: int, n: nat, events: seq<Event>, t: State, lim: Limits)
    requires Run(Init(now, n), events, t, lim) && ReleasedInTime(Init(now, n), events, lim)
    requires NoCreateDuringABreak(Init(now, n), events, lim)
    ensures MutualExclusion(t)
  {
    GuardedNeverBreaksLive(Init(now, n), events, t, lim);
    NoLiveBreakMeansMutualExclusion(now, n, events, t, lim);
  }

  lemma PromptOne(s: State, e: Event, events: seq<Event>, lim: Limits)
    requires HeldByLive(s) ==> !Stale(s, lim)
    requires Enabled(s, e, lim) && ReleasedInTime(Apply(s, e, lim), events, lim)
    ensures ReleasedInTime(s, [e] + events, lim)
  {
    assert ([e] + events)[1..] == events;
  }

  /** What waiter `p` does after it has decided to break: unlink, sleep, create. */
  function BreakAndCreate(p: nat, pause: nat): seq<Event> {
    [Unlink(p, pause)] + ([Tick(pause)] + ([Wake(p)] + ([TestTime(p)] + ([Open(p)] + []))))
  }

  lemma BreakerGetsIn(s: State, p: nat, lim: Limits) returns (t: State)
    requires p < |s.procs| && s.procs[p].Breaking? && s.now + lim.pauseMs - s.procs[p].start < lim.waitMs
    requires HeldByLive(s) ==> !Stale(s, lim)
    ensures Run(s, BreakAndCreate(p, lim.pauseMs), t, lim) && ReleasedInTime(s, BreakAndCreate(p, lim.pauseMs), lim)
    ensures t == s.(now := s.now + lim.pauseMs, lock := Some(LockFile(p, s.now + lim.pauseMs)), procs := s.procs[p := Creating])
  {
    var pause: nat := lim.pauseMs;
    var s1 := Apply(s, Unlink(p, pause), lim);
    var s2 := Apply(s1, Tick(pause), lim);
    var s3 := Apply(s2, Wake(p), lim);
    var s4 := Apply(s3, TestTime(p), lim);
    t := Apply(s4, Open(p), lim);
    RunOne(s4, Open(p), [], t, lim);
    RunOne(s3, TestTime(p), [Open(p)] + [], t, lim);
    RunOne(s2, Wake(p), [TestTime(p)] + ([Open(p)] + []), t, lim);
    RunOne(s1, Tick(pause), [Wake(p)] + ([TestTime(p)] + ([Open(p)] + [])), t, lim);
    RunOne(s, Unlink(p, pause), [Tick(pause)] + ([Wake(p)] + ([TestTime(p)] + ([Open(p)] + []))), t, lim);
    PromptOne(s4, Open(p), [], lim);
    PromptOne(s3, TestTime(p), [Open(p)] + [], lim);
    PromptOne(s2, Wake(p), [TestTime(p)] + ([Open(p)] + []), lim);
    PromptOne(s1, Tick(pause), [Wake(p)] + ([TestTime(p)] + ([Open(p)] + [])), lim);
    PromptOne(s, Unlink(p, pause), [Tick(pause)] + ([Wake(p)] + ([TestTime(p)] + ([Open(p)] + []))), lim);
    assert t.procs == s.procs[p := Creating];
  }

  /**
   * Prompt release alone is not enough: when two waiters have both seen one abandoned stale file, the slower one
   * removes the file the faster one has just created, and both enter, although no live file was ever stale.
   */
  lemma TwoWaitersOnAnAbandonedFile(s: State, p: nat, q: nat, lim: Limits)
    returns (m: State, t: State)
    requires p < |s.procs| && q < |s.procs| && p != q
    requires s.procs[p].Breaking? && s.now + lim.pauseMs - s.procs[p].start < lim.waitMs
    requires s.procs[q].Breaking? && s.now + 2 * lim.pauseMs - s.procs[q].start < lim.waitMs
    requires Stale(s, lim) && !HeldByLive(s)
    ensures Run(s, BreakAndCreate(p, lim.pauseMs), m, lim) && ReleasedInTime(s, BreakAndCreate(p, lim.pauseMs), lim)
    ensures Run(m, BreakAndCreate(q, lim.pauseMs), t, lim) && ReleasedInTime(m, BreakAndCreate(q, lim.pauseMs), lim)
    ensures !MutualExclusion(t)
  {
    m := BreakerGetsIn(s, p, lim);
    t := BreakerGetsIn(m, q, lim);
    assert Live(t.procs[p]) && Live(t.procs[q]);
  }

  lemma {:induction false} JoinRuns(s: State, a: seq<Event>, m: State, b: seq<Event>, t: State, lim: Limits)
    requires Run(s, a, m, lim) && ReleasedInTime(s, a, lim)
    requires Run(m, b, t, lim) && ReleasedInTime(m, b, lim)
    ensures Run(s, a + b, t, lim) && ReleasedInTime(s, a + b, lim)
    decreases |a|
  {
    if a == [] {
      assert a + b == b;
    } else {
      JoinRuns(Apply(s, a[0], lim), a[1..], m, b, t, lim);
      assert (a + b)[1..] == a[1..] + b;
    }
  }

  /** A new call that finds an abandoned stale file gets as far as deciding to break it. */
  lemma NewCallDecidesToBreak(s: State, p: nat, lim: Limits) returns (events: seq<Event>, t: State)
    requires p < |s.procs| && s.procs[p].Idle? && lim.waitMs > 0
    requires Stale(s, lim) && !HeldByLive(s) && s.lock.value.owner != p
    ensures Run(s, events, t, lim) && ReleasedInTime(s, events, lim)
    ensures t == s.(procs := s.procs[p := Breaking(s.now)])
  {
    var s1 := Apply(s, Start(p), lim);
    var s2 := Apply(s1, TestTime(p), lim);
    var s3 := Apply(s2, Open(p), lim);
    t := Apply(s3, Stat(p, lim.pauseMs), lim);
    RunOne(s3, Stat(p, lim.pauseMs), [], t, lim);
    RunOne(s2, Open(p), [Stat(p, lim.pauseMs)] + [], t, lim);
    RunOne(s1, TestTime(p), [Open(p)] + ([Stat(p, lim.pauseMs)] + []), t, lim);
    events := [Start(p)] + ([TestTime(p)] + ([Open(p)] + ([Stat(p, lim.pauseMs)] + [])));
    RunOne(s, Start(p), [TestTime(p)] + ([Open(p)] + ([Stat(p, lim.pauseMs)] + [])), t, lim);
    PromptOne(s3, Stat(p, lim.pauseMs), [], lim);
    PromptOne(s2, Open(p), [Stat(p, lim.pauseMs)] + [], lim);
    PromptOne(s1, TestTime(p), [Open(p)] + ([Stat(p, lim.pauseMs)] + []), lim);
    PromptOne(s, Start(p), [TestTime(p)] + ([Open(p)] + ([Stat(p, lim.pauseMs)] + [])), lim);
    assert t.procs == s.procs[p := Breaking(s.now)];
  }

  /** The first call dies holding the lock, and its file goes stale. */
  lemma HolderDies(now: int, n: nat, lim: Limits) returns (events: seq<Event>, t: State)
    requires n > 0 && lim.waitMs > 0
    ensures Run(Init(now, n), events, t, lim) && ReleasedInTime(Init(now, n), events, lim)
    ensures Stale(t, lim) && !HeldByLive(t) && t.lock.value.owner == 0
    ensures t.procs == Init(now, n).procs[0 := Dead]
  {
    var s := Init(now, n);
    var s1 := Apply(s, Start(0), lim);
    var s2 := Apply(s1, TestTime(0), lim);
    var s3 := Apply(s2, Open(0), lim);
    var s4 := Apply(s3, Die(0), lim);
    var wait := Tick(lim.staleMs + 1);
    t := Apply(s4, wait, lim);
    RunOne(s4, wait, [], t, lim);
    RunOne(s3, Die(0), [wait] + [], t, lim);
    RunOne(s2, Open(0), [Die(0)] + ([wait] + []), t, lim);
    RunOne(s1, TestTime(0), [Open(0)] + ([Die(0)] + ([wait] + [])), t, lim);
    events := [Start(0)] + ([TestTime(0)] + ([Open(0)] + ([Die(0)] + ([wait] + []))));
    RunOne(s, Start(0), [TestTime(0)] + ([Open(0)] + ([Die(0)] + ([wait] + []))), t, lim);
    PromptOne(s4, wait, [], lim);
    PromptOne(s3, Die(0), [wait] + [], lim);
    PromptOne(s2, Open(0), [Die(0)] + ([wait] + []), lim);
    PromptOne(s1, TestTime(0), [Open(0)] + ([Die(0)] + ([wait] + [])), lim);
    PromptOne(s, Start(0), [TestTime(0)] + ([Open(0)] + ([Die(0)] + ([wait] + []))), lim);
    assert t.procs == s.procs[0 := Dead];
  }

  /** So from the very start, with three calls, a crash and prompt release of every live file, two calls can hold the lock. */
  lemma PromptReleaseAloneAdmitsTwoHolders(now: int, n: nat, lim: Limits) returns (events: seq<Event>, t: State)
    requires n >= 3 && lim.waitMs > 2 * lim.pauseMs
    ensures Run(Init(now, n), events, t, lim) && ReleasedInTime(Init(now, n), events, lim)
    ensures !MutualExclusion(t)
  {
    var s := Init(now, n);
    var e1, s1 := HolderDies(now, n, lim);
    var e2, s2 := NewCallDecidesToBreak(s1, 1, lim);
    var e3, s3 := NewCallDecidesToBreak(s2, 2, lim);
    var s4, s5 := TwoWaitersOnAnAbandonedFile(s3, 1, 2, lim);
    JoinRuns(s3, BreakAndCreate(1, lim.pauseMs), s4, BreakAndCreate(2, lim.pauseMs), s5, lim);
    JoinRuns(s2, e3, s3, BreakAndCreate(1, lim.pauseMs) + BreakAndCreate(2, lim.pauseMs), s5, lim);
    JoinRuns(s1, e2, s2, e3 + (BreakAndCreate(1, lim.pauseMs) + BreakAndCreate(2, lim.pauseMs)), s5, lim);
    JoinRuns(s, e1, s1, e2 + (e3 + (BreakAndCreate(1, lim.pauseMs) + BreakAndCreate(2, lim.pauseMs))), s5, lim);
    events, t := e1 + (e2 + (e3 + (BreakAndCreate(1, lim.pauseMs) + BreakAndCreate(2, lim.pauseMs)))), s5;
  }

  // ---------------------------------------------------------------- every call ends

  /** A step of call `p` itself, on its way to the lock. */
  predicate Own(e: Event, p: nat) {
    match e
    case Start(q) => q == p
    case TestTime(q) => q == p
    case Open(q) => q == p
    case OpenFails(q) => q == p
    case Written(q) => q == p
    case WriteFails(q) => q == p
    case Stat(q, _) => q == p
    case Unlink(q, _) => q == p
    case Wake(q) => q == p
    case _ => false
  }

  predicate Attempt(e: Event, p: nat) { Own(e, p) && (e.Open? || e.OpenFails?) }

  function OwnSteps(events: seq<Event>, p: nat): nat {
    if events == [] then 0 else (if Own(events[0], p) then 1 else 0) + OwnSteps(events[1..], p)
  }

  /** How often the call tries to create the file. */
  function Attempts(events: seq<Event>, p: nat): nat {
    if events == [] then 0 else (if Attempt(events[0], p) then 1 else 0) + Attempts(events[1..], p)
  }

  predicate Ended(proc: Proc) {
    proc.Holding? || proc.Released? || proc.TimedOut? || proc.Failed? || proc.FailedAfterCreate? || proc.Dead?
  }

  /** The n-th attempt was made within the waiting time, and every attempt before it took a pause. */
  predicate WithinWait(n: int, lim: Limits) { n > 0 ==> (n - 1) * lim.pauseMs < lim.waitMs }

  /** A call that has made `n` attempts and `k` steps. */
  predicate Counted(proc: Proc, now: int, n: nat, k: nat, lim: Limits) {
    WithinWait(n, lim) &&
    match proc
    case Idle => n == 0 && k == 0
    case Looping(start) => n * lim.pauseMs <= now - start && k <= 5 * n + 1
    case Opening(start) => n * lim.pauseMs <= now - start && WithinWait(n + 1, lim) && k <= 5 * n + 2
    case Creating => n > 0 && k <= 5 * (n - 1) + 3
    case Checking(start) => n > 0 && (n - 1) * lim.pauseMs <= now - start && k <= 5 * (n - 1) + 3
    case Breaking(start) => n > 0 && (n - 1) * lim.pauseMs <= now - start && k <= 5 * (n - 1) + 4
    case Sleeping(start, until) => n > 0 && n * lim.pauseMs <= until - start && k <= 5 * n
    case TimedOut(waited) => waited >= lim.waitMs && k <= 5 * n + 2
    case _ => k <= 5 * n + 2
  }

  lemma OneMorePause(n: nat, pause: int)
    requires n > 0
    ensures n * pause == (n - 1) * pause + pause
  {
  }

  lemma StepCounted(s: State, e: Event, p: nat, n: nat, k: nat, lim: Limits)
    requires p < |s.procs| && Enabled(s, e, lim) && Counted(s.procs[p], s.now, n, k, lim)
    ensures var t := Apply(s, e, lim);
      Counted(t.procs[p], t.now, n + (if Attempt(e, p) then 1 else 0), k + (if Own(e, p) then 1 else 0), lim)
  {
    if n > 0 { OneMorePause(n, lim.pauseMs); }
  }

  lemma {:induction false} RunCounted(s: State, events: seq<Event>, t: State, p: nat, n: nat, k: nat, lim: Limits)
    requires p < |s.procs| && Run(s, events, t, lim) && Counted(s.procs[p], s.now, n, k, lim)
    ensures |t.procs| == |s.procs| && Counted(t.procs[p], t.now, n + Attempts(events, p), k + OwnSteps(events, p), lim)
    decreases |events|
  {
    if events != [] {
      var e := events[0];
      StepCounted(s, e, p, n, k, lim);
      RunCounted(Apply(s, e, lim), events[1..], t, p,
        n + (if Attempt(e, p) then 1 else 0), k + (if Own(e, p) then 1 else 0), lim);
    }
  }

  function MaxAttempts(lim: Limits): nat { lim.waitMs / lim.pauseMs + 1 }

  function MaxSteps(lim: Limits): nat { 5 * MaxAttempts(lim) + 2 }

  lemma AttemptsFit(n: nat, lim: Limits)
    requires WithinWait(n, lim)
    ensures n <= MaxAttempts(lim)
  {
    if n - 1 > lim.waitMs / lim.pauseMs { TooManyPauses(n - 1, lim.pauseMs, lim.waitMs); }
  }

  lemma TooManyPauses(n: int, m: int, w: nat)
    requires m > 0 && n > w / m
    ensures n * m > w
  {
    assert w == m * (w / m) + w % m;
    assert (w / m + 1) * m == m * (w / m) + m;
    Multiply(w / m + 1, n, m);
  }

  lemma Multiply(a: int, b: int, m: int)
    requires a <= b && m > 0
    ensures a * m <= b * m
  {
  }

  /** The step a call that has not ended can make, once `ms` have passed. */
  function NextStep(s: State, p: nat, lim: Limits): (r: (nat, Event))
    requires p < |s.procs| && !Ended(s.procs[p])
    ensures Enabled(Apply(s, Tick(r.0), lim), r.1, lim) && Own(r.1, p)
  {
    match s.procs[p]
    case Idle => (0, Start(p))
    case Looping(_) => (0, TestTime(p))
    case Opening(_) => (0, Open(p))
    case Creating => (0, Written(p))
    case Checking(_) => (0, Stat(p, lim.pauseMs))
    case Breaking(_) => (0, Unlink(p, lim.pauseMs))
    case Sleeping(_, until) => (if until > s.now then until - s.now else 0, Wake(p))
  }

  ghost predicate CanStep(s: State, p: nat, lim: Limits) {
    exists ms: nat, e :: Own(e, p) && Enabled(Apply(s, Tick(ms), lim), e, lim)
  }

  lemma UnendedCanStep(s: State, p: nat, lim: Limits)
    requires p < |s.procs| && !Ended(s.procs[p])
    ensures CanStep(s, p, lim)
  {
    var step := NextStep(s, p, lim);
    assert Own(step.1, p) && Enabled(Apply(s, Tick(step.0), lim), step.1, lim);
  }

  lemma CountedIsBounded(proc: Proc, now: int, n: nat, k: nat, lim: Limits)
    requires Counted(proc, now, n, k, lim)
    ensures WithinWait(n, lim) && n <= MaxAttempts(lim) && k <= MaxSteps(lim) && (!Ended(proc) ==> k < MaxSteps(lim))
    ensures proc.TimedOut? ==> proc.waited >= lim.waitMs
  {
    AttemptsFit(n, lim);
    if proc.Opening? { AttemptsFit(n + 1, lim); }
  }

  lemma CountedFromTheStart(now: int, calls: nat, events: seq<Event>, t: State, p: nat, lim: Limits)
    requires p < calls && Run(Init(now, calls), events, t, lim)
    ensures |t.procs| == calls && Counted(t.procs[p], t.now, Attempts(events, p), OwnSteps(events, p), lim)
  {
    RunCounted(Init(now, calls), events, t, p, 0, 0, lim);
  }

  /**
   * In every run, however the calls interleave, a call tries to create the file at most waitMs / pauseMs + 1 times and makes
   * a bounded number of steps; a timeout comes only after the whole waiting time; and a call that has not ended has
   * steps left and can make one. So a call that keeps being scheduled ends.
   */
  lemma EveryCallEnds(now: int, calls: nat, events: seq<Event>, t: State, p: nat, lim: Limits)
    requires p < calls && Run(Init(now, calls), events, t, lim)
    ensures |t.procs| == calls && Attempts(events, p) <= MaxAttempts(lim) && OwnSteps(events, p) <= MaxSteps(lim)
    ensures WithinWait(Attempts(events, p), lim)
    ensures t.procs[p].TimedOut? ==> t.procs[p].waited >= lim.waitMs
    ensures !Ended(t.procs[p]) ==> OwnSteps(events, p) < MaxSteps(lim) && CanStep(t, p, lim)
  {
    CountedFromTheStart(now, calls, events, t, p, lim);
    CountedIsBounded(t.procs[p], t.now, Attempts(events, p), OwnSteps(events, p), lim);
    if !Ended(t.procs[p]) { UnendedCanStep(t, p, lim); }
  }

  lemma {:induction false} RunsJoin(s: State, a: seq<Event>, m: State, b: seq<Event>, t: State, lim: Limits)
    requires Run(s, a, m, lim) && Run(m, b, t, lim)
    ensures Run(s, a + b, t, lim)
    decreases |a|
  {
    if a == [] {
      assert a + b == b;
    } else {
      RunsJoin(Apply(s, a[0], lim), a[1..], m, b, t, lim);
      assert (a + b)[1..] == a[1..] + b;
    }
  }

  lemma {:induction false} OwnStepsAdd(a: seq<Event>, b: seq<Event>, p: nat)
    ensures OwnSteps(a + b, p) == OwnSteps(a, p) + OwnSteps(b, p)
    decreases |a|
  {
    if a == [] {
      assert a + b == b;
    } else {
      OwnStepsAdd(a[1..], b, p);
      assert (a + b)[1..] == a[1..] + b;
    }
  }

  /** From every reachable state a call ends by its own steps and the passing of time alone, whatever state the file is in. */
  lemma {:induction false} AloneItEnds(now: int, calls: nat, events: seq<Event>, t: State, p: nat, lim: Limits)
    returns (more: seq<Event>, u: State)
    requires p < calls && Run(Init(now, calls), events, t, lim)
    ensures Run(t, more, u, lim) && |u.procs| == calls && Ended(u.procs[p])
    ensures forall e :: e in more ==> e.Tick? || Own(e, p)
    decreases MaxSteps(lim) - OwnSteps(events, p)
  {
    EveryCallEnds(now, calls, events, t, p, lim);
    if Ended(t.procs[p]) {
      more, u := [], t;
    } else {
      var step := NextStep(t, p, lim);
      var two := [Tick(step.0)] + ([step.1] + []);
      var t1 := Apply(t, Tick(step.0), lim);
      var t2 := Apply(t1, step.1, lim);
      RunOne(t1, step.1, [], t2, lim);
      RunOne(t, Tick(step.0), [step.1] + [], t2, lim);
      RunsJoin(Init(now, calls), events, t, two, t2, lim);
      OwnStepsAdd(events, two, p);
      assert two[1..] == [step.1] && two[1..][1..] == [];
      var rest, v := AloneItEnds(now, calls, events + two, t2, p, lim);
      RunsJoin(t, two, t2, rest, v, lim);
      more, u := two + rest, v;
    }
  }
}
