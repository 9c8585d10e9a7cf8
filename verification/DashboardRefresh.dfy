/** Single flight of refreshes and precompute jobs, pending answers, and read-only mode, in every run. */
module DashboardRefresh {
  import opened Options
  import opened CacheKey
  import opened DashboardMemory
  import opened DashboardCache

  // ---------------------------------------------------------------- at most one refresh a key

  /** The Map holds a key exactly while the refresh it refers to is not settled, and every unsettled refresh is referred to. */
  ghost predicate InflightOk(l: Local) {
    && (forall k :: k in l.inflight ==> l.inflight[k] < |l.tasks| && l.tasks[l.inflight[k]].q.cacheKey == k)
    && (forall t :: 0 <= t < |l.tasks| ==>
          (!l.tasks[t].pc.Settled? <==> l.tasks[t].q.cacheKey in l.inflight && l.inflight[l.tasks[t].q.cacheKey] == t))
  }

  ghost predicate PendingOk(l: Local) { forall k :: k in l.pendingUntil ==> k in l.inflight }

  ghost predicate FlightOk(l: Local) { InflightOk(l) && PendingOk(l) }

  lemma ScheduleFlies(cfg: Config, l: Local, q: Query, owner: nat)
    requires FlightOk(l)
    ensures FlightOk(Schedule(cfg, l, q, owner))
    ensures !cfg.readonly ==> q.cacheKey in Schedule(cfg, l, q, owner).inflight
  {
  }

  lemma EmitMemoryFlies(cfg: Config, l: Local, q: Query, e: MemEntry, owner: nat)
    requires FlightOk(l)
    ensures var a := EmitMemory(cfg, l, q, e, owner);
      FlightOk(a.local) && (!cfg.readonly && a.refreshPending ==> q.cacheKey in a.local.inflight)
      && (forall j :: j in l.inflight ==> j in a.local.inflight)
  {
    ScheduleFlies(cfg, SyncSnapshotWrite(cfg, l, q, e.val, e.fill.origin), q, owner);
  }

  lemma AfterGetFlies(l: Local, t: string)
    requires FlightOk(l)
    ensures FlightOk(AfterGet(l, t)) && AfterGet(l, t).inflight == l.inflight
  {
  }

  lemma MarkPendingFlies(cfg: Config, l: Local, t: string)
    requires FlightOk(l) && t in l.inflight
    ensures FlightOk(MarkPending(cfg, l, t)) && MarkPending(cfg, l, t).inflight == l.inflight
  {
  }

  lemma EmitPendingFlies(cfg: Config, l: Local, q: Query, owner: nat)
    requires FlightOk(l) && !cfg.readonly
    ensures FlightOk(EmitTrendPending(cfg, l, q, owner).local)
    ensures EmitTrendPending(cfg, l, q, owner).refreshPending ==> q.cacheKey in EmitTrendPending(cfg, l, q, owner).local.inflight
  {
    ScheduleFlies(cfg, l, q, owner);
    var l1 := if q.cacheKey in l.inflight then l else Schedule(cfg, l, q, owner);
    var e := LiveEntry(l1, q.cacheKey);
    AfterGetFlies(l1, q.cacheKey);
    if e.Some? && NonNull(e.value.val) && HasData(e.value.val) {
      EmitMemoryFlies(cfg, AfterGet(l1, q.cacheKey), q, e.value, owner);
    } else {
      MarkPendingFlies(cfg, AfterGet(l1, q.cacheKey), q.cacheKey);
    }
  }

  lemma UseHitFlies(cfg: Config, l: Local, q: Query, p: Probe, f: Found, r: nat)
    requires FlightOk(l)
    ensures var a := UseHit(cfg, l, q, p, f, r);
      FlightOk(a.local) && (!cfg.readonly && a.refreshPending ==> q.cacheKey in a.local.inflight)
  {
    var l1 := CacheSet(l, q.cacheKey, f.val, MemTtl(cfg, q.key, p, f.ttlMs), Fill(f.origin, f.until, f.readAt, l.now, p.refresh.Always?));
    var l2 := if p.warms then SyncSnapshotWrite(cfg, l1, q, f.val, f.origin) else l1;
    ScheduleFlies(cfg, l2, q, r);
  }

  /** A task moves on without settling, and pending markers are only removed. */
  ghost predicate TaskMoved(l: Local, l': Local) {
    && l'.inflight == l.inflight && |l'.tasks| == |l.tasks|
    && (forall u :: 0 <= u < |l.tasks| ==> l'.tasks[u].q == l.tasks[u].q && (l'.tasks[u].pc.Settled? <==> l.tasks[u].pc.Settled?))
    && l'.pendingUntil.Keys <= l.pendingUntil.Keys
  }

  lemma TaskMovedFlies(l: Local, l': Local)
    requires FlightOk(l) && TaskMoved(l, l')
    ensures FlightOk(l')
  {
    forall k | k in l'.pendingUntil ensures k in l'.inflight { assert k in l'.pendingUntil.Keys; }
    forall t | 0 <= t < |l'.tasks|
      ensures !l'.tasks[t].pc.Settled? <==> l'.tasks[t].q.cacheKey in l'.inflight && l'.inflight[l'.tasks[t].q.cacheKey] == t
    {
      assert l'.tasks[t].q.cacheKey == l.tasks[t].q.cacheKey;
    }
  }

  lemma PersistLeavesTasks(cfg: Config, l: Local, q: Query, v: Val, ttl: int)
    ensures var l' := PersistDashboardCaches(cfg, l, q, v, ttl);
      l'.tasks == l.tasks && l'.inflight == l.inflight && l'.pendingUntil == l.pendingUntil && l'.hints == l.hints && l'.now == l.now
  {
  }

  lemma TaskEndFlies(cfg: Config, s: State, t: nat, o: Outcome)
    requires FlightOk(s.local) && Enabled(cfg, s, TaskEnds(t, o))
    ensures FlightOk(FinishTask(cfg, s, t, o).local)
  {
    var q := s.local.tasks[t].q;
    if !o.Throws? { PersistLeavesTasks(cfg, s.local, q, Tag(o, q.key), cfg.ttlMs(q.key)); }
    TaskMovedFlies(s.local, FinishTask(cfg, s, t, o).local);
  }

  lemma TaskSettleFlies(l: Local, t: nat)
    requires FlightOk(l) && t < |l.tasks| && l.tasks[t].pc.Settling?
    ensures FlightOk(TaskSettled(l, t))
  {
    var k := l.tasks[t].q.cacheKey;
    var l' := TaskSettled(l, t);
    assert l.inflight[k] == t;
    forall u | 0 <= u < |l'.tasks|
      ensures !l'.tasks[u].pc.Settled? <==> l'.tasks[u].q.cacheKey in l'.inflight && l'.inflight[l'.tasks[u].q.cacheKey] == u
    {
      if u != t { assert l'.tasks[u] == l.tasks[u]; }
    }
  }

  /** An answer that promises a refresh has one under way for its text, or in read-only mode a hint of that moment. */
  predicate RefreshUnderWay(cfg: Config, s: State, r: nat)
    requires r < |s.reqs|
  {
    var q := s.reqs[r];
    q.pc.Done? && q.pc.resp.Served? && q.pc.resp.refreshPending ==>
      if cfg.readonly then q.q.cacheKey in s.local.hints && s.local.hints[q.q.cacheKey] == s.local.now == q.pc.at
      else q.q.cacheKey in s.local.inflight
  }

  lemma ProceedFlies(cfg: Config, s: State, r: nat, i: nat)
    requires FlightOk(s.local) && r < |s.reqs|
    ensures FlightOk(Proceed(cfg, s, r, i).local)
    ensures RefreshUnderWay(cfg, Proceed(cfg, s, r, i), r)
  {
    var q := s.reqs[r].q;
    if i >= |Walk(cfg, q.key)| && !cfg.readonly && TrendEndpoint(q.key.endpoint) { EmitPendingFlies(cfg, s.local, q, r); }
  }

  /** The process's state after the events that answer a request. */
  lemma BeginFlies(cfg: Config, s: State, info: Request, q: Query)
    requires FlightOk(s.local)
    ensures FlightOk(Begin(cfg, s, info, q).local)
    ensures RefreshUnderWay(cfg, Begin(cfg, s, info, q), |s.reqs|)
  {
    var r := |s.reqs|;
    var s1 := s.(reqs := s.reqs + [Req(q, info.pipeline, info.bypassParam, Reading(0))]);
    if !Bypasses(cfg, info.pipeline, info.bypassParam) {
      var e := LiveEntry(s1.local, q.cacheKey);
      AfterGetFlies(s1.local, q.cacheKey);
      var s2 := s1.(local := AfterGet(s1.local, q.cacheKey));
      if e.Some? && MemoryCounts(cfg, q.key, e.value) {
        EmitMemoryFlies(cfg, s2.local, q, e.value, r);
      } else {
        ProceedFlies(cfg, s2, r, 0);
      }
    }
  }

  lemma ResumeFlies(cfg: Config, s: State, r: nat)
    requires FlightOk(s.local) && HasAnswer(cfg, s, r)
    ensures FlightOk(Resume(cfg, s, r).local)
    ensures RefreshUnderWay(cfg, Resume(cfg, s, r), r)
  {
    var q := s.reqs[r];
    if ProbeCounts(ProbeOf(cfg, s, r), q.pc.found) {
      UseHitFlies(cfg, s.local, q.q, ProbeOf(cfg, s, r), q.pc.found.value, r);
    } else {
      ProceedFlies(cfg, s, r, q.pc.i + 1);
    }
  }

  lemma LoadFlies(cfg: Config, s: State, e: Event)
    requires FlightOk(s.local) && Enabled(cfg, s, e) && (e.LoaderEnds? || e.JobEnds?)
    ensures FlightOk(Apply(cfg, s, e).local)
  {
    var q := if e.LoaderEnds? then s.reqs[e.r].q else s.jobs[e.j].q;
    if !e.o.Throws? {
      PersistLeavesTasks(cfg, s.local, q, Tag(e.o, q.key), if e.LoaderEnds? then cfg.ttlMs(q.key) else cfg.readonlyTtlMs(q.key));
    }
    TaskMovedFlies(s.local, Apply(cfg, s, e).local);
  }

  predicate OfEnvironment(e: Event) {
    match e
    case ReadTier(_, _, _) | JobStarts(_) | JobChecked(_, _) | JobSettles(_) => true
    case TableWritten(_) | TableWriteLost(_) | SnapWritten(_) | SnapWriteLost(_) => true
    case RowPurged(_) | SnapRemoved(_) | EntryForgotten(_) | HintsConsumed | Tick(_) => true
    case _ => false
  }

  lemma EnvironmentLeavesTasks(cfg: Config, s: State, e: Event)
    requires OfEnvironment(e) && Enabled(cfg, s, e)
    ensures var l' := Apply(cfg, s, e).local;
      l'.tasks == s.local.tasks && l'.inflight == s.local.inflight && l'.pendingUntil == s.local.pendingUntil
  {
  }

  lemma EnvironmentFlies(cfg: Config, s: State, e: Event)
    requires FlightOk(s.local) && OfEnvironment(e) && Enabled(cfg, s, e)
    ensures FlightOk(Apply(cfg, s, e).local)
  {
    EnvironmentLeavesTasks(cfg, s, e);
    TaskMovedFlies(s.local, Apply(cfg, s, e).local);
  }

  lemma TaskStartFlies(l: Local, t: nat)
    requires FlightOk(l) && t < |l.tasks| && l.tasks[t].pc.Queued?
    ensures FlightOk(SetTask(l, t, Running))
  {
    TaskMovedFlies(l, SetTask(l, t, Running));
  }

  lemma StepFlies(cfg: Config, s: State, e: Event)
    requires FlightOk(s.local) && Enabled(cfg, s, e)
    ensures FlightOk(Apply(cfg, s, e).local)
  {
    match e
    case Arrive(info) => BeginFlies(cfg, s, info, QueryOf(info.key));
    case Continue(r) => ResumeFlies(cfg, s, r);
    case LoaderEnds(_, _) => LoadFlies(cfg, s, e);
    case JobEnds(_, _) => LoadFlies(cfg, s, e);
    case TaskStarts(t) => TaskStartFlies(s.local, t);
    case TaskEnds(t, o) => TaskEndFlies(cfg, s, t, o);
    case TaskSettles(t) => TaskSettleFlies(s.local, t);
    case _ => EnvironmentFlies(cfg, s, e);
  }

  lemma {:induction false} RunFlies(cfg: Config, s: State, events: seq<Event>, t: State)
    requires FlightOk(s.local) && Run(cfg, s, events, t)
    ensures FlightOk(t.local)
    decreases |events|
  {
    if events != [] {
      StepFlies(cfg, s, events[0]);
      RunFlies(cfg, Apply(cfg, s, events[0]), events[1..], t);
    }
  }

  predicate SingleFlight(tasks: seq<Task>) {
    forall t, u :: 0 <= t < u < |tasks| && tasks[t].q.cacheKey == tasks[u].q.cacheKey ==>
      tasks[t].pc.Settled? || tasks[u].pc.Settled?
  }

  /**
   * In every reachable state: at most one refresh of a key is unsettled, the Map holds a key exactly when one is, and a
   * pending marker stands only for a key in the Map, so that the end of the refresh, good or bad, clears both.
   */
  lemma RefreshesAreSingleFlight(cfg: Config, now: int, events: seq<Event>, s: State)
    requires Run(cfg, Init(now), events, s)
    ensures SingleFlight(s.local.tasks)
    ensures forall k :: k in s.local.inflight <==>
      exists t :: 0 <= t < |s.local.tasks| && s.local.tasks[t].q.cacheKey == k && !s.local.tasks[t].pc.Settled?
    ensures s.local.pendingUntil.Keys <= s.local.inflight.Keys
  {
    RunFlies(cfg, Init(now), events, s);
    var l := s.local;
    forall k ensures k in l.inflight <==> exists t :: 0 <= t < |l.tasks| && l.tasks[t].q.cacheKey == k && !l.tasks[t].pc.Settled? {
      if k in l.inflight { assert l.tasks[l.inflight[k]].q.cacheKey == k; }
    }
  }

  /** Whenever an arriving request is answered with a pending refresh, that refresh is under way; in read-only mode it is hinted. */
  lemma PendingAnswersAreRefreshed(cfg: Config, now: int, events: seq<Event>, s: State, info: Request)
    requires Run(cfg, Init(now), events, s)
    ensures RefreshUnderWay(cfg, Begin(cfg, s, info, QueryOf(info.key)), |s.reqs|)
  {
    RunFlies(cfg, Init(now), events, s);
    BeginFlies(cfg, s, info, QueryOf(info.key));
  }

  /** The same for a request answered after it has read some tiers. */
  lemma LateAnswersAreRefreshed(cfg: Config, now: int, events: seq<Event>, s: State, r: nat)
    requires Run(cfg, Init(now), events, s) && Enabled(cfg, s, Continue(r))
    ensures RefreshUnderWay(cfg, Resume(cfg, s, r), r)
  {
    RunFlies(cfg, Init(now), events, s);
    ResumeFlies(cfg, s, r);
  }

  /**
   * Ordering a refresh, in every reachable state outside read-only mode: it adds one for exactly this request when its text
   * has none under way, and otherwise nothing; then the text has one under way, and ordering again changes nothing.
   */
  lemma OrderingTwiceIsOrderingOnce(cfg: Config, now: int, events: seq<Event>, s: State, q: Query, owner: nat, again: nat)
    requires Run(cfg, Init(now), events, s) && !cfg.readonly
    ensures var l, l' := s.local, Schedule(cfg, s.local, q, owner);
      && l'.tasks == (if RefreshRuns(l, q.cacheKey) then l.tasks else l.tasks + [Task(q, Queued, owner)])
      && RefreshRuns(l', q.cacheKey) && (forall t :: t != q.cacheKey ==> (RefreshRuns(l', t) <==> RefreshRuns(l, t)))
      && Schedule(cfg, l', q, again) == l'
  {
    RunFlies(cfg, Init(now), events, s);
    ScheduleFlies(cfg, s.local, q, owner);
    RunsIffInflight(s.local);
    RunsIffInflight(Schedule(cfg, s.local, q, owner));
  }

  /** Some refresh of this text is not settled. */
  ghost predicate RefreshRuns(l: Local, t: string) {
    exists i :: 0 <= i < |l.tasks| && l.tasks[i].q.cacheKey == t && !l.tasks[i].pc.Settled?
  }

  lemma RunsIffInflight(l: Local)
    requires InflightOk(l)
    ensures forall t :: RefreshRuns(l, t) <==> t in l.inflight
  {
    forall t ensures RefreshRuns(l, t) <==> t in l.inflight {
      if t in l.inflight { assert l.tasks[l.inflight[t]].q.cacheKey == t; }
    }
  }

  /** The end of a refresh, after success and after failure, frees its text and no other, so that it can be refreshed again. */
  lemma SettlingFreesTheKey(cfg: Config, now: int, events: seq<Event>, s: State, t: nat)
    requires Run(cfg, Init(now), events, s) && Enabled(cfg, s, TaskSettles(t))
    ensures var l, l', k := s.local, Apply(cfg, s, TaskSettles(t)).local, s.local.tasks[t].q.cacheKey;
      && RefreshRuns(l, k) && !RefreshRuns(l', k) && k !in l'.pendingUntil
      && (forall j :: j != k ==> (RefreshRuns(l', j) <==> RefreshRuns(l, j)))
      && (forall j :: j != k && j in l.pendingUntil ==> j in l'.pendingUntil && l'.pendingUntil[j] == l.pendingUntil[j])
  {
    RunFlies(cfg, Init(now), events, s);
    TaskSettleFlies(s.local, t);
    RunsIffInflight(s.local);
    RunsIffInflight(TaskSettled(s.local, t));
  }

  /** What writing through does to the process. */
  lemma PersistSets(cfg: Config, l: Local, q: Query, v: Val, ttl: int)
    ensures var l' := PersistDashboardCaches(cfg, l, q, v, ttl);
      && l'.now == l.now && l'.mem == l.mem[q.cacheKey := MemEntry(v, l.now + ttl, ttl, FreshFill(l, ttl))]
      && l'.tableWrites == l.tableWrites + (if cfg.tableEnabled then [TableWrite(q, v)] else [])
      && l'.snapWrites == l.snapWrites
        + (if ShouldPersistSnapshot(cfg, q.key, v) then [SnapWrite(q, v, l.now + cfg.snapTtlMs(q.key), l.now)] else [])
  {
  }

  /** And a refresh that has loaded. */
  lemma RefreshSets(cfg: Config, s: State, t: nat, o: Outcome)
    requires Enabled(cfg, s, TaskEnds(t, o)) && !o.Throws?
    ensures var q, l := s.local.tasks[t].q, s.local;
      var l', p := Apply(cfg, s, TaskEnds(t, o)).local, PersistDashboardCaches(cfg, l, q, Tag(o, q.key), cfg.ttlMs(q.key));
      && l'.now == p.now && l'.mem == p.mem && l'.tableWrites == p.tableWrites && l'.snapWrites == p.snapWrites
      && q.cacheKey !in l'.pendingUntil
  {
  }

  /**
   * What a refresh loads is what its text is answered with from then on, until its time to live is over, and is sent to the
   * table and to the snapshots just where these are on and take it; what other texts hold is untouched, and the page's
   * marker is gone.
   */
  lemma LoadedValueIsServed(cfg: Config, s: State, t: nat, o: Outcome, d: nat, j: string)
    requires Enabled(cfg, s, TaskEnds(t, o)) && !o.Throws?
    ensures var q := s.local.tasks[t].q;
      var v, ttl, l, l' := Tag(o, q.key), cfg.ttlMs(q.key), s.local, Apply(cfg, s, TaskEnds(t, o)).local;
      && LiveEntry(l'.(now := l.now + d), q.cacheKey)
        == (if d <= ttl then Some(MemEntry(v, l.now + ttl, ttl, FreshFill(l, ttl))) else None)
      && (j != q.cacheKey ==> LiveEntry(l', j) == LiveEntry(l, j))
      && l'.tableWrites == l.tableWrites + (if cfg.tableEnabled then [TableWrite(q, v)] else [])
      && l'.snapWrites == l.snapWrites
        + (if ShouldPersistSnapshot(cfg, q.key, v) then [SnapWrite(q, v, l.now + cfg.snapTtlMs(q.key), l.now)] else [])
      && q.cacheKey !in l'.pendingUntil
  {
    var q := s.local.tasks[t].q;
    RefreshSets(cfg, s, t, o);
    PersistSets(cfg, s.local, q, Tag(o, q.key), cfg.ttlMs(q.key));
  }

  // ---------------------------------------------------------------- how long an entry stays

  /** The step neither sets nor forgets the entry of this text. */
  predicate Spares(cfg: Config, s: State, e: Event, t: string)
    requires Enabled(cfg, s, e)
  {
    match e
    case Continue(r) => s.reqs[r].q.cacheKey != t || !ProbeCounts(ProbeOf(cfg, s, r), s.reqs[r].pc.found)
    case LoaderEnds(r, o) => s.reqs[r].q.cacheKey != t || o.Throws?
    case TaskEnds(i, o) => s.local.tasks[i].q.cacheKey != t || o.Throws?
    case JobEnds(j, o) => s.jobs[j].q.cacheKey != t || o.Throws?
    case EntryForgotten(u) => u != t
    case _ => true
  }

  /** No step of the run does. */
  ghost predicate AllSpare(cfg: Config, s: State, events: seq<Event>, t: string)
    decreases |events|
  {
    events != [] && Enabled(cfg, s, events[0]) ==>
      Spares(cfg, s, events[0], t) && AllSpare(cfg, Apply(cfg, s, events[0]), events[1..], t)
  }

  predicate Holds(l: Local, t: string, e: MemEntry) { t in l.mem && l.mem[t] == e }

  lemma AfterGetHolds(l: Local, u: string, t: string, e: MemEntry)
    ensures AfterGet(l, u).now == l.now && (Holds(l, t, e) && l.now <= e.exp ==> Holds(AfterGet(l, u), t, e))
  {
  }

  lemma AnswerKeeps(cfg: Config, l: Local, q: Query, e: MemEntry, r: nat)
    ensures MemoryAnswer(cfg, l, q, e, r).local.mem == l.mem && MemoryAnswer(cfg, l, q, e, r).local.now == l.now
    ensures EmitMemory(cfg, l, q, e, r).local.mem == l.mem && EmitMemory(cfg, l, q, e, r).local.now == l.now
  {
  }

  lemma EmitPendingHolds(cfg: Config, l: Local, q: Query, owner: nat, t: string, e: MemEntry)
    ensures var a := EmitTrendPending(cfg, l, q, owner);
      a.local.now == l.now && (Holds(l, t, e) && l.now <= e.exp ==> Holds(a.local, t, e))
  {
    var l1 := if q.cacheKey in l.inflight then l else Schedule(cfg, l, q, owner);
    AfterGetHolds(l1, q.cacheKey, t, e);
    var live := LiveEntry(l1, q.cacheKey);
    if live.Some? { AnswerKeeps(cfg, AfterGet(l1, q.cacheKey), q, live.value, owner); }
  }

  lemma ProceedHolds(cfg: Config, s: State, r: nat, i: nat, t: string, e: MemEntry)
    requires r < |s.reqs|
    ensures var s' := Proceed(cfg, s, r, i);
      s'.local.now == s.local.now && (Holds(s.local, t, e) && s.local.now <= e.exp ==> Holds(s'.local, t, e))
  {
    EmitPendingHolds(cfg, s.local, s.reqs[r].q, r, t, e);
  }

  lemma BeginHolds(cfg: Config, s: State, info: Request, q: Query, t: string, e: MemEntry)
    ensures var s' := Begin(cfg, s, info, q);
      s'.local.now == s.local.now && (Holds(s.local, t, e) && s.local.now <= e.exp ==> Holds(s'.local, t, e))
  {
    if !Bypasses(cfg, info.pipeline, info.bypassParam) {
      var s1 := s.(reqs := s.reqs + [Req(q, info.pipeline, info.bypassParam, Reading(0))]);
      var live, s2 := LiveEntry(s.local, q.cacheKey), s1.(local := AfterGet(s1.local, q.cacheKey));
      AfterGetHolds(s.local, q.cacheKey, t, e);
      if live.Some? && MemoryCounts(cfg, q.key, live.value) {
        AnswerKeeps(cfg, s2.local, q, live.value, |s.reqs|);
      } else {
        ProceedHolds(cfg, s2, |s.reqs|, 0, t, e);
      }
    }
  }

  lemma ResumeHolds(cfg: Config, s: State, r: nat, t: string, e: MemEntry)
    requires HasAnswer(cfg, s, r)
    ensures var s' := Resume(cfg, s, r);
      && s'.local.now == s.local.now
      && (Holds(s.local, t, e) && s.local.now <= e.exp && Spares(cfg, s, Continue(r), t) ==> Holds(s'.local, t, e))
  {
    if !ProbeCounts(ProbeOf(cfg, s, r), s.reqs[r].pc.found) { ProceedHolds(cfg, s, r, s.reqs[r].pc.i + 1, t, e); }
  }

  lemma PersistHolds(cfg: Config, l: Local, q: Query, v: Val, ttl: int, t: string, e: MemEntry)
    ensures var l' := PersistDashboardCaches(cfg, l, q, v, ttl); l'.now == l.now && (Holds(l, t, e) && q.cacheKey != t ==> Holds(l', t, e))
  {
  }

  lemma LoadHolds(cfg: Config, s: State, e: Event, t: string, entry: MemEntry)
    requires Enabled(cfg, s, e) && (e.LoaderEnds? || e.TaskEnds? || e.JobEnds?)
    ensures var s' := Apply(cfg, s, e);
      s'.local.now == s.local.now && (Holds(s.local, t, entry) && Spares(cfg, s, e, t) ==> Holds(s'.local, t, entry))
  {
    var q := if e.LoaderEnds? then s.reqs[e.r].q else if e.TaskEnds? then s.local.tasks[e.t].q else s.jobs[e.j].q;
    if !e.o.Throws? {
      PersistHolds(cfg, s.local, q, Tag(e.o, q.key), if e.JobEnds? then cfg.readonlyTtlMs(q.key) else cfg.ttlMs(q.key), t, entry);
    }
  }

  lemma OtherHolds(cfg: Config, s: State, e: Event, t: string, entry: MemEntry)
    requires Enabled(cfg, s, e) && (OfEnvironment(e) || e.TaskStarts? || e.TaskSettles?)
    ensures var s' := Apply(cfg, s, e);
      s'.local.now >= s.local.now && (Holds(s.local, t, entry) && Spares(cfg, s, e, t) ==> Holds(s'.local, t, entry))
  {
  }

  lemma StepHolds(cfg: Config, s: State, e: Event, t: string, entry: MemEntry)
    requires Enabled(cfg, s, e)
    ensures var s' := Apply(cfg, s, e);
      && s'.local.now >= s.local.now
      && (Holds(s.local, t, entry) && s.local.now <= entry.exp && Spares(cfg, s, e, t) ==> Holds(s'.local, t, entry))
  {
    match e
    case Arrive(info) => BeginHolds(cfg, s, info, QueryOf(info.key), t, entry);
    case Continue(r) => ResumeHolds(cfg, s, r, t, entry);
    case LoaderEnds(_, _) => LoadHolds(cfg, s, e, t, entry);
    case TaskEnds(_, _) => LoadHolds(cfg, s, e, t, entry);
    case JobEnds(_, _) => LoadHolds(cfg, s, e, t, entry);
    case _ => OtherHolds(cfg, s, e, t, entry);
  }

  lemma {:induction false} RunHolds(cfg: Config, s: State, events: seq<Event>, s': State, t: string, entry: MemEntry)
    requires Run(cfg, s, events, s')
    ensures s.local.now <= s'.local.now
    ensures Holds(s.local, t, entry) && AllSpare(cfg, s, events, t) && s'.local.now <= entry.exp ==> Holds(s'.local, t, entry)
    decreases |events|
  {
    if events != [] {
      StepHolds(cfg, s, events[0], t, entry);
      RunHolds(cfg, Apply(cfg, s, events[0]), events[1..], s', t, entry);
    }
  }

  /** The arriving request is answered at once with this value, and no loader is called. */
  predicate ServedFromMemory(cfg: Config, s: State, info: Request, q: Query, v: Val) {
    var s' := Begin(cfg, s, info, q);
    && |s'.reqs| == |s.reqs| + 1 && s'.reqs[|s.reqs|].pc.Done? && s'.reqs[|s.reqs|].pc.resp.Served?
    && s'.reqs[|s.reqs|].pc.resp.val == v && s'.calls == s.calls
  }

  lemma LiveEntryAnswers(cfg: Config, s: State, info: Request, q: Query)
    requires !Bypasses(cfg, info.pipeline, info.bypassParam)
    requires LiveEntry(s.local, q.cacheKey).Some? && MemoryCounts(cfg, q.key, s.local.mem[q.cacheKey])
    ensures ServedFromMemory(cfg, s, info, q, s.local.mem[q.cacheKey].val)
  {
  }

  /**
   * What a refresh loads is what its text is answered with, in every run from then on, until its time to live is over or the
   * text is set or forgotten: any page that asks for it is served from memory with that value, without a tier being read.
   */
  lemma LoadedValueStays(cfg: Config, s: State, t: nat, o: Outcome, events: seq<Event>, s': State, info: Request)
    requires Enabled(cfg, s, TaskEnds(t, o)) && !o.Throws?
    requires Run(cfg, Apply(cfg, s, TaskEnds(t, o)), events, s')
    requires AllSpare(cfg, Apply(cfg, s, TaskEnds(t, o)), events, s.local.tasks[t].q.cacheKey)
    requires s'.local.now <= s.local.now + cfg.ttlMs(s.local.tasks[t].q.key)
    requires QueryOf(info.key) == s.local.tasks[t].q && !Bypasses(cfg, info.pipeline, info.bypassParam)
    ensures var q := s.local.tasks[t].q;
      var v, ttl := Tag(o, q.key), cfg.ttlMs(q.key);
      var e := MemEntry(v, s.local.now + ttl, ttl, FreshFill(s.local, ttl));
      LiveEntry(s'.local, q.cacheKey) == Some(e) && (MemoryCounts(cfg, q.key, e) ==> ServedFromMemory(cfg, s', info, q, v))
  {
    var q := s.local.tasks[t].q;
    var v, ttl := Tag(o, q.key), cfg.ttlMs(q.key);
    var e := MemEntry(v, s.local.now + ttl, ttl, FreshFill(s.local, ttl));
    LoadedValueIsServed(cfg, s, t, o, 0, q.cacheKey);
    RefreshSets(cfg, s, t, o);
    PersistSets(cfg, s.local, q, v, ttl);
    RunHolds(cfg, Apply(cfg, s, TaskEnds(t, o)), events, s', q.cacheKey, e);
    if MemoryCounts(cfg, q.key, e) { LiveEntryAnswers(cfg, s', info, q); }
  }

  // ---------------------------------------------------------------- at most one precompute job a key

  ghost predicate JobsOk(s: State) {
    && (forall k :: k in s.jobInflight ==> s.jobInflight[k] < |s.jobs| && s.jobs[s.jobInflight[k]].q.cacheKey == k)
    && (forall j :: 0 <= j < |s.jobs| ==>
          (!s.jobs[j].pc.JobDone? <==> s.jobs[j].q.cacheKey in s.jobInflight && s.jobInflight[s.jobs[j].q.cacheKey] == j))
  }

  /** Only request `r` moves, and the loader is called for it or not at all. */
  ghost predicate MovesOne(s: State, s': State, r: nat) {
    && s'.jobs == s.jobs && s'.jobInflight == s.jobInflight && |s'.reqs| == |s.reqs| && r < |s.reqs|
    && s'.reqs[r].q == s.reqs[r].q && s'.reqs[r].pipeline == s.reqs[r].pipeline
    && (forall q :: 0 <= q < |s.reqs| && q != r ==> s'.reqs[q] == s.reqs[q])
    && (s'.reqs[r].pc.Loading? || s'.calls == s.calls)
  }

  lemma ReplyMovesOne(s: State, r: nat, a: Answer)
    requires r < |s.reqs|
    ensures MovesOne(s, Reply(s, r, a), r)
  {
  }

  lemma ProceedLeavesJobs(cfg: Config, s: State, r: nat, i: nat)
    requires r < |s.reqs|
    ensures MovesOne(s, Proceed(cfg, s, r, i), r)
  {
    var q := s.reqs[r].q;
    if i >= |Walk(cfg, q.key)| {
      if cfg.readonly {
        ReplyMovesOne(s, r, Answer(Hint(s.local, q.cacheKey), MissShape, true, None));
      } else if TrendEndpoint(q.key.endpoint) {
        ReplyMovesOne(s, r, EmitTrendPending(cfg, s.local, q, r));
      }
    }
  }

  lemma BeginLeavesJobs(cfg: Config, s: State, info: Request, q: Query)
    ensures var s' := Begin(cfg, s, info, q);
      s'.jobs == s.jobs && s'.jobInflight == s.jobInflight && |s'.reqs| == |s.reqs| + 1
      && s'.reqs[|s.reqs|].q == q && s'.reqs[|s.reqs|].pipeline == info.pipeline
      && (forall i :: 0 <= i < |s.reqs| ==> s'.reqs[i] == s.reqs[i])
  {
    var s1 := s.(reqs := s.reqs + [Req(q, info.pipeline, info.bypassParam, Reading(0))]);
    ProceedLeavesJobs(cfg, s1.(local := AfterGet(s1.local, q.cacheKey)), |s.reqs|, 0);
  }

  lemma ResumeLeavesJobs(cfg: Config, s: State, r: nat)
    requires HasAnswer(cfg, s, r)
    ensures MovesOne(s, Resume(cfg, s, r), r)
  {
    ProceedLeavesJobs(cfg, s, r, s.reqs[r].pc.i + 1);
  }

  predicate OfJobs(e: Event) { e.JobStarts? || e.JobChecked? || e.JobEnds? || e.JobSettles? }

  lemma OthersLeaveJobs(cfg: Config, s: State, e: Event)
    requires !OfJobs(e) && !e.Arrive? && !e.Continue? && Enabled(cfg, s, e)
    ensures Apply(cfg, s, e).jobs == s.jobs && Apply(cfg, s, e).jobInflight == s.jobInflight
  {
  }

  lemma SettleJob(s: State, j: nat)
    requires JobsOk(s) && j < |s.jobs| && s.jobs[j].pc.JobSettling?
    ensures JobsOk(SetJob(s, j, JobDone).(jobInflight := s.jobInflight - {s.jobs[j].q.cacheKey}))
  {
    var s' := SetJob(s, j, JobDone).(jobInflight := s.jobInflight - {s.jobs[j].q.cacheKey});
    assert s.jobInflight[s.jobs[j].q.cacheKey] == j;
    forall i | 0 <= i < |s'.jobs|
      ensures !s'.jobs[i].pc.JobDone? <==> s'.jobs[i].q.cacheKey in s'.jobInflight && s'.jobInflight[s'.jobs[i].q.cacheKey] == i
    {
      if i != j { assert s'.jobs[i] == s.jobs[i]; }
    }
  }

  lemma StartJobOk(s: State, q: Query)
    requires JobsOk(s)
    ensures JobsOk(StartJob(s, q))
  {
  }

  lemma SameJobs(s: State, s': State)
    requires JobsOk(s) && s'.jobs == s.jobs && s'.jobInflight == s.jobInflight
    ensures JobsOk(s')
  {
  }

  lemma CheckedJobOk(s: State, j: nat, isFresh: bool)
    requires JobsOk(s) && j < |s.jobs| && s.jobs[j].pc.Checking?
    ensures JobsOk(CheckJob(s, j, isFresh))
  {
    JobMoves(s, CheckJob(s, j, isFresh), j);
  }

  lemma FinishedJobOk(cfg: Config, s: State, j: nat, o: Outcome)
    requires JobsOk(s) && j < |s.jobs| && s.jobs[j].pc.JobLoading?
    ensures JobsOk(FinishJob(cfg, s, j, o))
  {
    JobMoves(s, FinishJob(cfg, s, j, o), j);
  }

  lemma StepJobs(cfg: Config, s: State, e: Event)
    requires JobsOk(s) && Enabled(cfg, s, e)
    ensures JobsOk(Apply(cfg, s, e))
  {
    match e
    case JobSettles(j) => SettleJob(s, j);
    case JobStarts(k) => StartJobOk(s, QueryOf(k));
    case JobChecked(j, isFresh) => CheckedJobOk(s, j, isFresh);
    case JobEnds(j, o) => FinishedJobOk(cfg, s, j, o);
    case Arrive(info) =>
      BeginLeavesJobs(cfg, s, info, QueryOf(info.key));
      SameJobs(s, Begin(cfg, s, info, QueryOf(info.key)));
    case Continue(r) => ResumeLeavesJobs(cfg, s, r); SameJobs(s, Resume(cfg, s, r));
    case _ => OthersLeaveJobs(cfg, s, e); SameJobs(s, Apply(cfg, s, e));
  }

  lemma JobMoves(s: State, s': State, j: nat)
    requires JobsOk(s) && j < |s.jobs| && !s.jobs[j].pc.JobDone? && s'.jobInflight == s.jobInflight
    requires |s'.jobs| == |s.jobs| && s'.jobs[j].q == s.jobs[j].q && !s'.jobs[j].pc.JobDone?
    requires forall i :: 0 <= i < |s.jobs| && i != j ==> s'.jobs[i] == s.jobs[i]
    ensures JobsOk(s')
  {
  }

  lemma {:induction false} RunJobs(cfg: Config, s: State, events: seq<Event>, t: State)
    requires JobsOk(s) && Run(cfg, s, events, t)
    ensures JobsOk(t)
    decreases |events|
  {
    if events != [] {
      StepJobs(cfg, s, events[0]);
      RunJobs(cfg, Apply(cfg, s, events[0]), events[1..], t);
    }
  }

  /** However rounds of jobs overlap, at most one job of a key is unfinished, and the Map holds its key exactly so long. */
  lemma JobsAreSingleFlight(cfg: Config, now: int, events: seq<Event>, s: State)
    requires Run(cfg, Init(now), events, s)
    ensures forall i, j :: 0 <= i < j < |s.jobs| && s.jobs[i].q.cacheKey == s.jobs[j].q.cacheKey ==>
      s.jobs[i].pc.JobDone? || s.jobs[j].pc.JobDone?
    ensures forall k :: k in s.jobInflight <==> exists j :: 0 <= j < |s.jobs| && s.jobs[j].q.cacheKey == k && !s.jobs[j].pc.JobDone?
  {
    RunJobs(cfg, Init(now), events, s);
    forall k ensures k in s.jobInflight <==> exists j :: 0 <= j < |s.jobs| && s.jobs[j].q.cacheKey == k && !s.jobs[j].pc.JobDone? {
      if k in s.jobInflight { assert s.jobs[s.jobInflight[k]].q.cacheKey == k; }
    }
  }

  // ---------------------------------------------------------------- read-only mode

  /** A loader runs only for a pipeline request or a precompute job; nothing is refreshed in the background. */
  ghost predicate QuietOk(s: State) {
    && s.local.tasks == [] && s.local.inflight == map[]
    && (forall i :: 0 <= i < |s.calls| ==> CallOk(s, s.calls[i]))
    && (forall r :: 0 <= r < |s.reqs| && s.reqs[r].pc.Loading? ==> s.reqs[r].pipeline)
  }

  predicate CallOk(s: State, c: Caller) {
    match c
    case ForRequest(r) => r < |s.reqs| && s.reqs[r].pipeline
    case ForTask(_) => false
    case ForJob(j) => j < |s.jobs|
  }

  /** The step keeps requests, adds at most one call, and that is for a pipeline request or a job. */
  ghost predicate QuietStep(s: State, s': State) {
    && |s.reqs| <= |s'.reqs| && |s.jobs| <= |s'.jobs|
    && (forall r :: 0 <= r < |s.reqs| ==> s'.reqs[r].pipeline == s.reqs[r].pipeline)
    && (forall r :: 0 <= r < |s'.reqs| && s'.reqs[r].pc.Loading? ==>
          s'.reqs[r].pipeline || (r < |s.reqs| && s.reqs[r].pc.Loading?))
    && (s'.calls == s.calls || exists c :: CallOk(s', c) && s'.calls == s.calls + [c])
    && s'.local.tasks == s.local.tasks && s'.local.inflight == s.local.inflight
  }

  lemma QuietStepKeeps(s: State, s': State)
    requires QuietOk(s) && QuietStep(s, s')
    ensures QuietOk(s')
  {
    forall i | 0 <= i < |s'.calls| ensures CallOk(s', s'.calls[i]) {
      if i < |s.calls| { assert CallOk(s, s.calls[i]) && s'.calls[i] == s.calls[i]; }
    }
    forall r | 0 <= r < |s'.reqs| && s'.reqs[r].pc.Loading? ensures s'.reqs[r].pipeline {
      if r < |s.reqs| { assert s'.reqs[r].pipeline == s.reqs[r].pipeline; }
    }
  }

  lemma ProceedQuiet(cfg: Config, s: State, r: nat, i: nat)
    requires cfg.readonly && r < |s.reqs|
    ensures var s' := Proceed(cfg, s, r, i);
      s'.calls == s.calls && s'.local.tasks == s.local.tasks && s'.local.inflight == s.local.inflight && !s'.reqs[r].pc.Loading?
  {
  }

  lemma BeginQuiet(cfg: Config, s: State, info: Request, q: Query)
    requires cfg.readonly
    ensures QuietStep(s, Begin(cfg, s, info, q))
  {
    var r := |s.reqs|;
    var s' := Begin(cfg, s, info, q);
    BeginLeavesJobs(cfg, s, info, q);
    if Bypasses(cfg, info.pipeline, info.bypassParam) {
      assert CallOk(s', ForRequest(r)) && s'.calls == s.calls + [ForRequest(r)];
    } else {
      var s1 := s.(reqs := s.reqs + [Req(q, info.pipeline, info.bypassParam, Reading(0))]);
      ProceedQuiet(cfg, s1.(local := AfterGet(s1.local, q.cacheKey)), r, 0);
    }
  }

  lemma UseHitQuiet(cfg: Config, l: Local, q: Query, p: Probe, f: Found, r: nat)
    requires cfg.readonly
    ensures UseHit(cfg, l, q, p, f, r).local.tasks == l.tasks && UseHit(cfg, l, q, p, f, r).local.inflight == l.inflight
  {
  }

  lemma AnswerQuiet(s: State, r: nat, a: Answer)
    requires r < |s.reqs| && a.local.tasks == s.local.tasks && a.local.inflight == s.local.inflight
    ensures QuietStep(s, Reply(s, r, a))
  {
  }

  lemma ResumeQuiet(cfg: Config, s: State, r: nat)
    requires cfg.readonly && HasAnswer(cfg, s, r)
    ensures QuietStep(s, Resume(cfg, s, r))
  {
    var q := s.reqs[r];
    var p := ProbeOf(cfg, s, r);
    if ProbeCounts(p, q.pc.found) {
      UseHitQuiet(cfg, s.local, q.q, p, q.pc.found.value, r);
      AnswerQuiet(s, r, UseHit(cfg, s.local, q.q, p, q.pc.found.value, r));
    } else {
      ProceedLeavesJobs(cfg, s, r, q.pc.i + 1);
      ProceedQuiet(cfg, s, r, q.pc.i + 1);
    }
  }

  lemma LoadQuiet(cfg: Config, s: State, e: Event)
    requires Enabled(cfg, s, e) && (e.LoaderEnds? || e.JobEnds?)
    ensures QuietStep(s, Apply(cfg, s, e))
  {
    var q := if e.LoaderEnds? then s.reqs[e.r].q else s.jobs[e.j].q;
    if !e.o.Throws? {
      PersistLeavesTasks(cfg, s.local, q, Tag(e.o, q.key), if e.LoaderEnds? then cfg.ttlMs(q.key) else cfg.readonlyTtlMs(q.key));
    }
  }

  lemma CheckQuiet(cfg: Config, s: State, j: nat, isFresh: bool)
    requires Enabled(cfg, s, JobChecked(j, isFresh))
    ensures QuietStep(s, CheckJob(s, j, isFresh))
  {
    var s' := CheckJob(s, j, isFresh);
    assert CallOk(s', ForJob(j));
  }

  lemma EnvironmentQuiet(cfg: Config, s: State, e: Event)
    requires OfEnvironment(e) && !e.JobChecked? && Enabled(cfg, s, e)
    ensures QuietStep(s, Apply(cfg, s, e))
  {
  }

  lemma StepQuiet(cfg: Config, s: State, e: Event)
    requires cfg.readonly && QuietOk(s) && Enabled(cfg, s, e)
    ensures QuietOk(Apply(cfg, s, e))
  {
    assert |s.local.tasks| == 0;
    match e
    case Arrive(info) =>
      BeginQuiet(cfg, s, info, QueryOf(info.key));
      QuietStepKeeps(s, Begin(cfg, s, info, QueryOf(info.key)));
    case Continue(r) => ResumeQuiet(cfg, s, r); QuietStepKeeps(s, Resume(cfg, s, r));
    case LoaderEnds(_, _) => LoadQuiet(cfg, s, e); QuietStepKeeps(s, Apply(cfg, s, e));
    case JobEnds(_, _) => LoadQuiet(cfg, s, e); QuietStepKeeps(s, Apply(cfg, s, e));
    case JobChecked(j, isFresh) => CheckQuiet(cfg, s, j, isFresh); QuietStepKeeps(s, Apply(cfg, s, e));
    case TaskStarts(_) | TaskEnds(_, _) | TaskSettles(_) =>
    case _ => EnvironmentQuiet(cfg, s, e); QuietStepKeeps(s, Apply(cfg, s, e));
  }

  lemma {:induction false} RunQuiet(cfg: Config, s: State, events: seq<Event>, t: State)
    requires cfg.readonly && QuietOk(s) && Run(cfg, s, events, t)
    ensures QuietOk(t)
    decreases |events|
  {
    if events != [] {
      StepQuiet(cfg, s, events[0]);
      RunQuiet(cfg, Apply(cfg, s, events[0]), events[1..], t);
    }
  }

  /** In read-only mode, in every run, no loader is ever called for a request of a page, neither directly nor in the background. */
  lemma ReadonlyNeverLoads(cfg: Config, now: int, events: seq<Event>, s: State, i: nat)
    requires cfg.readonly && Run(cfg, Init(now), events, s) && i < |s.calls|
    ensures s.calls[i].ForJob? || (s.calls[i].ForRequest? && s.calls[i].r < |s.reqs| && s.reqs[s.calls[i].r].pipeline)
    ensures s.local.tasks == []
  {
    RunQuiet(cfg, Init(now), events, s);
    assert CallOk(s, s.calls[i]);
  }
}
