/**
 * Where the values in the tiers and in the answers come from, in every run over keys that the text tells apart: the tiers
 * are found by the text of a key.
 */
module DashboardProvenance {
  import opened Options
  import opened CacheKey
  import opened DashboardMemory
  import opened DashboardCache

  predicate FromLoader(v: Val) { v.Loaded? || v.LoadedNull? }

  /** Produced by a loader for exactly this key. */
  predicate Exact(k: Key, v: Val) { FromLoader(v) && v.forKey == k }

  /** A trend of key `k` may be given what was loaded for `j`, through the dimension read. */
  ghost predicate SharesDims(ks: iset<Key>, cfg: Config, j: Key, k: Key) {
    j in ks && TrendEndpoint(k.endpoint) && SameDims(j, k) && cfg.tableEnabled && cfg.maxStaleMs(k) > 0
  }

  /** Produced by a loader for this key, or for one of which a trend shares the dimensions. */
  ghost predicate Provenance(ks: iset<Key>, cfg: Config, k: Key, v: Val) {
    FromLoader(v) && (v.forKey == k || SharesDims(ks, cfg, v.forKey, k))
  }

  ghost predicate SnapWorthy(ks: iset<Key>, cfg: Config, k: Key, v: Val) {
    Provenance(ks, cfg, k, v) && v.Loaded? && (TrendEndpoint(k.endpoint) ==> !v.empty)
  }

  /** An answer: a loader's value, or outside read-only mode the trend placeholder, or in it the miss shape. */
  ghost predicate AnswerOk(ks: iset<Key>, cfg: Config, k: Key, v: Val) {
    || Provenance(ks, cfg, k, v)
    || (v == Placeholder && TrendEndpoint(k.endpoint) && !cfg.readonly)
    || (v == MissShape && cfg.readonly)
  }

  // ---------------------------------------------------------------- the process

  /** What memory holds under the text of a request was loaded for that request. */
  ghost predicate MemOk(ks: KeySet, cfg: Config, l: Local) {
    forall q :: Good(ks, q) && q.cacheKey in l.mem ==> Provenance(ks, cfg, q.key, l.mem[q.cacheKey].val)
  }

  ghost predicate TableWritesOk(ks: KeySet, l: Local) {
    forall i :: 0 <= i < |l.tableWrites| ==> Good(ks, l.tableWrites[i].q) && Exact(l.tableWrites[i].q.key, l.tableWrites[i].val)
  }

  ghost predicate SnapWritesOk(ks: KeySet, cfg: Config, l: Local) {
    forall i :: 0 <= i < |l.snapWrites| ==>
      Good(ks, l.snapWrites[i].q) && SnapWorthy(ks, cfg, l.snapWrites[i].q.key, l.snapWrites[i].val)
  }

  ghost predicate TasksGood(ks: KeySet, l: Local) { forall t :: 0 <= t < |l.tasks| ==> Good(ks, l.tasks[t].q) }

  ghost predicate LocalOk(ks: KeySet, cfg: Config, l: Local) {
    MemOk(ks, cfg, l) && TableWritesOk(ks, l) && SnapWritesOk(ks, cfg, l) && TasksGood(ks, l)
  }

  lemma SyncOk(ks: KeySet, cfg: Config, l: Local, q: Query, v: Val, origin: int)
    requires LocalOk(ks, cfg, l) && Good(ks, q) && Provenance(ks, cfg, q.key, v)
    ensures LocalOk(ks, cfg, SyncSnapshotWrite(cfg, l, q, v, origin))
  {
  }

  /** Setting an entry touches one request only: another one has another text. */
  lemma SetOk(ks: KeySet, cfg: Config, l: Local, q: Query, v: Val, ttl: int, fill: Fill)
    requires LocalOk(ks, cfg, l) && Good(ks, q) && Provenance(ks, cfg, q.key, v)
    ensures LocalOk(ks, cfg, CacheSet(l, q.cacheKey, v, ttl, fill))
  {
    var l' := CacheSet(l, q.cacheKey, v, ttl, fill);
    forall p | Good(ks, p) && p.cacheKey in l'.mem ensures Provenance(ks, cfg, p.key, l'.mem[p.cacheKey].val) {
      if p.cacheKey == q.cacheKey { OneOwner(ks, p, q); }
    }
  }

  lemma PersistOk(ks: KeySet, cfg: Config, l: Local, q: Query, v: Val, ttl: int)
    requires LocalOk(ks, cfg, l) && Good(ks, q) && Exact(q.key, v)
    ensures LocalOk(ks, cfg, PersistDashboardCaches(cfg, l, q, v, ttl))
  {
    SetOk(ks, cfg, l, q, v, ttl, FreshFill(l, ttl));
    var l1 := CacheSet(l, q.cacheKey, v, ttl, FreshFill(l, ttl));
    var l2 := if cfg.tableEnabled then l1.(tableWrites := l1.tableWrites + [TableWrite(q, v)]) else l1;
    SyncOk(ks, cfg, l2, q, v, l.now);
  }

  lemma ScheduleOk(ks: KeySet, cfg: Config, l: Local, q: Query, owner: nat)
    requires LocalOk(ks, cfg, l) && Good(ks, q)
    ensures LocalOk(ks, cfg, Schedule(cfg, l, q, owner)) && Schedule(cfg, l, q, owner).mem == l.mem
  {
  }

  lemma EmitMemoryOk(ks: KeySet, cfg: Config, l: Local, q: Query, e: MemEntry, owner: nat)
    requires LocalOk(ks, cfg, l) && Good(ks, q) && Provenance(ks, cfg, q.key, e.val)
    ensures LocalOk(ks, cfg, EmitMemory(cfg, l, q, e, owner).local) && EmitMemory(cfg, l, q, e, owner).val == e.val
  {
    SyncOk(ks, cfg, l, q, e.val, e.fill.origin);
    ScheduleOk(ks, cfg, SyncSnapshotWrite(cfg, l, q, e.val, e.fill.origin), q, owner);
  }

  lemma AfterGetOk(ks: KeySet, cfg: Config, l: Local, t: string)
    requires LocalOk(ks, cfg, l)
    ensures LocalOk(ks, cfg, AfterGet(l, t))
  {
  }

  lemma EmitPendingOk(ks: KeySet, cfg: Config, l: Local, q: Query, owner: nat)
    requires LocalOk(ks, cfg, l) && Good(ks, q) && TrendEndpoint(q.key.endpoint) && !cfg.readonly
    ensures LocalOk(ks, cfg, EmitTrendPending(cfg, l, q, owner).local)
    ensures AnswerOk(ks, cfg, q.key, EmitTrendPending(cfg, l, q, owner).val)
  {
    ScheduleOk(ks, cfg, l, q, owner);
    var l1 := if q.cacheKey in l.inflight then l else Schedule(cfg, l, q, owner);
    var e := LiveEntry(l1, q.cacheKey);
    AfterGetOk(ks, cfg, l1, q.cacheKey);
    if e.Some? { EmitMemoryOk(ks, cfg, AfterGet(l1, q.cacheKey), q, e.value, owner); }
  }

  // ---------------------------------------------------------------- the whole system

  ghost predicate TableOk(ks: KeySet, s: State) {
    forall t :: t in s.table ==>
      Good(ks, Query(s.table[t].dims, t)) && Exact(s.table[t].dims, s.table[t].val) && s.table[t].refreshedAt <= s.local.now
  }

  ghost predicate SnapsOk(ks: KeySet, cfg: Config, s: State) {
    forall q :: Good(ks, q) && q.cacheKey in s.snaps ==> SnapWorthy(ks, cfg, q.key, s.snaps[q.cacheKey].val)
  }

  ghost predicate PcOk(ks: iset<Key>, cfg: Config, q: Req) {
    match q.pc
    case Answered(_, Some(f)) => Provenance(ks, cfg, q.q.key, f.val)
    case Done(Served(v, _, _), _) => AnswerOk(ks, cfg, q.q.key, v)
    case _ => true
  }

  ghost predicate ReqsOk(ks: KeySet, cfg: Config, s: State) {
    forall r :: 0 <= r < |s.reqs| ==> Good(ks, s.reqs[r].q) && PcOk(ks, cfg, s.reqs[r])
  }

  ghost predicate JobsGood(ks: KeySet, s: State) { forall j :: 0 <= j < |s.jobs| ==> Good(ks, s.jobs[j].q) }

  ghost predicate Sound(ks: KeySet, cfg: Config, s: State) {
    LocalOk(ks, cfg, s.local) && TableOk(ks, s) && SnapsOk(ks, cfg, s) && ReqsOk(ks, cfg, s) && JobsGood(ks, s)
  }

  lemma ReplySound(ks: KeySet, cfg: Config, s: State, r: nat, a: Answer)
    requires Sound(ks, cfg, s) && r < |s.reqs| && LocalOk(ks, cfg, a.local) && AnswerOk(ks, cfg, s.reqs[r].q.key, a.val)
    requires a.local.now == s.local.now
    ensures Sound(ks, cfg, Reply(s, r, a))
  {
  }

  lemma SetPcSound(ks: KeySet, cfg: Config, s: State, r: nat, pc: Pc)
    requires Sound(ks, cfg, s) && r < |s.reqs| && PcOk(ks, cfg, s.reqs[r].(pc := pc))
    ensures Sound(ks, cfg, SetPc(s, r, pc))
  {
  }

  lemma ProceedSound(ks: KeySet, cfg: Config, s: State, r: nat, i: nat)
    requires Sound(ks, cfg, s) && r < |s.reqs|
    ensures Sound(ks, cfg, Proceed(cfg, s, r, i))
  {
    var q := s.reqs[r].q;
    if i < |Walk(cfg, q.key)| {
      SetPcSound(ks, cfg, s, r, Reading(i));
    } else if cfg.readonly {
      ReplySound(ks, cfg, s, r, Answer(Hint(s.local, q.cacheKey), MissShape, true, None));
    } else if TrendEndpoint(q.key.endpoint) {
      EmitPendingOk(ks, cfg, s.local, q, r);
      ReplySound(ks, cfg, s, r, EmitTrendPending(cfg, s.local, q, r));
    } else {
      SetPcSound(ks, cfg, s, r, Loading);
    }
  }

  lemma BeginSound(ks: KeySet, cfg: Config, s: State, info: Request, q: Query)
    requires Sound(ks, cfg, s) && Good(ks, q)
    ensures Sound(ks, cfg, Begin(cfg, s, info, q))
  {
    var r := |s.reqs|;
    var s1 := s.(reqs := s.reqs + [Req(q, info.pipeline, info.bypassParam, Reading(0))]);
    assert Sound(ks, cfg, s1);
    if Bypasses(cfg, info.pipeline, info.bypassParam) {
      SetPcSound(ks, cfg, s1, r, Loading);
    } else {
      var e := LiveEntry(s1.local, q.cacheKey);
      var s2 := s1.(local := AfterGet(s1.local, q.cacheKey));
      AfterGetOk(ks, cfg, s1.local, q.cacheKey);
      if e.Some? && MemoryCounts(cfg, q.key, e.value) {
        SyncOk(ks, cfg, s2.local, q, e.value.val, e.value.fill.origin);
        EmitMemoryOk(ks, cfg, s2.local, q, e.value, r);
        ReplySound(ks, cfg, s2, r, MemoryAnswer(cfg, s2.local, q, e.value, r));
      } else {
        ProceedSound(ks, cfg, s2, r, 0);
      }
    }
  }

  lemma UseHitOk(ks: KeySet, cfg: Config, l: Local, q: Query, p: Probe, f: Found, r: nat)
    requires LocalOk(ks, cfg, l) && Good(ks, q) && Provenance(ks, cfg, q.key, f.val)
    ensures LocalOk(ks, cfg, UseHit(cfg, l, q, p, f, r).local)
  {
    var ttl, fill := MemTtl(cfg, q.key, p, f.ttlMs), Fill(f.origin, f.until, f.readAt, l.now, p.refresh.Always?);
    SetOk(ks, cfg, l, q, f.val, ttl, fill);
    var l1 := CacheSet(l, q.cacheKey, f.val, ttl, fill);
    SyncOk(ks, cfg, l1, q, f.val, f.origin);
    ScheduleOk(ks, cfg, if p.warms then SyncSnapshotWrite(cfg, l1, q, f.val, f.origin) else l1, q, r);
  }

  lemma ResumeSound(ks: KeySet, cfg: Config, s: State, r: nat)
    requires Sound(ks, cfg, s) && HasAnswer(cfg, s, r)
    ensures Sound(ks, cfg, Resume(cfg, s, r))
  {
    var q := s.reqs[r];
    var p := ProbeOf(cfg, s, r);
    if ProbeCounts(p, q.pc.found) {
      UseHitOk(ks, cfg, s.local, q.q, p, q.pc.found.value, r);
      ReplySound(ks, cfg, s, r, UseHit(cfg, s.local, q.q, p, q.pc.found.value, r));
    } else {
      ProceedSound(ks, cfg, s, r, q.pc.i + 1);
    }
  }

  lemma WalkReadsDimsOnTrendsOnly(cfg: Config, k: Key, i: nat)
    requires i < |Walk(cfg, k)| && Walk(cfg, k)[i].source == TableDims
    ensures TrendEndpoint(k.endpoint) && cfg.tableEnabled
  {
  }

  /** The row found under the text of a request is its own. */
  lemma RowIsOwn(ks: KeySet, s: State, q: Query)
    requires TableOk(ks, s) && Good(ks, q) && q.cacheKey in s.table
    ensures Exact(q.key, s.table[q.cacheKey].val)
  {
    OneOwner(ks, q, Query(s.table[q.cacheKey].dims, q.cacheKey));
  }

  lemma SourceOk(ks: KeySet, cfg: Config, s: State, q: Query, source: Source, pick: string)
    requires TableOk(ks, s) && SnapsOk(ks, cfg, s) && Good(ks, q)
    requires source == TableDims ==> TrendEndpoint(q.key.endpoint) && cfg.tableEnabled
    ensures var f := ReadSource(cfg, s, q, source, pick); f.Some? ==> Provenance(ks, cfg, q.key, f.value.val)
  {
    if q.cacheKey in s.table { RowIsOwn(ks, s, q); }
  }

  lemma ReadSound(ks: KeySet, cfg: Config, s: State, r: nat, fails: bool, pick: string)
    requires Sound(ks, cfg, s) && Enabled(cfg, s, ReadTier(r, fails, pick))
    ensures Sound(ks, cfg, ReadStep(cfg, s, r, fails, pick))
  {
    var q, i := s.reqs[r].q, s.reqs[r].pc.i;
    var source := Walk(cfg, q.key)[i].source;
    if source == TableDims { WalkReadsDimsOnTrendsOnly(cfg, q.key, i); }
    SourceOk(ks, cfg, s, q, source, pick);
    SetPcSound(ks, cfg, s, r, Answered(i, if fails then None else ReadSource(cfg, s, q, source, pick)));
  }

  lemma LoadSound(ks: KeySet, cfg: Config, s: State, r: nat, o: Outcome)
    requires Sound(ks, cfg, s) && r < |s.reqs|
    ensures Sound(ks, cfg, FinishLoad(cfg, s, r, o))
  {
    var q := s.reqs[r].q;
    if o.Throws? {
      SetPcSound(ks, cfg, s, r, Done(Errored, s.local.now));
    } else {
      var v, ttl := Tag(o, q.key), cfg.ttlMs(q.key);
      PersistOk(ks, cfg, s.local, q, v, ttl);
      ReplySound(ks, cfg, s, r, Answer(PersistDashboardCaches(cfg, s.local, q, v, ttl), v, false, Some(FreshFill(s.local, ttl))));
    }
  }

  /** Only the process changed, and it stayed in order. */
  lemma LocalSound(ks: KeySet, cfg: Config, s: State, l: Local)
    requires Sound(ks, cfg, s) && LocalOk(ks, cfg, l) && s.local.now <= l.now
    ensures Sound(ks, cfg, s.(local := l))
  {
  }

  lemma SetTaskOk(ks: KeySet, cfg: Config, l: Local, t: nat, pc: TaskPc)
    requires LocalOk(ks, cfg, l) && t < |l.tasks|
    ensures LocalOk(ks, cfg, SetTask(l, t, pc))
  {
  }

  lemma TaskLoadedOk(ks: KeySet, cfg: Config, l: Local, t: nat, v: Val)
    requires LocalOk(ks, cfg, l) && t < |l.tasks| && Exact(l.tasks[t].q.key, v)
    ensures LocalOk(ks, cfg, TaskLoaded(cfg, l, t, v))
  {
    var q := l.tasks[t].q;
    PersistOk(ks, cfg, l, q, v, cfg.ttlMs(q.key));
    SetTaskOk(ks, cfg, PersistDashboardCaches(cfg, l, q, v, cfg.ttlMs(q.key)), t, Settling);
  }

  lemma TaskSound(ks: KeySet, cfg: Config, s: State, t: nat, o: Outcome)
    requires Sound(ks, cfg, s) && t < |s.local.tasks|
    ensures Sound(ks, cfg, FinishTask(cfg, s, t, o))
  {
    if o.Throws? {
      SetTaskOk(ks, cfg, s.local, t, Settling);
    } else {
      TaskLoadedOk(ks, cfg, s.local, t, Tag(o, s.local.tasks[t].q.key));
    }
    LocalSound(ks, cfg, s, FinishTask(cfg, s, t, o).local);
  }

  lemma SetJobSound(ks: KeySet, cfg: Config, s: State, j: nat, pc: JobPc)
    requires Sound(ks, cfg, s) && j < |s.jobs|
    ensures Sound(ks, cfg, SetJob(s, j, pc))
  {
  }

  lemma JobSound(ks: KeySet, cfg: Config, s: State, j: nat, o: Outcome)
    requires Sound(ks, cfg, s) && j < |s.jobs|
    ensures Sound(ks, cfg, FinishJob(cfg, s, j, o))
  {
    var q := s.jobs[j].q;
    SetJobSound(ks, cfg, s, j, JobSettling);
    if !o.Throws? {
      PersistOk(ks, cfg, s.local, q, Tag(o, q.key), cfg.readonlyTtlMs(q.key));
      LocalSound(ks, cfg, SetJob(s, j, JobSettling), FinishJob(cfg, s, j, o).local);
    }
  }

  lemma TableWriteGoneOk(ks: KeySet, cfg: Config, l: Local, i: nat)
    requires LocalOk(ks, cfg, l) && i < |l.tableWrites|
    ensures LocalOk(ks, cfg, l.(tableWrites := Without(l.tableWrites, i)))
  {
  }

  lemma SnapWriteGoneOk(ks: KeySet, cfg: Config, l: Local, i: nat)
    requires LocalOk(ks, cfg, l) && i < |l.snapWrites|
    ensures LocalOk(ks, cfg, l.(snapWrites := Without(l.snapWrites, i)))
  {
  }

  lemma LostWriteSound(ks: KeySet, cfg: Config, s: State, e: Event)
    requires Sound(ks, cfg, s) && Enabled(cfg, s, e) && (e.TableWriteLost? || e.SnapWriteLost?)
    ensures Sound(ks, cfg, Apply(cfg, s, e))
  {
    match e
    case TableWriteLost(i) => TableWriteGoneOk(ks, cfg, s.local, i); LocalSound(ks, cfg, s, Apply(cfg, s, e).local);
    case SnapWriteLost(i) => SnapWriteGoneOk(ks, cfg, s.local, i); LocalSound(ks, cfg, s, Apply(cfg, s, e).local);
  }

  /** The row of a request, whose dimensions are its own whether it is inserted or updated. */
  lemma RowSet(ks: KeySet, s: State, q: Query, v: Val, dims: Key, refreshedAt: int, expiresAt: int)
    requires TableOk(ks, s) && Good(ks, q) && Exact(q.key, v) && refreshedAt <= s.local.now
    requires dims == if q.cacheKey in s.table then s.table[q.cacheKey].dims else q.key
    ensures TableOk(ks, s.(table := s.table[q.cacheKey := TableRow(dims, v, refreshedAt, expiresAt)]))
  {
    if q.cacheKey in s.table { OneOwner(ks, q, Query(s.table[q.cacheKey].dims, q.cacheKey)); }
  }

  lemma RowSound(ks: KeySet, cfg: Config, s: State, i: nat)
    requires Sound(ks, cfg, s) && i < |s.local.tableWrites|
    ensures Sound(ks, cfg, WriteRow(cfg, s, i))
  {
    var w, s' := s.local.tableWrites[i], WriteRow(cfg, s, i);
    RowSet(ks, s, w.q, w.val, s'.table[w.q.cacheKey].dims, s.local.now, s.local.now + cfg.tableTtlMs(w.q.key));
    TableWriteGoneOk(ks, cfg, s.local, i);
    LocalSound(ks, cfg, s, s'.local);
  }

  lemma SnapSound(ks: KeySet, cfg: Config, s: State, i: nat)
    requires Sound(ks, cfg, s) && i < |s.local.snapWrites|
    ensures Sound(ks, cfg, WriteSnap(s, i))
  {
    var w, s' := s.local.snapWrites[i], WriteSnap(s, i);
    forall q | Good(ks, q) && q.cacheKey in s'.snaps ensures SnapWorthy(ks, cfg, q.key, s'.snaps[q.cacheKey].val) {
      if q.cacheKey == w.q.cacheKey { OneOwner(ks, q, w.q); }
    }
    SnapWriteGoneOk(ks, cfg, s.local, i);
    LocalSound(ks, cfg, s, s'.local);
  }

  lemma TaskStartSound(ks: KeySet, cfg: Config, s: State, t: nat)
    requires Sound(ks, cfg, s) && t < |s.local.tasks|
    ensures Sound(ks, cfg, s.(local := SetTask(s.local, t, Running), calls := s.calls + [ForTask(t)]))
  {
    SetTaskOk(ks, cfg, s.local, t, Running);
    LocalSound(ks, cfg, s, SetTask(s.local, t, Running));
  }

  lemma TaskSettleSound(ks: KeySet, cfg: Config, s: State, t: nat)
    requires Sound(ks, cfg, s) && t < |s.local.tasks|
    ensures Sound(ks, cfg, s.(local := TaskSettled(s.local, t)))
  {
    SetTaskOk(ks, cfg, s.local, t, Settled);
    LocalSound(ks, cfg, s, TaskSettled(s.local, t));
  }

  lemma ForgetSound(ks: KeySet, cfg: Config, s: State, t: string)
    requires Sound(ks, cfg, s)
    ensures Sound(ks, cfg, s.(local := s.local.(mem := s.local.mem - {t})))
  {
    var l := s.local.(mem := s.local.mem - {t});
    assert LocalOk(ks, cfg, l);
    LocalSound(ks, cfg, s, l);
  }

  lemma TimeSound(ks: KeySet, cfg: Config, s: State, hints: map<string, int>, now: int)
    requires Sound(ks, cfg, s) && s.local.now <= now
    ensures Sound(ks, cfg, s.(local := s.local.(hints := hints))) && Sound(ks, cfg, s.(local := s.local.(now := now)))
  {
    assert LocalOk(ks, cfg, s.local.(hints := hints)) && LocalOk(ks, cfg, s.local.(now := now));
  }

  lemma JobAddedSound(ks: KeySet, cfg: Config, s: State, q: Query)
    requires Sound(ks, cfg, s) && Good(ks, q)
    ensures Sound(ks, cfg, StartJob(s, q))
  {
  }

  lemma TierShrinksSound(ks: KeySet, cfg: Config, s: State, t: string)
    requires Sound(ks, cfg, s)
    ensures Sound(ks, cfg, s.(table := s.table - {t})) && Sound(ks, cfg, s.(snaps := s.snaps - {t}))
  {
  }

  lemma JobCheckSound(ks: KeySet, cfg: Config, s: State, j: nat, isFresh: bool)
    requires Sound(ks, cfg, s) && j < |s.jobs|
    ensures Sound(ks, cfg, CheckJob(s, j, isFresh))
  {
    SetJobSound(ks, cfg, s, j, if isFresh then JobSettling else JobLoading);
  }

  lemma JobSettleSound(ks: KeySet, cfg: Config, s: State, j: nat, jobInflight: map<string, nat>)
    requires Sound(ks, cfg, s) && j < |s.jobs|
    ensures Sound(ks, cfg, SetJob(s, j, JobDone).(jobInflight := jobInflight))
  {
    SetJobSound(ks, cfg, s, j, JobDone);
  }

  /** What happens to no request, and loads nothing. */
  lemma OtherStepSound(ks: KeySet, cfg: Config, s: State, e: Event)
    requires Sound(ks, cfg, s) && Enabled(cfg, s, e) && EventIn(ks, e) && LeavesRequests(e) && !e.TaskEnds? && !e.JobEnds?
    ensures Sound(ks, cfg, Apply(cfg, s, e))
  {
    match e
    case TableWritten(i) => RowSound(ks, cfg, s, i);
    case SnapWritten(i) => SnapSound(ks, cfg, s, i);
    case TableWriteLost(_) | SnapWriteLost(_) => LostWriteSound(ks, cfg, s, e);
    case TaskStarts(t) => TaskStartSound(ks, cfg, s, t);
    case TaskSettles(t) => TaskSettleSound(ks, cfg, s, t);
    case JobStarts(k) => JobAddedSound(ks, cfg, s, QueryOf(k));
    case JobChecked(j, isFresh) => JobCheckSound(ks, cfg, s, j, isFresh);
    case JobSettles(j) => JobSettleSound(ks, cfg, s, j, s.jobInflight - {s.jobs[j].q.cacheKey});
    case RowPurged(t) => TierShrinksSound(ks, cfg, s, t);
    case SnapRemoved(t) => TierShrinksSound(ks, cfg, s, t);
    case EntryForgotten(t) => ForgetSound(ks, cfg, s, t);
    case HintsConsumed => TimeSound(ks, cfg, s, LiveHints(s.local), s.local.now);
    case Tick(ms) => TimeSound(ks, cfg, s, s.local.hints, s.local.now + ms);
  }

  lemma StepSound(ks: KeySet, cfg: Config, s: State, e: Event)
    requires Sound(ks, cfg, s) && Enabled(cfg, s, e) && EventIn(ks, e)
    ensures Sound(ks, cfg, Apply(cfg, s, e))
  {
    match e
    case Arrive(info) => BeginSound(ks, cfg, s, info, QueryOf(info.key));
    case ReadTier(r, fails, pick) => ReadSound(ks, cfg, s, r, fails, pick);
    case Continue(r) => ResumeSound(ks, cfg, s, r);
    case LoaderEnds(r, o) => LoadSound(ks, cfg, s, r, o);
    case TaskEnds(t, o) => TaskSound(ks, cfg, s, t, o);
    case JobEnds(j, o) => JobSound(ks, cfg, s, j, o);
    case _ => OtherStepSound(ks, cfg, s, e);
  }

  lemma {:induction false} RunSound(ks: KeySet, cfg: Config, s: State, events: seq<Event>, t: State)
    requires Sound(ks, cfg, s) && Run(cfg, s, events, t) && EventsIn(ks, events)
    ensures Sound(ks, cfg, t)
    decreases |events|
  {
    if events != [] {
      StepSound(ks, cfg, s, events[0]);
      RunSound(ks, cfg, Apply(cfg, s, events[0]), events[1..], t);
    }
  }

  /**
   * In every reachable state, what stands in memory, in the table and in the snapshot files under the text of a key was
   * produced by a loader: for exactly its fields in the table and on the endpoints that are not trends, and on trends for them
   * or, with the table on and stale rows allowed, for those of another key asked for that has the same dimensions. The same
   * holds of every write on its way there. No placeholder and no miss shape is in any tier, and no snapshot holds a null.
   */
  lemma TiersHoldLoaderValues(ks: KeySet, cfg: Config, now: int, events: seq<Event>, s: State, k: Key)
    requires Run(cfg, Init(now), events, s) && EventsIn(ks, events) && k in ks
    ensures var t := BuildDashboardCacheKey(k);
      && (t in s.local.mem ==> Provenance(ks, cfg, k, s.local.mem[t].val))
      && (t in s.table ==> Exact(k, s.table[t].val))
      && (t in s.snaps ==> SnapWorthy(ks, cfg, k, s.snaps[t].val))
    ensures TableWritesOk(ks, s.local) && SnapWritesOk(ks, cfg, s.local)
  {
    RunSound(ks, cfg, Init(now), events, s);
    var q := QueryOf(k);
    assert Good(ks, q);
    if q.cacheKey in s.table { RowIsOwn(ks, s, q); }
  }

  /** And every answer is such a value, or the placeholder of a trend, or in read-only mode the miss shape. */
  lemma AnswersAreLoaderValues(ks: KeySet, cfg: Config, now: int, events: seq<Event>, s: State, r: nat)
    requires Run(cfg, Init(now), events, s) && EventsIn(ks, events)
    requires r < |s.reqs| && s.reqs[r].pc.Done? && s.reqs[r].pc.resp.Served?
    ensures AnswerOk(ks, cfg, s.reqs[r].q.key, s.reqs[r].pc.resp.val)
  {
    RunSound(ks, cfg, Init(now), events, s);
    assert PcOk(ks, cfg, s.reqs[r]);
  }

  // ---------------------------------------------------------------- who waits for a loader

  /** The request may wait for a loader: it bypasses the cache, or it is for no trend and not in read-only mode. */
  predicate MayLoad(cfg: Config, q: Req) {
    Bypasses(cfg, q.pipeline, q.bypassParam) || (!cfg.readonly && !TrendEndpoint(q.q.key.endpoint))
  }

  ghost predicate LoadersOk(cfg: Config, reqs: seq<Req>) {
    forall r :: 0 <= r < |reqs| && reqs[r].pc.Loading? ==> MayLoad(cfg, reqs[r])
  }

  lemma SetPcLoads(cfg: Config, s: State, r: nat, pc: Pc)
    requires LoadersOk(cfg, s.reqs) && r < |s.reqs| && (pc.Loading? ==> MayLoad(cfg, s.reqs[r]))
    ensures LoadersOk(cfg, SetPc(s, r, pc).reqs)
  {
  }

  lemma ReplyLoads(cfg: Config, s: State, r: nat, a: Answer)
    requires LoadersOk(cfg, s.reqs) && r < |s.reqs|
    ensures LoadersOk(cfg, Reply(s, r, a).reqs)
  {
  }

  lemma ProceedLoads(cfg: Config, s: State, r: nat, i: nat)
    requires LoadersOk(cfg, s.reqs) && r < |s.reqs|
    ensures LoadersOk(cfg, Proceed(cfg, s, r, i).reqs)
  {
    var q := s.reqs[r].q;
    if i < |Walk(cfg, q.key)| {
      SetPcLoads(cfg, s, r, Reading(i));
    } else if cfg.readonly {
      ReplyLoads(cfg, s, r, Answer(Hint(s.local, q.cacheKey), MissShape, true, None));
    } else if TrendEndpoint(q.key.endpoint) {
      ReplyLoads(cfg, s, r, EmitTrendPending(cfg, s.local, q, r));
    } else {
      SetPcLoads(cfg, s, r, Loading);
    }
  }

  lemma BeginLoads(cfg: Config, s: State, info: Request, q: Query)
    requires LoadersOk(cfg, s.reqs)
    ensures LoadersOk(cfg, Begin(cfg, s, info, q).reqs)
  {
    var s1 := s.(reqs := s.reqs + [Req(q, info.pipeline, info.bypassParam, Reading(0))]);
    ProceedLoads(cfg, s1.(local := AfterGet(s1.local, q.cacheKey)), |s.reqs|, 0);
  }

  lemma ResumeLoads(cfg: Config, s: State, r: nat)
    requires LoadersOk(cfg, s.reqs) && HasAnswer(cfg, s, r)
    ensures LoadersOk(cfg, Resume(cfg, s, r).reqs)
  {
    ProceedLoads(cfg, s, r, s.reqs[r].pc.i + 1);
  }

  lemma ReadLoads(cfg: Config, s: State, r: nat, fails: bool, pick: string)
    requires LoadersOk(cfg, s.reqs) && Enabled(cfg, s, ReadTier(r, fails, pick))
    ensures LoadersOk(cfg, ReadStep(cfg, s, r, fails, pick).reqs)
  {
  }

  lemma EndLoads(cfg: Config, s: State, r: nat, o: Outcome)
    requires LoadersOk(cfg, s.reqs) && r < |s.reqs|
    ensures LoadersOk(cfg, FinishLoad(cfg, s, r, o).reqs)
  {
  }

  lemma StepLoads(cfg: Config, s: State, e: Event)
    requires LoadersOk(cfg, s.reqs) && Enabled(cfg, s, e)
    ensures LoadersOk(cfg, Apply(cfg, s, e).reqs)
  {
    match e
    case Arrive(info) => BeginLoads(cfg, s, info, QueryOf(info.key));
    case Continue(r) => ResumeLoads(cfg, s, r);
    case ReadTier(r, fails, pick) => ReadLoads(cfg, s, r, fails, pick);
    case LoaderEnds(r, o) => EndLoads(cfg, s, r, o);
    case _ => RequestsLeft(cfg, s, e);
  }

  lemma {:induction false} RunLoads(cfg: Config, s: State, events: seq<Event>, t: State)
    requires LoadersOk(cfg, s.reqs) && Run(cfg, s, events, t)
    ensures LoadersOk(cfg, t.reqs)
    decreases |events|
  {
    if events != [] {
      StepLoads(cfg, s, events[0]);
      RunLoads(cfg, Apply(cfg, s, events[0]), events[1..], t);
    }
  }

  /** Outside the cache's bypass, a trend never waits for a loader; in read-only mode nothing but the pipeline does. */
  lemma OnlySomeRequestsLoad(cfg: Config, now: int, events: seq<Event>, s: State, r: nat)
    requires Run(cfg, Init(now), events, s) && r < |s.reqs| && s.reqs[r].pc.Loading?
    ensures MayLoad(cfg, s.reqs[r])
  {
    RunLoads(cfg, Init(now), events, s);
  }
}
