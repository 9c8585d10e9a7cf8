/**
 * What one request does on arrival, said on its fields and on what memory holds under its text: which requests go past the
 * cache, which are answered at once, and which come to read the tiers.
 */
module DashboardRequests {
  import opened Options
  import opened CacheKey
  import opened DashboardMemory
  import opened DashboardCache
  import opened DashboardProvenance
  import opened DashboardRuns
  import opened DashboardTiers

  /** A request of the pipeline, or outside read-only mode one that asks for a fresh value. */
  predicate GoesPast(cfg: Config, info: Request) { info.pipeline || (!cfg.readonly && info.bypassParam) }

  /** Memory has a value for it that is no null and not past its time; in read-only mode a trend needs points. */
  predicate InMemory(cfg: Config, s: State, k: Key) {
    var t := BuildDashboardCacheKey(k);
    && t in s.local.mem && s.local.now <= s.local.mem[t].exp && !s.local.mem[t].val.LoadedNull?
    && (cfg.readonly && k.endpoint in {GmvCompare, OrderVolume, Trend} ==> s.local.mem[t].val.Loaded? && !s.local.mem[t].val.empty)
  }

  /** Nothing but the requests and the loader calls has changed. */
  predicate OnlyRequests(s: State, s': State) {
    s'.local == s.local && s'.table == s.table && s'.snaps == s.snaps && s'.jobs == s.jobs && s'.jobInflight == s.jobInflight
  }

  /**
   * A request that goes past the cache calls the loader at once, whatever memory and the tiers hold, and changes nothing else.
   */
  lemma GoingPastCallsTheLoader(cfg: Config, s: State, info: Request)
    requires GoesPast(cfg, info)
    ensures var s', r := Apply(cfg, s, Arrive(info)), |s.reqs|;
      && s'.reqs == s.reqs + [Req(QueryOf(info.key), info.pipeline, info.bypassParam, Loading)]
      && s'.calls == s.calls + [ForRequest(r)] && OnlyRequests(s, s')
  {
    var r := Req(QueryOf(info.key), info.pipeline, info.bypassParam, Reading(0));
    assert (s.reqs + [r])[|s.reqs| := r.(pc := Loading)] == s.reqs + [r.(pc := Loading)];
  }

  /** Any other that memory has a value for is answered with it at once; no loader is called. */
  lemma MemoryAnswersAtOnce(cfg: Config, s: State, info: Request)
    requires !GoesPast(cfg, info) && InMemory(cfg, s, info.key)
    ensures var s', e, r := Apply(cfg, s, Arrive(info)), s.local.mem[BuildDashboardCacheKey(info.key)], |s.reqs|;
      && s'.calls == s.calls && |s'.reqs| == r + 1 && s'.reqs[..r] == s.reqs && s'.reqs[r].q == QueryOf(info.key)
      && s'.reqs[r].pc
        == Done(Served(e.val, !cfg.readonly && (e.ttlMs <= 0 || e.ttlMs <= cfg.nearMs(info.key)), Some(e.fill)), s.local.now)
      && s'.local.mem == s.local.mem && s'.table == s.table && s'.snaps == s.snaps
  {
  }

  /** The request stands at the first tier, and an entry past its time is gone. */
  function AtTheTiers(s: State, info: Request): State {
    var t := BuildDashboardCacheKey(info.key);
    var mem := if t in s.local.mem && s.local.now > s.local.mem[t].exp then s.local.mem - {t} else s.local.mem;
    s.(local := s.local.(mem := mem), reqs := s.reqs + [Req(QueryOf(info.key), info.pipeline, info.bypassParam, Reading(0))])
  }

  lemma GoesToTheTiers(cfg: Config, s: State, info: Request)
    requires !GoesPast(cfg, info) && !InMemory(cfg, s, info.key)
    ensures Apply(cfg, s, Arrive(info)) == Proceed(cfg, AtTheTiers(s, info), |s.reqs|, 0)
  {
  }

  /**
   * Any other that memory has nothing for comes to read the first tier, if the table or snapshots are on, and calls no loader.
   * With both off it ends as if it had read them all in vain.
   */
  lemma OthersReadTheTiers(cfg: Config, s: State, info: Request)
    requires !GoesPast(cfg, info) && !InMemory(cfg, s, info.key)
    ensures var s', at := Apply(cfg, s, Arrive(info)), AtTheTiers(s, info);
      if cfg.tableEnabled || cfg.snapEnabled then s' == at else ByNone(cfg, at, s', |s.reqs|)
  {
    var at, r := AtTheTiers(s, info), |s.reqs|;
    GoesToTheTiers(cfg, s, info);
    WalkSources(cfg, info.key);
    if cfg.tableEnabled || cfg.snapEnabled { SetPcTwice(at, r, Reading(0), Reading(0)); } else { UsingNone(cfg, at, r); }
  }

  // ---------------------------------------------------------------- loaders

  /** The value stands in memory for this life from now on, and is sent to the table and the snapshots where these take it. */
  predicate WrittenThrough(cfg: Config, l: Local, l': Local, q: Query, v: Val, life: int) {
    && l'.now == l.now && l'.hints == l.hints && l'.inflight == l.inflight
    && l'.mem == l.mem[q.cacheKey := MemEntry(v, l.now + life, life, Fill(l.now, l.now + life, l.now, l.now, false))]
    && l'.tableWrites == l.tableWrites + (if cfg.tableEnabled then [TableWrite(q, v)] else [])
    && l'.snapWrites == l.snapWrites
      + (if cfg.snapEnabled && q.key.endpoint != Trend && !v.LoadedNull? && (OfTrend(q.key) ==> HasPoints(v)) then
           [SnapWrite(q, v, l.now + cfg.snapTtlMs(q.key), l.now)]
         else [])
  }

  lemma PersistWritesThrough(cfg: Config, l: Local, q: Query, v: Val, life: int)
    requires FromLoader(v)
    ensures var l' := PersistDashboardCaches(cfg, l, q, v, life);
      WrittenThrough(cfg, l, l', q, v, life) && l'.tasks == l.tasks && l'.pendingUntil == l.pendingUntil
  {
  }

  /** What its loader gives a waiting request: the value, without a refresh, written through; or the error, and nothing else. */
  lemma LoaderAnswersTheRequest(cfg: Config, s: State, r: nat, o: Outcome)
    requires Enabled(cfg, s, LoaderEnds(r, o))
    ensures var s', q := Apply(cfg, s, LoaderEnds(r, o)), s.reqs[r].q;
      && s'.table == s.table && s'.snaps == s.snaps && s'.calls == s.calls && s'.jobs == s.jobs
      && (o.Throws? ==> s'.local == s.local && s'.reqs == s.reqs[r := s.reqs[r].(pc := Done(Errored, s.local.now))])
      && (!o.Throws? ==>
            var v, life := Tag(o, q.key), cfg.ttlMs(q.key);
            && WrittenThrough(cfg, s.local, s'.local, q, v, life) && s'.local.tasks == s.local.tasks
            && s'.reqs == s.reqs[r := s.reqs[r].(pc := Done(Served(v, false,
                 Some(Fill(s.local.now, s.local.now + life, s.local.now, s.local.now, false))), s.local.now))])
  {
    var q := s.reqs[r].q;
    if !o.Throws? { PersistWritesThrough(cfg, s.local, q, Tag(o, q.key), cfg.ttlMs(q.key)); }
  }

  /** A precompute job keeps its value for the life of read-only mode; a refresh for that of serving. */
  lemma JobsAndRefreshesWriteThrough(cfg: Config, s: State, e: Event)
    requires Enabled(cfg, s, e) && (e.JobEnds? || e.TaskEnds?) && !e.o.Throws?
    ensures var s', q := Apply(cfg, s, e), if e.JobEnds? then s.jobs[e.j].q else s.local.tasks[e.t].q;
      && WrittenThrough(cfg, s.local, s'.local, q, Tag(e.o, q.key),
           if e.JobEnds? then cfg.readonlyTtlMs(q.key) else cfg.ttlMs(q.key))
      && s'.reqs == s.reqs && s'.calls == s.calls && s'.table == s.table && s'.snaps == s.snaps
  {
    var q := if e.JobEnds? then s.jobs[e.j].q else s.local.tasks[e.t].q;
    PersistWritesThrough(cfg, s.local, q, Tag(e.o, q.key), if e.JobEnds? then cfg.readonlyTtlMs(q.key) else cfg.ttlMs(q.key));
  }

  // ---------------------------------------------------------------- writes and jobs

  /** A row that is written lasts its time from now on, and keeps the columns it was first inserted with. */
  lemma RowsAreWritten(cfg: Config, s: State, i: nat)
    requires i < |s.local.tableWrites|
    ensures var w, s' := s.local.tableWrites[i], Apply(cfg, s, TableWritten(i));
      var t := w.q.cacheKey;
      && s'.table == s.table[t := TableRow(if t in s.table then s.table[t].dims else w.q.key, w.val, s.local.now,
                                           s.local.now + cfg.tableTtlMs(w.q.key))]
      && multiset(s'.local.tableWrites) == multiset(s.local.tableWrites) - multiset{w} && s'.snaps == s.snaps && s'.reqs == s.reqs
  {
    var s' := Apply(cfg, s, TableWritten(i));
    assert s' == WriteRow(cfg, s, i) && s'.local.tableWrites == Without(s.local.tableWrites, i);
    OneLess(s.local.tableWrites, i);
  }

  /** A snapshot that is written lasts until the end it was sent with. */
  lemma SnapshotsAreWritten(cfg: Config, s: State, i: nat)
    requires i < |s.local.snapWrites|
    ensures var w, s' := s.local.snapWrites[i], Apply(cfg, s, SnapWritten(i));
      && s'.snaps == s.snaps[w.q.cacheKey := SnapFile(w.val, w.expiresAt, w.origin)]
      && multiset(s'.local.snapWrites) == multiset(s.local.snapWrites) - multiset{w} && s'.table == s.table && s'.reqs == s.reqs
  {
    OneLess(s.local.snapWrites, i);
  }

  /** `m'` is `m` without `t`. */
  predicate OneGone<V(==)>(m: map<string, V>, m': map<string, V>, t: string) {
    m'.Keys == m.Keys - {t} && forall u :: u in m' ==> m'[u] == m[u]
  }

  /** A clean-up takes one row, one snapshot or one entry of memory, a lost write one of those sent; nothing else changes. */
  lemma CleanUpsTakeOne(cfg: Config, s: State, t: string)
    ensures var s' := Apply(cfg, s, RowPurged(t)); OneGone(s.table, s'.table, t) && s' == s.(table := s'.table)
    ensures var s' := Apply(cfg, s, SnapRemoved(t)); OneGone(s.snaps, s'.snaps, t) && s' == s.(snaps := s'.snaps)
    ensures var s' := Apply(cfg, s, EntryForgotten(t));
      OneGone(s.local.mem, s'.local.mem, t) && s' == s.(local := s.local.(mem := s'.local.mem))
  {
  }

  /** A round that reads the hints drops those older than a quarter of an hour, and only those. */
  lemma ReadingDropsOldHints(cfg: Config, s: State)
    ensures var s' := Apply(cfg, s, HintsConsumed);
      && s' == s.(local := s.local.(hints := s'.local.hints))
      && forall t :: t in s'.local.hints <==> t in s.local.hints && s.local.now - s.local.hints[t] <= 900_000
    ensures forall t :: t in Apply(cfg, s, HintsConsumed).local.hints ==>
      Apply(cfg, s, HintsConsumed).local.hints[t] == s.local.hints[t]
  {
  }

  lemma LostWritesAreGone(cfg: Config, s: State, e: Event)
    requires Enabled(cfg, s, e) && (e.TableWriteLost? || e.SnapWriteLost?)
    ensures var l, l' := s.local, Apply(cfg, s, e).local;
      && Apply(cfg, s, e) == s.(local := l')
      && (e.TableWriteLost? ==> multiset(l'.tableWrites) == multiset(l.tableWrites) - multiset{l.tableWrites[e.i]})
      && (e.SnapWriteLost? ==> multiset(l'.snapWrites) == multiset(l.snapWrites) - multiset{l.snapWrites[e.i]})
      && l' == l.(tableWrites := l'.tableWrites, snapWrites := l'.snapWrites)
      && (e.TableWriteLost? ==> l'.snapWrites == l.snapWrites) && (e.SnapWriteLost? ==> l'.tableWrites == l.tableWrites)
  {
    if e.TableWriteLost? { OneLess(s.local.tableWrites, e.i); } else { OneLess(s.local.snapWrites, e.i); }
  }

  lemma OneLess<T>(xs: seq<T>, i: nat)
    requires i < |xs|
    ensures multiset(Without(xs, i)) == multiset(xs) - multiset{xs[i]}
  {
    assert xs == xs[..i] + [xs[i]] + xs[i + 1..];
  }

  /** A job starts unless one for its key is under way, loads exactly when what is there is not fresh, and then settles. */
  lemma JobsLoadWhatIsNotFresh(cfg: Config, s: State, k: Key, j: nat, isFresh: bool)
    ensures var s', t := Apply(cfg, s, JobStarts(k)), BuildDashboardCacheKey(k);
      if t in s.jobInflight then s' == s
      else s'.jobs == s.jobs + [Job(QueryOf(k), Checking)] && s'.jobInflight == s.jobInflight[t := |s.jobs|] && s'.calls == s.calls
    ensures Enabled(cfg, s, JobChecked(j, isFresh)) ==>
      var s' := Apply(cfg, s, JobChecked(j, isFresh));
      && s'.jobs == s.jobs[j := s.jobs[j].(pc := if isFresh then JobSettling else JobLoading)]
      && s'.calls == s.calls + (if isFresh then [] else [ForJob(j)]) && s'.local == s.local
  {
  }
}
