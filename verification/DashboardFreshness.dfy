/**
 * Which answers can be older than the tier they come from allows, in every run. An answer that orders a refresh tells the
 * page that it may be stale; what is asked here is what an answer without one is worth.
 */
module DashboardFreshness {
  import opened Options
  import opened CacheKey
  import opened DashboardMemory
  import opened DashboardCache
  import opened DashboardProvenance

  predicate Timely(f: Fill, now: int) { f.readAt <= f.usedAt <= now }

  /** The value had not expired in its tier when it was read. */
  predicate HadTime(f: Fill) { f.readAt < f.until }

  /** The end of the value's life in its tier, put off by the time between reading it and using it. */
  function End(f: Fill): int { f.until + (f.usedAt - f.readAt) }

  /** The value is used within its life, or had none left and was read where that always orders a refresh. */
  predicate InTime(f: Fill, at: int) { Timely(f, at) && if HadTime(f) then at <= End(f) else f.always }

  // ---------------------------------------------------------------- the walks

  predicate ReadsFresh(source: Source) { source.TableFresh? || source.SnapFresh? }

  lemma RefreshesUnlessFresh(cfg: Config, k: Key, i: nat)
    requires i < |Walk(cfg, k)|
    ensures !Walk(cfg, k)[i].refresh.Always? ==> ReadsFresh(Walk(cfg, k)[i].source)
    ensures Walk(cfg, k)[i].refresh.IfNear? ==> !cfg.readonly
  {
  }

  /** Every tier that serves fresh content is asked before any that serves stale content. */
  ghost predicate FreshFirst(walk: seq<Probe>) {
    forall i, j :: 0 <= i < j < |walk| && walk[i].refresh.Always? ==> walk[j].refresh.Always?
  }

  /**
   * The tiers are asked fresh ones first, except on plain endpoints in read-only mode with both table and snapshots on: there
   * a stale row is served although a fresh snapshot may exist.
   */
  lemma FreshFirstIff(cfg: Config, k: Key)
    ensures FreshFirst(Walk(cfg, k))
      <==> !(cfg.readonly && !TrendEndpoint(k.endpoint) && cfg.tableEnabled && cfg.snapEnabled)
  {
    var w := Walk(cfg, k);
    if cfg.readonly && !TrendEndpoint(k.endpoint) && cfg.tableEnabled && cfg.snapEnabled {
      assert w[1] == Probe(TableFresh, false, false, Always) && w[3] == Probe(SnapFresh, false, false, Never);
    }
  }

  // ---------------------------------------------------------------- memory

  /** The entry ends with its source, or every answer from it orders a refresh. */
  predicate EntryOk(cfg: Config, k: Key, e: MemEntry) {
    HadTime(e.fill) ==> e.exp <= End(e.fill) || (!cfg.readonly && Near(cfg, k, e.ttlMs))
  }

  ghost predicate FillsOk(l: Local) {
    forall t :: t in l.mem ==> Timely(l.mem[t].fill, l.now) && (HadTime(l.mem[t].fill) || l.mem[t].fill.always)
  }

  ghost predicate EntriesOk(ks: KeySet, cfg: Config, l: Local) {
    forall q :: Good(ks, q) && q.cacheKey in l.mem ==> EntryOk(cfg, q.key, l.mem[q.cacheKey])
  }

  ghost predicate MemTimed(ks: KeySet, cfg: Config, l: Local) { FillsOk(l) && EntriesOk(ks, cfg, l) }

  lemma SetTimed(ks: KeySet, cfg: Config, l: Local, q: Query, v: Val, ttl: int, fill: Fill)
    requires MemTimed(ks, cfg, l) && Good(ks, q) && EntryOk(cfg, q.key, MemEntry(v, l.now + ttl, ttl, fill))
    requires Timely(fill, l.now) && (HadTime(fill) || fill.always)
    ensures MemTimed(ks, cfg, CacheSet(l, q.cacheKey, v, ttl, fill))
  {
    var l' := CacheSet(l, q.cacheKey, v, ttl, fill);
    forall p | Good(ks, p) && p.cacheKey in l'.mem ensures EntryOk(cfg, p.key, l'.mem[p.cacheKey]) {
      if p.cacheKey == q.cacheKey { OneOwner(ks, p, q); }
    }
  }

  /** Entries may go, and time may pass. */
  lemma FewerEntriesTimed(ks: KeySet, cfg: Config, l: Local, l': Local)
    requires MemTimed(ks, cfg, l) && l.now <= l'.now
    requires forall t :: t in l'.mem ==> t in l.mem && l'.mem[t] == l.mem[t]
    ensures MemTimed(ks, cfg, l')
  {
  }

  lemma PersistTimed(ks: KeySet, cfg: Config, l: Local, q: Query, v: Val, ttl: Ttl)
    requires MemTimed(ks, cfg, l) && Good(ks, q)
    ensures MemTimed(ks, cfg, PersistDashboardCaches(cfg, l, q, v, ttl)) && PersistDashboardCaches(cfg, l, q, v, ttl).now == l.now
  {
    SetTimed(ks, cfg, l, q, v, ttl, FreshFill(l, ttl));
    FewerEntriesTimed(ks, cfg, CacheSet(l, q.cacheKey, v, ttl, FreshFill(l, ttl)), PersistDashboardCaches(cfg, l, q, v, ttl));
  }

  lemma EmitMemoryKeeps(cfg: Config, l: Local, q: Query, e: MemEntry, owner: nat)
    ensures EmitMemory(cfg, l, q, e, owner).local.mem == l.mem && EmitMemory(cfg, l, q, e, owner).local.now == l.now
  {
  }

  // ---------------------------------------------------------------- requests

  predicate FoundOk(f: Found, now: int) {
    f.readAt <= now && f.ttlMs == if f.readAt < f.until then f.until - f.readAt else 0
  }

  predicate AnswerTimed(refreshPending: bool, fill: Option<Fill>, at: int) {
    !refreshPending ==> fill.Some? && InTime(fill.value, at)
  }

  predicate PcTimed(cfg: Config, q: Req, now: int) {
    match q.pc
    case Answered(i, Some(f)) =>
      FoundOk(f, now) && (i < |Walk(cfg, q.q.key)| && ReadsFresh(Walk(cfg, q.q.key)[i].source) ==> f.ttlMs > 0)
    case Done(Served(_, refreshPending, fill), at) => AnswerTimed(refreshPending, fill, at)
    case _ => true
  }

  ghost predicate ReqsTimed(cfg: Config, reqs: seq<Req>, now: int) {
    forall r :: 0 <= r < |reqs| ==> PcTimed(cfg, reqs[r], now)
  }

  ghost predicate Timed(ks: KeySet, cfg: Config, s: State) { MemTimed(ks, cfg, s.local) && ReqsTimed(cfg, s.reqs, s.local.now) }

  lemma LaterTimed(cfg: Config, reqs: seq<Req>, now: int, later: int)
    requires ReqsTimed(cfg, reqs, now) && now <= later
    ensures ReqsTimed(cfg, reqs, later)
  {
  }

  lemma SetPcTimed(ks: KeySet, cfg: Config, s: State, r: nat, pc: Pc)
    requires Timed(ks, cfg, s) && r < |s.reqs| && PcTimed(cfg, s.reqs[r].(pc := pc), s.local.now)
    ensures Timed(ks, cfg, SetPc(s, r, pc))
  {
  }

  lemma ReplyTimed(ks: KeySet, cfg: Config, s: State, r: nat, a: Answer)
    requires Timed(ks, cfg, s) && r < |s.reqs| && MemTimed(ks, cfg, a.local) && a.local.now == s.local.now
    requires AnswerTimed(a.refreshPending, a.fill, s.local.now)
    ensures Timed(ks, cfg, Reply(s, r, a))
  {
  }

  /** An answer from a live entry: one without a refresh is within the life of its source, or had none and was read as stale. */
  lemma MemoryAnswerTimed(ks: KeySet, cfg: Config, l: Local, q: Query, r: nat)
    requires MemTimed(ks, cfg, l) && Good(ks, q) && LiveEntry(l, q.cacheKey).Some?
    ensures var a := EmitMemory(cfg, l, q, LiveEntry(l, q.cacheKey).value, r);
      !cfg.readonly ==> AnswerTimed(a.refreshPending, a.fill, l.now)
    ensures cfg.readonly ==> AnswerTimed(false, Some(LiveEntry(l, q.cacheKey).value.fill), l.now)
  {
    assert EntryOk(cfg, q.key, l.mem[q.cacheKey]);
  }

  lemma EmitPendingTimed(ks: KeySet, cfg: Config, l: Local, q: Query, r: nat)
    requires MemTimed(ks, cfg, l) && Good(ks, q) && !cfg.readonly
    ensures var a := EmitTrendPending(cfg, l, q, r);
      MemTimed(ks, cfg, a.local) && a.local.now == l.now && AnswerTimed(a.refreshPending, a.fill, l.now)
  {
    var l1 := if q.cacheKey in l.inflight then l else Schedule(cfg, l, q, r);
    var e := LiveEntry(l1, q.cacheKey);
    var l2 := AfterGet(l1, q.cacheKey);
    FewerEntriesTimed(ks, cfg, l, l2);
    if e.Some? {
      EmitMemoryKeeps(cfg, l2, q, e.value, r);
      MemoryAnswerTimed(ks, cfg, l2, q, r);
      FewerEntriesTimed(ks, cfg, l, EmitMemory(cfg, l2, q, e.value, r).local);
    }
    FewerEntriesTimed(ks, cfg, l, MarkPending(cfg, l2, q.cacheKey));
  }

  lemma ProceedTimed(ks: KeySet, cfg: Config, s: State, r: nat, i: nat)
    requires Timed(ks, cfg, s) && r < |s.reqs| && Good(ks, s.reqs[r].q)
    ensures Timed(ks, cfg, Proceed(cfg, s, r, i))
  {
    var q := s.reqs[r].q;
    if i < |Walk(cfg, q.key)| {
      SetPcTimed(ks, cfg, s, r, Reading(i));
    } else if cfg.readonly {
      FewerEntriesTimed(ks, cfg, s.local, Hint(s.local, q.cacheKey));
      ReplyTimed(ks, cfg, s, r, Answer(Hint(s.local, q.cacheKey), MissShape, true, None));
    } else if TrendEndpoint(q.key.endpoint) {
      EmitPendingTimed(ks, cfg, s.local, q, r);
      ReplyTimed(ks, cfg, s, r, EmitTrendPending(cfg, s.local, q, r));
    } else {
      SetPcTimed(ks, cfg, s, r, Loading);
    }
  }

  lemma BeginTimed(ks: KeySet, cfg: Config, s: State, info: Request, q: Query)
    requires Timed(ks, cfg, s) && Good(ks, q)
    ensures Timed(ks, cfg, Begin(cfg, s, info, q))
  {
    var r := |s.reqs|;
    var s1 := s.(reqs := s.reqs + [Req(q, info.pipeline, info.bypassParam, Reading(0))]);
    assert Timed(ks, cfg, s1);
    if Bypasses(cfg, info.pipeline, info.bypassParam) {
      SetPcTimed(ks, cfg, s1, r, Loading);
    } else {
      var e := LiveEntry(s1.local, q.cacheKey);
      var l2 := AfterGet(s1.local, q.cacheKey);
      FewerEntriesTimed(ks, cfg, s1.local, l2);
      var s2 := s1.(local := l2);
      if e.Some? && MemoryCounts(cfg, q.key, e.value) {
        MemoryAnswerTimed(ks, cfg, l2, q, r);
        EmitMemoryKeeps(cfg, l2, q, e.value, r);
        FewerEntriesTimed(ks, cfg, l2, MemoryAnswer(cfg, l2, q, e.value, r).local);
        ReplyTimed(ks, cfg, s2, r, MemoryAnswer(cfg, l2, q, e.value, r));
      } else {
        ProceedTimed(ks, cfg, s2, r, 0);
      }
    }
  }

  /** The time memory is given for a tier's value. */
  lemma MemTtlOk(cfg: Config, k: Key, p: Probe, f: Found, now: int)
    requires FoundOk(f, now)
    ensures EntryOk(cfg, k, MemEntry(f.val, now + MemTtl(cfg, k, p, f.ttlMs), MemTtl(cfg, k, p, f.ttlMs),
      Fill(f.origin, f.until, f.readAt, now, p.refresh.Always?)))
  {
  }

  lemma UseHitTimed(ks: KeySet, cfg: Config, l: Local, q: Query, p: Probe, f: Found, r: nat)
    requires MemTimed(ks, cfg, l) && Good(ks, q) && FoundOk(f, l.now) && (f.ttlMs > 0 || p.refresh.Always?)
    ensures var a := UseHit(cfg, l, q, p, f, r);
      MemTimed(ks, cfg, a.local) && a.local.now == l.now && AnswerTimed(a.refreshPending, a.fill, l.now)
  {
    var ttl, fill := MemTtl(cfg, q.key, p, f.ttlMs), Fill(f.origin, f.until, f.readAt, l.now, p.refresh.Always?);
    MemTtlOk(cfg, q.key, p, f, l.now);
    SetTimed(ks, cfg, l, q, f.val, ttl, fill);
    FewerEntriesTimed(ks, cfg, CacheSet(l, q.cacheKey, f.val, ttl, fill), UseHit(cfg, l, q, p, f, r).local);
  }

  lemma ResumeTimed(ks: KeySet, cfg: Config, s: State, r: nat)
    requires Timed(ks, cfg, s) && HasAnswer(cfg, s, r) && Good(ks, s.reqs[r].q)
    ensures Timed(ks, cfg, Resume(cfg, s, r))
  {
    var q := s.reqs[r];
    var p := ProbeOf(cfg, s, r);
    if ProbeCounts(p, q.pc.found) {
      RefreshesUnlessFresh(cfg, q.q.key, q.pc.i);
      UseHitTimed(ks, cfg, s.local, q.q, p, q.pc.found.value, r);
      ReplyTimed(ks, cfg, s, r, UseHit(cfg, s.local, q.q, p, q.pc.found.value, r));
    } else {
      ProceedTimed(ks, cfg, s, r, q.pc.i + 1);
    }
  }

  lemma SourceTimed(cfg: Config, s: State, q: Query, source: Source, pick: string)
    ensures var f := ReadSource(cfg, s, q, source, pick);
      f.Some? ==> FoundOk(f.value, s.local.now) && (ReadsFresh(source) ==> f.value.ttlMs > 0)
  {
  }

  lemma ReadTimed(ks: KeySet, cfg: Config, s: State, r: nat, fails: bool, pick: string)
    requires Timed(ks, cfg, s) && Enabled(cfg, s, ReadTier(r, fails, pick))
    ensures Timed(ks, cfg, ReadStep(cfg, s, r, fails, pick))
  {
    var q, i := s.reqs[r].q, s.reqs[r].pc.i;
    var source := Walk(cfg, q.key)[i].source;
    SourceTimed(cfg, s, q, source, pick);
    SetPcTimed(ks, cfg, s, r, Answered(i, if fails then None else ReadSource(cfg, s, q, source, pick)));
  }

  lemma LoadTimed(ks: KeySet, cfg: Config, s: State, r: nat, o: Outcome)
    requires Timed(ks, cfg, s) && r < |s.reqs| && Good(ks, s.reqs[r].q)
    ensures Timed(ks, cfg, FinishLoad(cfg, s, r, o))
  {
    var q := s.reqs[r].q;
    if o.Throws? {
      SetPcTimed(ks, cfg, s, r, Done(Errored, s.local.now));
    } else {
      var v, ttl := Tag(o, q.key), cfg.ttlMs(q.key);
      PersistTimed(ks, cfg, s.local, q, v, ttl);
      ReplyTimed(ks, cfg, s, r, Answer(PersistDashboardCaches(cfg, s.local, q, v, ttl), v, false, Some(FreshFill(s.local, ttl))));
    }
  }

  lemma TaskTimed(ks: KeySet, cfg: Config, s: State, t: nat, o: Outcome)
    requires Timed(ks, cfg, s) && t < |s.local.tasks| && Good(ks, s.local.tasks[t].q)
    ensures Timed(ks, cfg, FinishTask(cfg, s, t, o))
  {
    var q := s.local.tasks[t].q;
    if !o.Throws? {
      var l := PersistDashboardCaches(cfg, s.local, q, Tag(o, q.key), cfg.ttlMs(q.key));
      PersistTimed(ks, cfg, s.local, q, Tag(o, q.key), cfg.ttlMs(q.key));
      FewerEntriesTimed(ks, cfg, l, FinishTask(cfg, s, t, o).local);
    }
  }

  lemma JobTimed(ks: KeySet, cfg: Config, s: State, j: nat, o: Outcome)
    requires Timed(ks, cfg, s) && j < |s.jobs| && Good(ks, s.jobs[j].q)
    ensures Timed(ks, cfg, FinishJob(cfg, s, j, o))
  {
    var q := s.jobs[j].q;
    if !o.Throws? { PersistTimed(ks, cfg, s.local, q, Tag(o, q.key), cfg.readonlyTtlMs(q.key)); }
  }

  predicate Loads(e: Event) { e.TaskEnds? || e.JobEnds? }

  lemma OtherTimed(ks: KeySet, cfg: Config, s: State, e: Event)
    requires Timed(ks, cfg, s) && LeavesRequests(e) && !Loads(e) && Enabled(cfg, s, e)
    ensures Timed(ks, cfg, Apply(cfg, s, e))
  {
    var s' := Apply(cfg, s, e);
    RequestsLeft(cfg, s, e);
    LeavesMemory(cfg, s, e);
    FewerEntriesTimed(ks, cfg, s.local, s'.local);
    LaterTimed(cfg, s.reqs, s.local.now, s'.local.now);
  }

  lemma LeavesMemory(cfg: Config, s: State, e: Event)
    requires LeavesRequests(e) && !Loads(e) && Enabled(cfg, s, e)
    ensures var s' := Apply(cfg, s, e);
      s.local.now <= s'.local.now
      && (s'.local.mem == s.local.mem || (e.EntryForgotten? && s'.local.mem == s.local.mem - {e.cacheKey}))
  {
  }

  lemma StepTimed(ks: KeySet, cfg: Config, s: State, e: Event)
    requires Sound(ks, cfg, s) && Timed(ks, cfg, s) && Enabled(cfg, s, e) && EventIn(ks, e)
    ensures Timed(ks, cfg, Apply(cfg, s, e))
  {
    match e
    case Arrive(info) => BeginTimed(ks, cfg, s, info, QueryOf(info.key));
    case ReadTier(r, fails, pick) => ReadTimed(ks, cfg, s, r, fails, pick);
    case Continue(r) => ResumeTimed(ks, cfg, s, r);
    case LoaderEnds(r, o) => LoadTimed(ks, cfg, s, r, o);
    case TaskEnds(t, o) => TaskTimed(ks, cfg, s, t, o);
    case JobEnds(j, o) => JobTimed(ks, cfg, s, j, o);
    case _ => OtherTimed(ks, cfg, s, e);
  }

  lemma {:induction false} RunTimed(ks: KeySet, cfg: Config, s: State, events: seq<Event>, t: State)
    requires Sound(ks, cfg, s) && Timed(ks, cfg, s) && Run(cfg, s, events, t) && EventsIn(ks, events)
    ensures Timed(ks, cfg, t)
    decreases |events|
  {
    if events != [] {
      StepSound(ks, cfg, s, events[0]);
      StepTimed(ks, cfg, s, events[0]);
      RunTimed(ks, cfg, Apply(cfg, s, events[0]), events[1..], t);
    }
  }

  /**
   * Every answer, from memory or a tier or a loader, that orders no refresh: it is past the end its tier gave it exactly
   * when it had expired there before it was read, and it was then read in a place that always orders a refresh. (At the
   * instant of that end itself it may be either.)
   */
  lemma UnrefreshedAnswersAreInTime(ks: KeySet, cfg: Config, now: int, events: seq<Event>, s: State, r: nat)
    requires Run(cfg, Init(now), events, s) && EventsIn(ks, events)
    requires r < |s.reqs| && s.reqs[r].pc.Done? && s.reqs[r].pc.resp.Served? && !s.reqs[r].pc.resp.refreshPending
    ensures s.reqs[r].pc.resp.fill.Some?
    ensures var f, at := s.reqs[r].pc.resp.fill.value, s.reqs[r].pc.at;
      && f.readAt <= f.usedAt <= at
      && (HadTime(f) ==> at <= End(f))
      && (!HadTime(f) ==> f.always && End(f) <= at)
  {
    RunTimed(ks, cfg, Init(now), events, s);
    assert PcTimed(cfg, s.reqs[r], s.local.now);
  }
}
